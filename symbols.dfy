/**
 * One symbol as the library sees it: what is read from an object's symbol
 * table entry (`SymbolInfo`) and the record accumulated across objects
 * (`Symbol`), with its sticky `Defined` and `Global` flags.
 */
module Symbols {
  import opened Wrappers
  import opened Formats

  /** `llvm::object::SymbolRef::Type`. */
  datatype SymbolType = Unknown | Data | Debug | File | Function | Other

  /** The `llvm::object::BasicSymbolRef::Flags` bits this library reads. */
  const SF_Undefined: bv32 := 1
  const SF_Global: bv32 := 2
  const SF_Weak: bv32 := 4

  predicate HasFlag(flags: bv32, bit: bv32) {
    flags & bit != 0
  }

  /**
   * `SymbolInfo`: type, flags and name are absent when LLVM could not read
   * them, `err` records that, and `objectType` is the format of the object
   * the symbol came from. (The `SymbolRef` handle itself is not modelled.)
   */
  datatype SymbolInfo = SymbolInfo(
    symType: Option<SymbolType>,
    flags: Option<bv32>,
    name: Option<string>,
    objectType: ObjectFormatType,
    err: bool)

  /** A default-initialised `SymbolInfo`: nothing read, no error, unknown object format. */
  const DefaultSymbolInfo := SymbolInfo(None, None, None, UnknownObjectFormat, false)

  /** The state of a `Symbol`, as a value. */
  datatype SymbolState = SymbolState(
    overwriteName: Option<string>,
    objType: ObjectFormatType,
    global: bool,
    defined: bool)

  /** A default-constructed `Symbol`. */
  const NewSymbolState := SymbolState(None, UnknownObjectFormat, false, false)

  /**
   * `updateWithNewSymbolInfo` on values: a weak symbol changes neither flag;
   * otherwise a symbol that is not undefined becomes defined and a global one
   * becomes global. Neither flag is ever cleared. The format tag always
   * becomes the incoming object's, weak or not.
   */
  function Updated(s: SymbolState, info: SymbolInfo): (r: SymbolState)
    requires !info.err && info.flags.Some?
    ensures HasFlag(info.flags.value, SF_Weak) ==> r.defined == s.defined && r.global == s.global
    ensures r.defined <==> s.defined || (!HasFlag(info.flags.value, SF_Weak) && !HasFlag(info.flags.value, SF_Undefined))
    ensures r.global <==> s.global || (!HasFlag(info.flags.value, SF_Weak) && HasFlag(info.flags.value, SF_Global))
    ensures r.objType == info.objectType
    ensures r.overwriteName == s.overwriteName
  {
    var fl := info.flags.value;
    var defined := if !HasFlag(fl, SF_Weak) && !HasFlag(fl, SF_Undefined) then true else s.defined;
    var global := if !HasFlag(fl, SF_Weak) && HasFlag(fl, SF_Global) then true else s.global;
    SymbolState(s.overwriteName, info.objectType, global, defined)
  }

  /** `setName` on values: only the overwrite name changes. */
  function Renamed(s: SymbolState, name: string): (r: SymbolState)
    ensures r.overwriteName == Some(name)
    ensures r.objType == s.objType && r.global == s.global && r.defined == s.defined
  {
    s.(overwriteName := Some(name))
  }

  /** `Symbol`: a move-only record whose fields the library updates in place. */
  class Symbol {
    var overwriteName: Option<string>
    var objType: ObjectFormatType
    var global: bool
    var defined: bool

    function State(): SymbolState
      reads this
    {
      SymbolState(overwriteName, objType, global, defined)
    }

    /** A fresh symbol: not global, not defined, unknown format, no overwrite name. */
    constructor ()
      ensures State() == NewSymbolState
      ensures !IsGlobal() && !IsDefined() && !IsMachO() && GetOverwriteName().None?
    {
      overwriteName := None;
      objType := UnknownObjectFormat;
      global := false;
      defined := false;
    }

    function IsGlobal(): bool
      reads this
    {
      global
    }

    function IsDefined(): bool
      reads this
    {
      defined
    }

    function GetOverwriteName(): Option<string>
      reads this
    {
      overwriteName
    }

    function IsMachO(): bool
      reads this
    {
      objType == MachO
    }

    /** `setName`: the overwrite name becomes `name`, replacing any earlier one. */
    method SetName(name: string)
      modifies this
      ensures State() == Renamed(old(State()), name)
      ensures GetOverwriteName() == Some(name)
    {
      overwriteName := Some(name);
    }

    /** `updateWithNewSymbolInfo`: requires symbol information read without error. */
    method UpdateWithNewSymbolInfo(info: SymbolInfo)
      requires !info.err && info.flags.Some?
      modifies this
      ensures State() == Updated(old(State()), info)
      ensures IsMachO() <==> info.objectType == MachO
      ensures old(IsDefined()) ==> IsDefined()
      ensures old(IsGlobal()) ==> IsGlobal()
    {
      var fl := info.flags.value;
      if fl & SF_Weak == 0 {
        if fl & SF_Undefined == 0 {
          defined := true;
        }
        if fl & SF_Global != 0 {
          global := true;
        }
      }
      objType := info.objectType;
    }
  }
}
