/**
 * The `Bartleby` handle: a symbol map whose `Symbol` records are updated in
 * place, the list of objects, the binaries kept alive for them, and the
 * object-format state. Each method is proved to do what the corresponding
 * function of `Intake` or `SymbolTable` says.
 */
module Bartleby {
  import opened Wrappers
  import opened Formats
  import opened Errors
  import opened Symbols
  import opened Binaries
  import opened SymbolTable
  import opened Intake

  class Bartleby {
    var symbols: map<string, Symbol>
    var objects: seq<ObjectFile>
    var ownedBinaries: seq<Binary>
    var objFormat: FormatState

    /** Each name owns its own `Symbol` record. */
    ghost predicate Valid()
      reads this`symbols
    {
      forall k1, k2 :: k1 in symbols && k2 in symbols && k1 != k2 ==> symbols[k1] != symbols[k2]
    }

    /** The symbol map as a value. */
    function Table(): Table
      reads this`symbols, symbols.Values
    {
      map k | k in symbols :: symbols[k].State()
    }

    /** The whole handle as a value. */
    function State(): HandleState
      reads this, symbols.Values
    {
      HandleState(Table(), objects, ownedBinaries, objFormat)
    }

    /** `Bartleby()`: an empty handle. */
    constructor ()
      ensures Valid() && State() == EmptyHandle
    {
      symbols := map[];
      objects := [];
      ownedBinaries := [];
      objFormat := NoFormat;
    }

    /** One iteration of `ProcessObjectFile`: `Symbols[Name].updateWithNewSymbolInfo(Info)`. */
    method MergeSymbol(info: SymbolInfo)
      requires Valid() && WellFormed(info)
      modifies this`symbols, symbols.Values
      ensures Valid() && fresh(symbols.Values - old(symbols.Values))
      ensures Table() == MergeOne(old(Table()), info)
    {
      if ShouldSkipSymbol(info) {
        return;
      }
      var name := info.name.value;
      var sym: Symbol;
      if name in symbols {
        sym := symbols[name];
      } else {
        sym := new Symbol();
        symbols := symbols[name := sym];
      }
      ghost var before := Table();
      assert before == old(Table())[name := if name in old(symbols) then old(Table())[name] else NewSymbolState];
      sym.UpdateWithNewSymbolInfo(info);
      forall k | k in symbols && k != name ensures symbols[k] != sym { }
      assert Table() == before[name := Updated(before[name], info)];
    }

    /** `ProcessObjectFile`: merge the symbols of `obj` into the symbol map, in order. */
    method ProcessObjectFile(obj: ObjectHandle)
      requires Valid()
      modifies this`symbols, symbols.Values
      ensures Valid() && fresh(symbols.Values - old(symbols.Values))
      ensures Table() == MergeObject(old(Table()), obj)
    {
      var infos := SymbolInfos(obj);
      SymbolInfosWellFormed(obj);
      var i := 0;
      while i < |infos|
        invariant 0 <= i <= |infos|
        invariant Valid() && fresh(symbols.Values - old(symbols.Values))
        invariant Table() == MergeInfos(old(Table()), infos[..i])
      {
        MergeSymbol(infos[i]);
        assert infos[..i + 1][..i] == infos[..i];
        i := i + 1;
      }
      assert infos[..i] == infos;
    }

    /** `ProcessObjectFile` followed by `Objects.emplace_back`. */
    method AddObjectFile(obj: ObjectHandle, name: string, alignment: nat)
      requires Valid()
      modifies this, symbols.Values
      ensures Valid() && fresh(symbols.Values - old(symbols.Values))
      ensures State() == WithObject(old(State()), obj, name, alignment)
    {
      ProcessObjectFile(obj);
      objects := objects + [ObjectFile(obj, name, alignment)];
    }

    /** The loop body of `prefixGlobalAndDefinedSymbols` for the entry `name`. */
    method PrefixSymbol(name: string, prefix: string) returns (renamed: bool)
      requires Valid() && name in symbols
      modifies symbols[name]
      ensures renamed <==> Eligible(old(Table())[name])
      ensures Table() == old(Table())[name := PrefixedEntry(old(Table())[name], prefix, name)]
    {
      var sym := symbols[name];
      renamed := sym.IsGlobal() && sym.IsDefined();
      if renamed {
        var newName := "";
        if sym.IsMachO() {
          newName := newName + "_";
        }
        newName := newName + prefix;
        if sym.IsMachO() {
          newName := newName + DropFirst(name);
        } else {
          newName := newName + name;
        }
        assert newName == NewName(prefix, name, sym.IsMachO());
        sym.SetName(newName);
      }
      forall k | k in symbols && k != name ensures symbols[k] != sym { }
      assert Table() == old(Table())[name := PrefixedEntry(old(Table())[name], prefix, name)];
    }

    /**
     * `prefixGlobalAndDefinedSymbols`: visits the symbols in the map's own
     * (unspecified) order and gives each global and defined one an overwrite
     * name built from its key; returns how many it renamed.
     */
    method PrefixGlobalAndDefinedSymbols(prefix: string) returns (n: nat)
      requires Valid()
      modifies symbols.Values
      ensures Table() == PrefixedTable(old(Table()), prefix)
      ensures n == |RenamedKeys(old(Table()))|
    {
      ghost var t := Table();
      PrefixedOnAll(t, prefix);
      n := 0;
      var remaining := symbols.Keys;
      ghost var done: set<string> := {};
      while remaining != {}
        invariant remaining <= t.Keys && done == t.Keys - remaining
        invariant Table() == PrefixedOn(t, prefix, done)
        invariant n == |RenamedKeys(t) * done|
        decreases remaining
      {
        var name :| name in remaining;
        PrefixedOnStep(t, prefix, done, name);
        RenamedCountStep(t, done, name);
        ghost var before := Table();
        var renamed := PrefixSymbol(name, prefix);
        assert Table() == before[name := PrefixedEntry(t[name], prefix, name)];
        if renamed {
          n := n + 1;
        }
        VisitOne(t.Keys, remaining, name);
        remaining := remaining - {name};
        done := done + {name};
      }
      NoneRemaining(t.Keys);
    }

    /** One member of an archive given to `addBinary`; `outer` is the archive. */
    method AddArchiveChild(outer: Binary, ch: ArchiveChild) returns (outcome: Outcome)
      requires Valid()
      modifies this, symbols.Values
      ensures Valid() && fresh(symbols.Values - old(symbols.Values))
      ensures Step(State(), outcome) == ChildStep(old(State()), outer, ch)
    {
      match ch.binary
      case Failure(e) =>
        return Err(Llvm(e));
      case Success(b) =>
        if b.content.ObjectBinary? {
          var f := FromTriple(b.content.obj.triple);
          if !ObjectFormatMatches(objFormat, f) {
            if objFormat.Single? {
              return Err(Bartleby(Error(ObjectFormatTypeMismatch(objFormat.format, f))));
            }
            return Terminated;
          }
          objFormat := Single(f);
          var name := if ch.name.Some? then ch.name.value else GeneratedName(|objects| + 1);
          AddObjectFile(b.content.obj, name, 0);
          return Ok;
        }
        return Err(Bartleby(Error(UnsupportedBinary(UnsupportedText(outer)))));
    }

    /** One member of an archive inside a fat Mach-O slice. */
    method AddFatArchiveChild(ch: ArchiveChild) returns (outcome: Outcome)
      requires Valid()
      modifies this, symbols.Values
      ensures Valid() && fresh(symbols.Values - old(symbols.Values))
      ensures Step(State(), outcome) == FatChildStep(old(State()), ch)
    {
      match ch.binary
      case Failure(e) =>
        return Err(Llvm(e));
      case Success(b) =>
        if b.content.ObjectBinary? && b.content.obj.triple.objectFormat == MachO {
          var name := if ch.name.Some? then ch.name.value else GeneratedName(|objects| + 1);
          AddObjectFile(b.content.obj, name, 0);
          return Ok;
        }
        return Err(Bartleby(Error(MachOUniversalBinary(
          "expected an object in the archive, found " + Decimal.NatToString(b.typeId)))));
    }

    /** The members of an archive inside a fat Mach-O slice, stopping at the first failure. */
    method AddFatArchiveChildren(cs: seq<ArchiveChild>) returns (outcome: Outcome)
      requires Valid()
      modifies this, symbols.Values
      ensures Valid() && fresh(symbols.Values - old(symbols.Values))
      ensures Step(State(), outcome) == FatArchiveChildren(old(State()), cs)
    {
      var i := 0;
      while i < |cs|
        invariant 0 <= i <= |cs|
        invariant Valid() && fresh(symbols.Values - old(symbols.Values))
        invariant FatArchiveChildren(State(), cs[i..]) == FatArchiveChildren(old(State()), cs)
      {
        assert cs[i..][0] == cs[i] && cs[i..][1..] == cs[i + 1..];
        outcome := AddFatArchiveChild(cs[i]);
        if !outcome.Ok? {
          return;
        }
        i := i + 1;
      }
      return Ok;
    }

    /** One slice of a fat Mach-O, checked against the handle's format set. */
    method AddSlice(formats: set<ObjectFormat>, slice: FatSlice) returns (outcome: Outcome)
      requires Valid()
      modifies this, symbols.Values
      ensures Valid() && fresh(symbols.Values - old(symbols.Values))
      ensures Step(State(), outcome) == SliceStep(old(State()), formats, slice)
    {
      if FromTriple(slice.triple) !in formats {
        return Err(Bartleby(Error(MachOUniversalBinary(
          "unexpected triple " + slice.triple.text + " in fat Mach-O"))));
      }
      match slice.content
      case SliceObject(obj) =>
        AddObjectFile(obj, GeneratedName(|objects| + 1), slice.align);
        return Ok;
      case SliceArchive(cs) =>
        outcome := AddFatArchiveChildren(cs);
      case SliceNeither =>
        return Ok;
    }

    /** The slices of a fat Mach-O, in order, stopping at the first failure. */
    method AddSlices(formats: set<ObjectFormat>, slices: seq<FatSlice>) returns (outcome: Outcome)
      requires Valid()
      modifies this, symbols.Values
      ensures Valid() && fresh(symbols.Values - old(symbols.Values))
      ensures Step(State(), outcome) == Intake.AddSlices(old(State()), formats, slices)
    {
      var i := 0;
      while i < |slices|
        invariant 0 <= i <= |slices|
        invariant Valid() && fresh(symbols.Values - old(symbols.Values))
        invariant Intake.AddSlices(State(), formats, slices[i..]) == Intake.AddSlices(old(State()), formats, slices)
      {
        assert slices[i..][0] == slices[i] && slices[i..][1..] == slices[i + 1..];
        outcome := AddSlice(formats, slices[i]);
        if !outcome.Ok? {
          return;
        }
        i := i + 1;
      }
      return Ok;
    }

    /** `addMachOUniversalBinary`. */
    method AddMachOUniversalBinary(b: Binary) returns (outcome: Outcome)
      requires Valid() && b.content.UniversalBinary?
      modifies this, symbols.Values
      ensures Valid() && fresh(symbols.Values - old(symbols.Values))
      ensures Step(State(), outcome) == Intake.AddMachOUniversalBinary(old(State()), b)
    {
      var slices := b.content.slices;
      if objFormat.Single? {
        return Err(Bartleby(Error(MachOUniversalBinary(
          "expected an object of type " + FormatText(objFormat.format) + ", got a fat Mach-O"))));
      }
      if objFormat.FormatSet? && |objFormat.formats| != |slices| {
        return Err(Bartleby(Error(MachOUniversalBinary(
          "expected a fat Mach-O with " + Decimal.NatToString(|objFormat.formats|)
          + " arch(s), got " + Decimal.NatToString(|slices|) + " arch(s)."))));
      }
      if objFormat.NoFormat? {
        var fs := CollectSliceFormats(slices);
        objFormat := FormatSet(fs);
      }
      outcome := AddSlices(objFormat.formats, slices);
      if outcome.Ok? {
        ownedBinaries := ownedBinaries + [b];
      }
    }

    /** `addBinary`: an object, an archive of objects, or a fat Mach-O. */
    method AddBinary(b: Binary) returns (outcome: Outcome)
      requires Valid()
      modifies this, symbols.Values
      ensures Valid() && fresh(symbols.Values - old(symbols.Values))
      ensures Step(State(), outcome) == Intake.AddBinary(old(State()), b)
    {
      match b.content
      case ObjectBinary(obj) =>
        var f := FromTriple(obj.triple);
        if !ObjectFormatMatches(objFormat, f) {
          if objFormat.Single? {
            return Err(Bartleby(Error(ObjectFormatTypeMismatch(objFormat.format, f))));
          }
          return Terminated;
        }
        objFormat := Single(f);
        AddObjectFile(obj, GeneratedName(|objects| + 1), 0);
        ownedBinaries := ownedBinaries + [b];
        return Ok;
      case ArchiveBinary(cs) =>
        var i := 0;
        while i < |cs|
          invariant 0 <= i <= |cs|
          invariant Valid() && fresh(symbols.Values - old(symbols.Values))
          invariant ArchiveChildren(State(), b, cs[i..]) == ArchiveChildren(old(State()), b, cs)
        {
          assert cs[i..][0] == cs[i] && cs[i..][1..] == cs[i + 1..];
          outcome := AddArchiveChild(b, cs[i]);
          if !outcome.Ok? {
            return;
          }
          i := i + 1;
        }
        ownedBinaries := ownedBinaries + [b];
        return Ok;
      case UniversalBinary(_) =>
        outcome := AddMachOUniversalBinary(b);
        return;
      case OtherBinary =>
        return Err(Bartleby(Error(UnsupportedBinary(UnsupportedText(b)))));
    }
  }

  /** Moving one key from the keys still to visit to the visited ones. */
  lemma VisitOne(keys: set<string>, remaining: set<string>, key: string)
    requires remaining <= keys && key in remaining
    ensures keys - (remaining - {key}) == (keys - remaining) + {key}
  {
  }

  lemma NoneRemaining(keys: set<string>)
    ensures keys - {} == keys
  {
  }

  /** The loop of `addMachOUniversalBinary` that inserts each slice's format into a new set. */
  method CollectSliceFormats(slices: seq<FatSlice>) returns (fs: set<ObjectFormat>)
    ensures fs == SliceFormats(slices)
  {
    fs := {};
    var j := 0;
    while j < |slices|
      invariant 0 <= j <= |slices|
      invariant fs == SliceFormats(slices[..j])
    {
      assert slices[..j + 1][..j] == slices[..j];
      fs := fs + {FromTriple(slices[j].triple)};
      j := j + 1;
    }
    assert slices[..j] == slices;
  }
}
