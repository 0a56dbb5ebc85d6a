/**
 * The handle's symbol map as a value: how the symbols read from one object
 * are classified and merged into it (`shouldSkipSymbol`, `ProcessObjectFile`),
 * how the prefixing pass rewrites it (`prefixGlobalAndDefinedSymbols`), and
 * the rename map the archive writer derives from it.
 */
module SymbolTable {
  import opened Wrappers
  import opened Formats
  import opened Symbols
  import opened Binaries

  /** Symbol name to symbol state: the value view of `Bartleby::SymbolMap`. */
  type Table = map<string, SymbolState>

  /** Information read without error has all three of name, flags and type. */
  predicate WellFormed(info: SymbolInfo) {
    !info.err ==> info.name.Some? && info.flags.Some? && info.symType.Some?
  }

  /**
   * `getSymbolInfo`, with the object format `collectSymbolInfos` stores:
   * the error flag is set exactly when one of name, flags or type could not
   * be read.
   */
  function GetSymbolInfo(raw: RawSymbol, format: ObjectFormatType): (info: SymbolInfo)
    ensures info.err <==> raw.name.None? || raw.flags.None? || raw.symType.None?
    ensures WellFormed(info)
    ensures info.objectType == format
    ensures info.name == raw.name && info.flags == raw.flags && info.symType == raw.symType
  {
    SymbolInfo(raw.symType, raw.flags, raw.name, format,
               raw.name.None? || raw.flags.None? || raw.symType.None?)
  }

  /** `collectSymbolInfos`: one entry per symbol of the object, in symbol table order. */
  function SymbolInfos(obj: ObjectHandle): seq<SymbolInfo> {
    seq(|obj.symbols|, i requires 0 <= i < |obj.symbols| =>
      GetSymbolInfo(obj.symbols[i], obj.triple.objectFormat))
  }

  lemma SymbolInfosWellFormed(obj: ObjectHandle)
    ensures |SymbolInfos(obj)| == |obj.symbols|
    ensures forall i :: 0 <= i < |SymbolInfos(obj)| ==>
      WellFormed(SymbolInfos(obj)[i]) && SymbolInfos(obj)[i].objectType == obj.triple.objectFormat
  {
  }

  /**
   * `shouldSkipSymbol`: a symbol is skipped exactly when its information
   * could not be read or its type is Other, Debug or File.
   */
  function ShouldSkipSymbol(info: SymbolInfo): (skip: bool)
    requires info.err || info.symType.Some?
    ensures skip <==> (info.err || info.symType.value == Other
                      || info.symType.value == Debug || info.symType.value == File)
  {
    if info.err then true
    else match info.symType.value
      case Other => true
      case Debug => true
      case File => true
      case _ => false
  }

  /** One iteration of `ProcessObjectFile`: `Symbols[Name].updateWithNewSymbolInfo(Info)`. */
  function MergeOne(t: Table, info: SymbolInfo): Table
    requires WellFormed(info)
  {
    if ShouldSkipSymbol(info) then t
    else
      var n := info.name.value;
      t[n := Updated(if n in t then t[n] else NewSymbolState, info)]
  }

  predicate AllWellFormed(infos: seq<SymbolInfo>) {
    forall i :: 0 <= i < |infos| ==> WellFormed(infos[i])
  }

  /** `ProcessObjectFile`'s loop: the infos merged in order, first to last. */
  function MergeInfos(t: Table, infos: seq<SymbolInfo>): Table
    requires AllWellFormed(infos)
    decreases |infos|
  {
    if infos == [] then t
    else MergeOne(MergeInfos(t, infos[..|infos| - 1]), infos[|infos| - 1])
  }

  /** `ProcessObjectFile`: every symbol of `obj` merged into `t`. */
  function MergeObject(t: Table, obj: ObjectHandle): Table {
    SymbolInfosWellFormed(obj);
    MergeInfos(t, SymbolInfos(obj))
  }

  /** The names of the symbols that are not skipped. */
  function KeptNames(infos: seq<SymbolInfo>): set<string>
    requires AllWellFormed(infos)
  {
    set i | 0 <= i < |infos| && !ShouldSkipSymbol(infos[i]) :: infos[i].name.value
  }

  /** `infos` holds a kept, non-weak symbol named `k` that is not undefined. */
  predicate DefinesName(infos: seq<SymbolInfo>, k: string)
    requires AllWellFormed(infos)
  {
    exists i :: 0 <= i < |infos| && !ShouldSkipSymbol(infos[i]) && infos[i].name.value == k
      && !HasFlag(infos[i].flags.value, SF_Weak) && !HasFlag(infos[i].flags.value, SF_Undefined)
  }

  /** `infos` holds a kept, non-weak, global symbol named `k`. */
  predicate GlobalizesName(infos: seq<SymbolInfo>, k: string)
    requires AllWellFormed(infos)
  {
    exists i :: 0 <= i < |infos| && !ShouldSkipSymbol(infos[i]) && infos[i].name.value == k
      && !HasFlag(infos[i].flags.value, SF_Weak) && HasFlag(infos[i].flags.value, SF_Global)
  }

  /** Skipped symbols never add keys: the new keys are exactly the kept names. */
  lemma {:induction false} MergeInfosKeys(t: Table, infos: seq<SymbolInfo>)
    requires AllWellFormed(infos)
    ensures MergeInfos(t, infos).Keys == t.Keys + KeptNames(infos)
    decreases |infos|
  {
    if infos != [] {
      var init := infos[..|infos| - 1];
      MergeInfosKeys(t, init);
      var last := |infos| - 1;
      assert KeptNames(infos) == KeptNames(init) + (if ShouldSkipSymbol(infos[last]) then {} else {infos[last].name.value}) by {
        forall n | n in KeptNames(infos)
          ensures n in KeptNames(init) || (!ShouldSkipSymbol(infos[last]) && n == infos[last].name.value)
        {
          var i :| 0 <= i < |infos| && !ShouldSkipSymbol(infos[i]) && infos[i].name.value == n;
          if i < last { assert init[i] == infos[i]; }
        }
        forall n | n in KeptNames(init) ensures n in KeptNames(infos) {
          var i :| 0 <= i < |init| && !ShouldSkipSymbol(init[i]) && init[i].name.value == n;
          assert infos[i] == init[i];
        }
      }
    }
  }

  /**
   * After merging, a symbol is defined exactly when it was defined before or
   * some kept, non-weak, not-undefined symbol of that name was merged; and
   * global exactly when it was global before or some kept, non-weak, global
   * symbol of that name was merged. So neither flag is ever cleared, and weak
   * symbols never set one.
   */
  lemma {:induction false} MergeInfosFlags(t: Table, infos: seq<SymbolInfo>, k: string)
    requires AllWellFormed(infos)
    requires k in MergeInfos(t, infos)
    ensures MergeInfos(t, infos)[k].defined <==> (k in t && t[k].defined) || DefinesName(infos, k)
    ensures MergeInfos(t, infos)[k].global <==> (k in t && t[k].global) || GlobalizesName(infos, k)
    decreases |infos|
  {
    if infos != [] {
      var init := infos[..|infos| - 1];
      NamesOfLast(infos, k);
      if k in MergeInfos(t, init) {
        MergeInfosFlags(t, init, k);
      } else {
        MergeInfosKeys(t, init);
        assert k !in t;
        assert !DefinesName(init, k) && !GlobalizesName(init, k);
      }
    }
  }

  /** What the last symbol information adds to `DefinesName` and `GlobalizesName`. */
  lemma NamesOfLast(infos: seq<SymbolInfo>, k: string)
    requires AllWellFormed(infos) && infos != []
    ensures var init := infos[..|infos| - 1];
      var info := infos[|infos| - 1];
      && AllWellFormed(init)
      && (DefinesName(infos, k) <==>
            (DefinesName(init, k)
             || (!ShouldSkipSymbol(info) && info.name.value == k
                 && !HasFlag(info.flags.value, SF_Weak) && !HasFlag(info.flags.value, SF_Undefined))))
      && (GlobalizesName(infos, k) <==>
            (GlobalizesName(init, k)
             || (!ShouldSkipSymbol(info) && info.name.value == k
                 && !HasFlag(info.flags.value, SF_Weak) && HasFlag(info.flags.value, SF_Global))))
  {
    var init := infos[..|infos| - 1];
    assert forall i :: 0 <= i < |init| ==> init[i] == infos[i];
    var last := |infos| - 1;
    if DefinesName(infos, k) && !DefinesName(init, k) {
      var i :| 0 <= i < |infos| && !ShouldSkipSymbol(infos[i]) && infos[i].name.value == k
        && !HasFlag(infos[i].flags.value, SF_Weak) && !HasFlag(infos[i].flags.value, SF_Undefined);
      assert i == last;
    }
    if GlobalizesName(infos, k) && !GlobalizesName(init, k) {
      var i :| 0 <= i < |infos| && !ShouldSkipSymbol(infos[i]) && infos[i].name.value == k
        && !HasFlag(infos[i].flags.value, SF_Weak) && HasFlag(infos[i].flags.value, SF_Global);
      assert i == last;
    }
  }

  /**
   * Merging never sets an overwrite name: entries keep theirs and new entries
   * have none. Entries not named by a kept symbol are left exactly as they were.
   */
  lemma {:induction false} MergeInfosOther(t: Table, infos: seq<SymbolInfo>)
    requires AllWellFormed(infos)
    ensures forall k :: k in MergeInfos(t, infos) ==>
      MergeInfos(t, infos)[k].overwriteName == (if k in t then t[k].overwriteName else None)
    ensures forall k :: k in t && k !in KeptNames(infos) ==>
      k in MergeInfos(t, infos) && MergeInfos(t, infos)[k] == t[k]
    decreases |infos|
  {
    MergeInfosKeys(t, infos);
    if infos != [] {
      var init := infos[..|infos| - 1];
      MergeInfosOther(t, init);
      MergeInfosKeys(t, init);
      var last := |infos| - 1;
      if !ShouldSkipSymbol(infos[last]) {
        assert infos[last].name.value in KeptNames(infos);
      }
    }
  }

  /**
   * All symbols of one object carry that object's format, so after merging
   * one object every kept name is tagged with it.
   */
  lemma {:induction false} MergeInfosFormat(t: Table, infos: seq<SymbolInfo>, format: ObjectFormatType)
    requires AllWellFormed(infos)
    requires forall i :: 0 <= i < |infos| ==> infos[i].objectType == format
    ensures forall k :: k in KeptNames(infos) ==>
      k in MergeInfos(t, infos) && MergeInfos(t, infos)[k].objType == format
    decreases |infos|
  {
    MergeInfosKeys(t, infos);
    if infos != [] {
      var init := infos[..|infos| - 1];
      MergeInfosFormat(t, init, format);
      MergeInfosKeys(t, init);
      forall k | k in KeptNames(infos) ensures MergeInfos(t, infos)[k].objType == format {
        var i :| 0 <= i < |infos| && !ShouldSkipSymbol(infos[i]) && infos[i].name.value == k;
        if i < |infos| - 1 {
          assert init[i] == infos[i];
          assert k in KeptNames(init);
        }
      }
    }
  }

  /** The entries the prefixing pass renames: global and defined. */
  predicate Eligible(s: SymbolState) {
    s.global && s.defined
  }

  /** `StringRef::substr(1)`: everything after the first character, or empty. */
  function DropFirst(key: string): string {
    if |key| == 0 then "" else key[1..]
  }

  /**
   * The overwrite name for `key`: the prefix before the key, or for a Mach-O
   * symbol `'_'`, the prefix, and the key without its first character.
   */
  function NewName(prefix: string, key: string, machO: bool): string {
    if machO then "_" + prefix + DropFirst(key) else prefix + key
  }

  /**
   * `prefixGlobalAndDefinedSymbols` on values: exactly the global and defined
   * entries get an overwrite name, computed from the key (never from an
   * earlier overwrite name); every other entry, and the set of keys, is
   * unchanged.
   */
  function PrefixedTable(t: Table, prefix: string): (r: Table)
    ensures r.Keys == t.Keys
    ensures forall k :: k in t && Eligible(t[k]) ==>
      r[k] == Renamed(t[k], NewName(prefix, k, t[k].objType == MachO))
    ensures forall k :: k in t && !Eligible(t[k]) ==> r[k] == t[k]
  {
    map k | k in t :: PrefixedEntry(t[k], prefix, k)
  }

  /** One entry of the prefixing pass. */
  function PrefixedEntry(s: SymbolState, prefix: string, key: string): SymbolState {
    if Eligible(s) then Renamed(s, NewName(prefix, key, s.objType == MachO)) else s
  }

  /** The table part way through the prefixing pass, once the keys in `visited` are done. */
  function PrefixedOn(t: Table, prefix: string, visited: set<string>): Table {
    map k | k in t :: if k in visited then PrefixedEntry(t[k], prefix, k) else t[k]
  }

  /** Visiting one more key of the prefixing pass rewrites just that entry. */
  lemma PrefixedOnStep(t: Table, prefix: string, visited: set<string>, key: string)
    requires key in t && key !in visited
    ensures key in PrefixedOn(t, prefix, visited) && PrefixedOn(t, prefix, visited)[key] == t[key]
    ensures PrefixedOn(t, prefix, visited + {key})
            == PrefixedOn(t, prefix, visited)[key := PrefixedEntry(t[key], prefix, key)]
  {
  }

  /** Whatever order the keys are visited in, visiting all of them is the whole pass. */
  lemma PrefixedOnAll(t: Table, prefix: string)
    ensures PrefixedOn(t, prefix, t.Keys) == PrefixedTable(t, prefix)
    ensures PrefixedOn(t, prefix, {}) == t
    ensures RenamedKeys(t) * t.Keys == RenamedKeys(t) && RenamedKeys(t) * {} == {}
  {
  }

  /** The keys the prefixing pass renames; their number is what it returns. */
  function RenamedKeys(t: Table): set<string> {
    set k | k in t && Eligible(t[k])
  }

  /** Visiting one more key adds one to the count exactly when that key is renamed. */
  lemma RenamedCountStep(t: Table, visited: set<string>, key: string)
    requires key in t && key !in visited
    ensures |RenamedKeys(t) * (visited + {key})|
            == |RenamedKeys(t) * visited| + (if Eligible(t[key]) then 1 else 0)
  {
    if Eligible(t[key]) {
      assert RenamedKeys(t) * (visited + {key}) == RenamedKeys(t) * visited + {key};
    } else {
      assert RenamedKeys(t) * (visited + {key}) == RenamedKeys(t) * visited;
    }
  }

  /** Applying the same prefix twice gives the same overwrite names as applying it once. */
  lemma PrefixIdempotent(t: Table, prefix: string)
    ensures PrefixedTable(PrefixedTable(t, prefix), prefix) == PrefixedTable(t, prefix)
  {
    var once := PrefixedTable(t, prefix);
    var twice := PrefixedTable(once, prefix);
    forall k | k in t ensures twice[k] == once[k] {
      if Eligible(t[k]) {
        assert Eligible(once[k]) && once[k].objType == t[k].objType;
      }
    }
    assert twice == once;
  }

  /** A later prefix replaces an earlier one on every renamed entry. */
  lemma PrefixReplaces(t: Table, p1: string, p2: string)
    ensures PrefixedTable(PrefixedTable(t, p1), p2) == PrefixedTable(t, p2)
  {
    var first := PrefixedTable(t, p1);
    var second := PrefixedTable(first, p2);
    forall k | k in t ensures second[k] == PrefixedTable(t, p2)[k] {
      if Eligible(t[k]) {
        assert Eligible(first[k]) && first[k].objType == t[k].objType;
      }
    }
    assert second == PrefixedTable(t, p2);
  }

  /**
   * The `ArchiveWriter` constructor's rename map: each key that has an
   * overwrite name, mapped to it.
   */
  function RenameMap(t: Table): (m: map<string, string>)
    ensures forall k :: k in m <==> k in t && t[k].overwriteName.Some?
    ensures forall k :: k in m ==> m[k] == t[k].overwriteName.value
  {
    map k | k in t && t[k].overwriteName.Some? :: t[k].overwriteName.value
  }

  /**
   * After a prefixing pass the rename map holds every renamed key with its
   * new name, and every earlier overwrite name of the other keys.
   */
  lemma RenameMapAfterPrefix(t: Table, prefix: string)
    ensures RenameMap(PrefixedTable(t, prefix)).Keys == RenameMap(t).Keys + RenamedKeys(t)
    ensures forall k :: k in RenamedKeys(t) ==>
      RenameMap(PrefixedTable(t, prefix))[k] == NewName(prefix, k, t[k].objType == MachO)
    ensures forall k :: k in RenameMap(t) && k !in RenamedKeys(t) ==>
      RenameMap(PrefixedTable(t, prefix))[k] == RenameMap(t)[k]
  {
  }
}
