/**
 * The library's unit scenarios, stated on the model: the symbol flags and
 * renames of two ELF objects merged and prefixed in turn, and the error for
 * an object whose format differs from the first one.
 */
module Scenarios {
  import opened Wrappers
  import opened Formats
  import opened Errors
  import opened Symbols
  import opened Binaries
  import opened SymbolTable
  import opened Intake

  const ElfTriple := Triple(1, 0, ELF, "i386-unknown-linux")

  function DataSymbol(name: string, flags: bv32): RawSymbol {
    RawSymbol(Some(name), Some(flags), Some(Data))
  }

  /** The first object: a file symbol, a local and a global definition, an undefined global and a weak symbol. */
  const FirstObject := ObjectHandle(ElfTriple, [
    RawSymbol(Some("symbols_visibility.c"), Some(0), Some(File)),
    DataSymbol("defined_local_symbol", 0),
    DataSymbol("defined_global_symbol", SF_Global),
    DataSymbol("undefined_symbol", SF_Undefined | SF_Global),
    DataSymbol("weak_symbol", SF_Weak | SF_Global)])

  /** The second object defines the first object's undefined global. */
  const SecondObject := ObjectHandle(ElfTriple, [DataSymbol("undefined_symbol", SF_Global)])

  predicate Flags(t: Table, k: string, defined: bool, global: bool) {
    k in t && t[k].defined == defined && t[k].global == global
  }

  /** Merging one more symbol of the same list. */
  lemma MergeStep(t: Table, infos: seq<SymbolInfo>, n: nat)
    requires AllWellFormed(infos) && n < |infos|
    ensures MergeInfos(t, infos[..n + 1]) == MergeOne(MergeInfos(t, infos[..n]), infos[n])
  {
    assert infos[..n + 1][..n] == infos[..n];
  }

  function Info(name: string, flags: bv32, symType: SymbolType): SymbolInfo {
    SymbolInfo(Some(symType), Some(flags), Some(name), ELF, false)
  }

  lemma FirstInfos()
    ensures SymbolInfos(FirstObject) == [
      Info("symbols_visibility.c", 0, File),
      Info("defined_local_symbol", 0, Data),
      Info("defined_global_symbol", SF_Global, Data),
      Info("undefined_symbol", SF_Undefined | SF_Global, Data),
      Info("weak_symbol", SF_Weak | SF_Global, Data)]
  {
  }

  /** The symbol map after the first object. */
  const FirstTable: Table := map[
    "defined_local_symbol" := SymbolState(None, ELF, false, true),
    "defined_global_symbol" := SymbolState(None, ELF, true, true),
    "undefined_symbol" := SymbolState(None, ELF, true, false),
    "weak_symbol" := SymbolState(None, ELF, false, false)]

  /**
   * The first object alone: the file symbol is skipped; the local
   * definition is defined and local, the global one defined and global,
   * the undefined global undefined and global, and the weak symbol neither.
   */
  lemma FirstObjectTable()
    ensures MergeObject(map[], FirstObject) == FirstTable
    ensures Flags(FirstTable, "defined_local_symbol", true, false)
    ensures Flags(FirstTable, "defined_global_symbol", true, true)
    ensures Flags(FirstTable, "undefined_symbol", false, true)
    ensures Flags(FirstTable, "weak_symbol", false, false)
  {
    FirstThree();
    var i := SymbolInfos(FirstObject);
    SymbolInfosWellFormed(FirstObject);
    FirstInfos();
    assert i[..5] == i;
    var t3 := MergeInfos(map[], i[..3]);
    MergeStep(map[], i, 3);
    var t4 := MergeInfos(map[], i[..4]);
    assert t4 == t3["undefined_symbol" := SymbolState(None, ELF, true, false)];
    MergeStep(map[], i, 4);
    assert MergeInfos(map[], i) == t4["weak_symbol" := SymbolState(None, ELF, false, false)];
  }

  /** The first three symbols: the file symbol skipped, then the two definitions. */
  lemma FirstThree()
    ensures AllWellFormed(SymbolInfos(FirstObject)) && |SymbolInfos(FirstObject)| == 5
    ensures MergeInfos(map[], SymbolInfos(FirstObject)[..3]) == map[
      "defined_local_symbol" := SymbolState(None, ELF, false, true),
      "defined_global_symbol" := SymbolState(None, ELF, true, true)]
  {
    FirstInfos();
    var i := SymbolInfos(FirstObject);
    SymbolInfosWellFormed(FirstObject);
    assert i[..0] == [];
    MergeStep(map[], i, 0);
    assert MergeInfos(map[], i[..1]) == map[];
    MergeStep(map[], i, 1);
    var t2 := MergeInfos(map[], i[..2]);
    assert t2 == map["defined_local_symbol" := SymbolState(None, ELF, false, true)];
    MergeStep(map[], i, 2);
  }

  /** The first prefixing pass renames only the defined global. */
  lemma FirstPrefix()
    ensures RenamedKeys(FirstTable) == {"defined_global_symbol"}
    ensures PrefixedTable(FirstTable, "prefix_") ==
      FirstTable["defined_global_symbol" := SymbolState(Some("prefix_defined_global_symbol"), ELF, true, true)]
  {
    var p := PrefixedTable(FirstTable, "prefix_");
    assert NewName("prefix_", "defined_global_symbol", false) == "prefix_defined_global_symbol";
    assert p.Keys == FirstTable.Keys;
  }

  /** The symbol map after the first pass and the second object. */
  const SecondTable: Table := map[
    "defined_local_symbol" := SymbolState(None, ELF, false, true),
    "defined_global_symbol" := SymbolState(Some("prefix_defined_global_symbol"), ELF, true, true),
    "undefined_symbol" := SymbolState(None, ELF, true, true),
    "weak_symbol" := SymbolState(None, ELF, false, false)]

  /** The second object defines the first one's undefined global. */
  lemma SecondObjectTable()
    ensures MergeObject(PrefixedTable(FirstTable, "prefix_"), SecondObject) == SecondTable
  {
    FirstPrefix();
    var p1 := PrefixedTable(FirstTable, "prefix_");
    var i := SymbolInfos(SecondObject);
    SymbolInfosWellFormed(SecondObject);
    assert i == [Info("undefined_symbol", SF_Global, Data)];
    assert i[..0] == [] && i[..1] == i;
    MergeStep(p1, i, 0);
  }

  /** The symbol map after the second pass. */
  const ThirdTable: Table := map[
    "defined_local_symbol" := SymbolState(None, ELF, false, true),
    "defined_global_symbol" := SymbolState(Some("prefix_defined_global_symbol"), ELF, true, true),
    "undefined_symbol" := SymbolState(Some("prefix_undefined_symbol"), ELF, true, true),
    "weak_symbol" := SymbolState(None, ELF, false, false)]

  /**
   * The second pass renames the defined globals, now two; the already
   * renamed one gets the same name again, not a doubly prefixed one.
   */
  lemma SecondPrefix()
    ensures RenamedKeys(SecondTable) == {"defined_global_symbol", "undefined_symbol"}
    ensures PrefixedTable(SecondTable, "prefix_") == ThirdTable
  {
    SecondRenamedKeys();
    SecondPrefixEntries();
    PrefixedTableIs(SecondTable, "prefix_", ThirdTable);
  }

  lemma SecondRenamedKeys()
    ensures RenamedKeys(SecondTable) == {"defined_global_symbol", "undefined_symbol"}
  {
    assert SecondTable.Keys == {"defined_local_symbol", "defined_global_symbol", "undefined_symbol", "weak_symbol"};
  }

  lemma SecondPrefixEntries()
    ensures ThirdTable.Keys == SecondTable.Keys
    ensures forall k :: k in SecondTable ==> ThirdTable[k] == PrefixedEntry(SecondTable[k], "prefix_", k)
  {
    var t := SecondTable;
    forall k | k in t ensures k in ThirdTable && ThirdTable[k] == PrefixedEntry(t[k], "prefix_", k) {
      if k == "undefined_symbol" {
        assert NewName("prefix_", k, false) == "prefix_undefined_symbol";
      } else if k == "defined_global_symbol" {
        assert NewName("prefix_", k, false) == "prefix_defined_global_symbol";
      }
    }
  }

  /** A table equals the prefixing pass's result when it agrees with it key by key. */
  lemma PrefixedTableIs(t: Table, prefix: string, r: Table)
    requires r.Keys == t.Keys
    requires forall k :: k in t ==> r[k] == PrefixedEntry(t[k], prefix, k)
    ensures PrefixedTable(t, prefix) == r
  {
  }

  /** Objcopy receives the two prefixed names; the local and the weak symbol keep theirs. */
  lemma ThirdRenameMap()
    ensures RenameMap(ThirdTable) == map[
      "defined_global_symbol" := "prefix_defined_global_symbol",
      "undefined_symbol" := "prefix_undefined_symbol"]
  {
    var m := RenameMap(ThirdTable);
    assert "weak_symbol" !in m && "defined_local_symbol" !in m;
    assert m.Keys == {"defined_global_symbol", "undefined_symbol"};
  }

  /**
   * The unit scenario end to end: the second object defines the first
   * one's undefined global, so the second pass renames it too; the local
   * and the weak symbol are never renamed, and objcopy receives exactly
   * the two prefixed names.
   */
  lemma Object386()
    ensures var p1 := PrefixedTable(MergeObject(map[], FirstObject), "prefix_");
      var t2 := MergeObject(p1, SecondObject);
      && RenamedKeys(MergeObject(map[], FirstObject)) == {"defined_global_symbol"}
      && t2.Keys == FirstTable.Keys
      && Flags(t2, "defined_local_symbol", true, false)
      && Flags(t2, "defined_global_symbol", true, true)
      && Flags(t2, "undefined_symbol", true, true)
      && Flags(t2, "weak_symbol", false, false)
      && RenamedKeys(t2) == {"defined_global_symbol", "undefined_symbol"}
      && RenameMap(PrefixedTable(t2, "prefix_")) == map[
           "defined_global_symbol" := "prefix_defined_global_symbol",
           "undefined_symbol" := "prefix_undefined_symbol"]
  {
    FirstObjectTable();
    FirstPrefix();
    SecondObjectTable();
    SecondPrefix();
    ThirdRenameMap();
  }

  /** An ELF object after a Mach-O one is refused with a format mismatch, and nothing changes. */
  lemma ObjectTypeMismatch()
    ensures var machO := ObjectHandle(Triple(12, 0, MachO, "arm64-apple-macosx"), []);
      var elf := ObjectHandle(Triple(38, 0, ELF, "x86_64-unknown-linux"), []);
      var first := AddBinary(EmptyHandle, Binary(1, MachO, ObjectBinary(machO)));
      var second := AddBinary(first.state, Binary(2, ELF, ObjectBinary(elf)));
      && first.outcome.Ok?
      && second.outcome == Err(Bartleby(Error(ObjectFormatTypeMismatch(FromTriple(machO.triple), FromTriple(elf.triple)))))
      && second.state == first.state
  {
  }
}
