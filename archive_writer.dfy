/**
 * `Bartleby::ArchiveWriter`: planning of the final archive. The rename map
 * handed to objcopy, the ordered and fail-fast member list of a plain
 * archive, and the per-format grouping of a fat Mach-O. The LLVM calls
 * (objcopy, the archive and universal writers, the CPU type lookups) are
 * the fields of a `Toolchain`.
 */
module ArchiveWriter {
  import opened Wrappers
  import opened Formats
  import opened Binaries
  import opened SymbolTable
  import opened Intake
  import B = Bartleby

  type Bytes = seq<bv8>

  /** `llvm::NewArchiveMember`: a buffer and its member name. */
  datatype Member = Member(buf: Bytes, name: string)

  /** The per-format archive of the fat path: its triple, alignment and members. */
  datatype FatArchive = FatArchive(triple: Triple, alignment: nat, members: seq<Member>)

  /** `llvm::object::Slice`: one architecture of the fat Mach-O being written. */
  datatype Slice = Slice(archive: Bytes, cpuType: nat, cpuSubType: nat, archName: string, alignment: nat)

  /** The LLVM functions the writer calls; each returns a value or an error message. */
  datatype Toolchain = Toolchain(
    objcopy: (ObjectHandle, map<string, string>) -> Result<Bytes, string>,
    writeArchive: seq<Member> -> Result<Bytes, string>,
    readArchive: Bytes -> Option<string>,
    cpuType: Triple -> Result<nat, string>,
    cpuSubType: Triple -> Result<nat, string>,
    writeUniversal: seq<Slice> -> Result<Bytes, string>)

  // ---------------------------------------------------------------------
  // Plain archives

  /** The members produced before the first objcopy failure, and that failure. */
  datatype CopyRun = CopyRun(members: seq<Member>, error: Option<string>)

  /** `executeObjCopyOnObjects`: one member per object, named by the object, stopping at the first error. */
  function ObjCopyObjects(tc: Toolchain, renames: map<string, string>, objs: seq<ObjectFile>): CopyRun
    decreases |objs|
  {
    if objs == [] then CopyRun([], None)
    else match tc.objcopy(objs[0].handle, renames)
      case Failure(e) => CopyRun([], Some(e))
      case Success(buf) =>
        var rest := ObjCopyObjects(tc, renames, objs[1..]);
        CopyRun([Member(buf, objs[0].name)] + rest.members, rest.error)
  }

  /**
   * The members follow the object list, each the rewritten object under the
   * object's own name; when objcopy fails on an object, its error is the
   * result and no member exists for it or any later object.
   */
  lemma {:induction false} ObjCopyObjectsInOrder(tc: Toolchain, renames: map<string, string>, objs: seq<ObjectFile>)
    ensures var run := ObjCopyObjects(tc, renames, objs);
      && |run.members| <= |objs|
      && (forall i :: 0 <= i < |run.members| ==>
            tc.objcopy(objs[i].handle, renames).Success?
            && run.members[i] == Member(tc.objcopy(objs[i].handle, renames).value, objs[i].name))
      && (run.error.None? <==> |run.members| == |objs|)
      && (run.error.Some? ==> tc.objcopy(objs[|run.members|].handle, renames) == Failure(run.error.value))
    decreases |objs|
  {
    if objs != [] && tc.objcopy(objs[0].handle, renames).Success? {
      var rest := objs[1..];
      ObjCopyObjectsInOrder(tc, renames, rest);
      var run := ObjCopyObjects(tc, renames, objs);
      forall i | 0 <= i < |run.members|
        ensures tc.objcopy(objs[i].handle, renames).Success?
        ensures run.members[i] == Member(tc.objcopy(objs[i].handle, renames).value, objs[i].name)
      {
        if i > 0 {
          assert objs[i] == rest[i - 1];
        }
      }
    }
  }

  /** One step of the objcopy run from position `i`. */
  lemma ObjCopyObjectsStep(tc: Toolchain, renames: map<string, string>, objs: seq<ObjectFile>, i: nat)
    requires i < |objs|
    ensures var here := ObjCopyObjects(tc, renames, objs[i..]);
      var next := ObjCopyObjects(tc, renames, objs[i + 1..]);
      match tc.objcopy(objs[i].handle, renames)
      case Failure(e) => here == CopyRun([], Some(e))
      case Success(buf) => here == CopyRun([Member(buf, objs[i].name)] + next.members, next.error)
  {
    assert objs[i..][0] == objs[i] && objs[i..][1..] == objs[i + 1..];
  }

  /** The non-fat build: the archive of the copied members, or the first objcopy error. */
  function PlainArchive(tc: Toolchain, renames: map<string, string>, objs: seq<ObjectFile>): Result<Bytes, string> {
    var run := ObjCopyObjects(tc, renames, objs);
    if run.error.Some? then Failure(run.error.value) else tc.writeArchive(run.members)
  }

  // ---------------------------------------------------------------------
  // Fat Mach-O: grouping by format

  /**
   * One object of the fat path appended to the archive of its format: the
   * archive takes this object's triple and alignment, and the member is
   * named by the triple text.
   */
  function AddToArchives(archives: map<ObjectFormat, FatArchive>, obj: ObjectFile, buf: Bytes): map<ObjectFormat, FatArchive> {
    var f := FromTriple(obj.handle.triple);
    var members := if f in archives then archives[f].members else [];
    archives[f := FatArchive(obj.handle.triple, obj.alignment, members + [Member(buf, obj.handle.triple.text)])]
  }

  /** The first loop of `buildMachOUniversalBinarySlices`, from the archives built so far. */
  function Grouped(tc: Toolchain, renames: map<string, string>, archives: map<ObjectFormat, FatArchive>,
                   objs: seq<ObjectFile>): Result<map<ObjectFormat, FatArchive>, string>
    decreases |objs|
  {
    if objs == [] then Success(archives)
    else match tc.objcopy(objs[0].handle, renames)
      case Failure(e) => Failure(e)
      case Success(buf) => Grouped(tc, renames, AddToArchives(archives, objs[0], buf), objs[1..])
  }

  /** The objects of format `f`, in order. */
  function OfFormat(objs: seq<ObjectFile>, f: ObjectFormat): seq<ObjectFile>
    decreases |objs|
  {
    if objs == [] then []
    else (if FromTriple(objs[0].handle.triple) == f then [objs[0]] else []) + OfFormat(objs[1..], f)
  }

  function BufOf(r: Result<Bytes, string>): Bytes {
    if r.Success? then r.value else []
  }

  /** The members the fat path makes of `objs`: the rewritten object under its triple text. */
  function CopiedMembers(tc: Toolchain, renames: map<string, string>, objs: seq<ObjectFile>): seq<Member> {
    seq(|objs|, i requires 0 <= i < |objs| =>
      Member(BufOf(tc.objcopy(objs[i].handle, renames)), objs[i].handle.triple.text))
  }

  /**
   * The grouping of the fat path: there is an archive for a format exactly
   * when an object has it; its members are that format's objects, in
   * order, each named by its triple text; its triple and alignment are
   * those of the last such object. Success means objcopy succeeded on
   * every object.
   */
  lemma {:induction false} GroupedArchives(tc: Toolchain, renames: map<string, string>,
                                           archives: map<ObjectFormat, FatArchive>, objs: seq<ObjectFile>, f: ObjectFormat)
    requires Grouped(tc, renames, archives, objs).Success?
    ensures forall i :: 0 <= i < |objs| ==> tc.objcopy(objs[i].handle, renames).Success?
    ensures var g := Grouped(tc, renames, archives, objs).value;
      var mine := OfFormat(objs, f);
      && (f in g <==> f in archives || mine != [])
      && (f in g ==> g[f].members == (if f in archives then archives[f].members else []) + CopiedMembers(tc, renames, mine))
      && (mine != [] ==> g[f].triple == mine[|mine| - 1].handle.triple && g[f].alignment == mine[|mine| - 1].alignment)
      && (mine == [] && f in archives ==> g[f] == archives[f])
    decreases |objs|
  {
    if objs != [] {
      var o := objs[0];
      var rest := objs[1..];
      var buf := tc.objcopy(o.handle, renames).value;
      var next := AddToArchives(archives, o, buf);
      GroupedArchives(tc, renames, next, rest, f);
      forall i | 0 <= i < |objs| ensures tc.objcopy(objs[i].handle, renames).Success? {
        if i > 0 {
          assert objs[i] == rest[i - 1];
        }
      }
      var mineRest := OfFormat(rest, f);
      if FromTriple(o.handle.triple) == f {
        var mine := OfFormat(objs, f);
        assert mine == [o] + mineRest;
        assert CopiedMembers(tc, renames, mine)
               == [Member(buf, o.handle.triple.text)] + CopiedMembers(tc, renames, mineRest);
      } else {
        assert OfFormat(objs, f) == mineRest;
      }
    }
  }

  /** Every archive of the fat path has at least one member, and there is one per format present. */
  lemma GroupedFormats(tc: Toolchain, renames: map<string, string>, objs: seq<ObjectFile>)
    requires Grouped(tc, renames, map[], objs).Success?
    ensures var g := Grouped(tc, renames, map[], objs).value;
      forall f :: f in g <==> OfFormat(objs, f) != []
    ensures var g := Grouped(tc, renames, map[], objs).value;
      forall f :: f in g ==> |g[f].members| == |OfFormat(objs, f)| > 0
  {
    var g := Grouped(tc, renames, map[], objs).value;
    forall f ensures (f in g <==> OfFormat(objs, f) != []) && (f in g ==> |g[f].members| == |OfFormat(objs, f)| > 0) {
      GroupedArchives(tc, renames, map[], objs, f);
    }
  }

  // ---------------------------------------------------------------------
  // Fat Mach-O: slices

  /**
   * The second loop's body for one archive: write it, read it back, look
   * up the CPU type and subtype; the slice carries the archive's triple
   * text and alignment.
   */
  function SliceFor(tc: Toolchain, ar: FatArchive): (r: Result<Slice, string>)
    ensures r.Success? ==>
      && tc.writeArchive(ar.members) == Success(r.value.archive)
      && r.value.archName == ar.triple.text && r.value.alignment == ar.alignment
      && tc.cpuType(ar.triple) == Success(r.value.cpuType)
      && tc.cpuSubType(ar.triple) == Success(r.value.cpuSubType)
  {
    match tc.writeArchive(ar.members)
    case Failure(e) => Failure(e)
    case Success(buf) =>
      if tc.readArchive(buf).Some? then Failure(tc.readArchive(buf).value)
      else match tc.cpuType(ar.triple)
        case Failure(e) => Failure(e)
        case Success(cpu) =>
          match tc.cpuSubType(ar.triple)
          case Failure(e) => Failure(e)
          case Success(sub) => Success(Slice(buf, cpu, sub, ar.triple.text, ar.alignment))
  }

  predicate InArchives(order: seq<ObjectFormat>, archives: map<ObjectFormat, FatArchive>) {
    forall i :: 0 <= i < |order| ==> order[i] in archives
  }

  predicate Distinct(order: seq<ObjectFormat>) {
    forall i, j :: 0 <= i < j < |order| ==> order[i] != order[j]
  }

  /** The slices of the archives taken in `order`, stopping at the first failure. */
  function FatSlices(tc: Toolchain, archives: map<ObjectFormat, FatArchive>, order: seq<ObjectFormat>): Result<seq<Slice>, string>
    requires InArchives(order, archives)
    decreases |order|
  {
    if order == [] then Success([])
    else match SliceFor(tc, archives[order[0]])
      case Failure(e) => Failure(e)
      case Success(s) =>
        match FatSlices(tc, archives, order[1..])
        case Failure(e) => Failure(e)
        case Success(rest) => Success([s] + rest)
  }

  /** One more archive at the end of the order. */
  lemma {:induction false} FatSlicesSnoc(tc: Toolchain, archives: map<ObjectFormat, FatArchive>,
                                         order: seq<ObjectFormat>, f: ObjectFormat)
    requires InArchives(order, archives) && f in archives
    requires FatSlices(tc, archives, order).Success?
    ensures InArchives(order + [f], archives)
    ensures FatSlices(tc, archives, order + [f]) ==
      match SliceFor(tc, archives[f])
      case Failure(e) => Failure(e)
      case Success(s) => Success(FatSlices(tc, archives, order).value + [s])
    decreases |order|
  {
    if order == [] {
      assert order + [f] == [f] && [f][1..] == [] && [f][0] == f;
      assert FatSlices(tc, archives, []) == Success([]);
      match SliceFor(tc, archives[f])
      case Failure(e) =>
      case Success(s) =>
        assert [s] + [] == [s] && FatSlices(tc, archives, order).value + [s] == [s];
        assert FatSlices(tc, archives, [f]) == Success([s]);
    } else {
      assert (order + [f])[0] == order[0] && (order + [f])[1..] == order[1..] + [f];
      FatSlicesSnoc(tc, archives, order[1..], f);
      var s0 := SliceFor(tc, archives[order[0]]).value;
      var rest := FatSlices(tc, archives, order[1..]).value;
      assert FatSlices(tc, archives, order).value == [s0] + rest;
      match SliceFor(tc, archives[f])
      case Failure(e) =>
      case Success(s) =>
        assert [s0] + (rest + [s]) == ([s0] + rest) + [s];
    }
  }

  /** On success there is one slice per archive of the order, built from that archive. */
  lemma {:induction false} FatSlicesSpec(tc: Toolchain, archives: map<ObjectFormat, FatArchive>, order: seq<ObjectFormat>)
    requires InArchives(order, archives)
    requires FatSlices(tc, archives, order).Success?
    ensures var sl := FatSlices(tc, archives, order).value;
      && |sl| == |order|
      && forall i :: 0 <= i < |order| ==>
           SliceFor(tc, archives[order[i]]) == Success(sl[i])
           && sl[i].archName == archives[order[i]].triple.text
           && sl[i].alignment == archives[order[i]].alignment
    decreases |order|
  {
    if order != [] {
      FatSlicesSpec(tc, archives, order[1..]);
      var sl := FatSlices(tc, archives, order).value;
      forall i | 1 <= i < |order|
        ensures SliceFor(tc, archives[order[i]]) == Success(sl[i])
      {
        assert order[i] == order[1..][i - 1];
      }
    }
  }

  /** `writeUniversalBinaryToStream` over the slices, unless building them failed. */
  function Universal(tc: Toolchain, slices: Result<seq<Slice>, string>): Result<Bytes, string> {
    match slices
    case Failure(e) => Failure(e)
    case Success(s) => tc.writeUniversal(s)
  }

  /**
   * The fat build, for some order of the archives (the order of an unordered
   * map): the first objcopy error, or the universal binary of the slices.
   */
  ghost predicate FatResult(tc: Toolchain, renames: map<string, string>, objs: seq<ObjectFile>, r: Result<Bytes, string>) {
    match Grouped(tc, renames, map[], objs)
    case Failure(e) => r == Failure(e)
    case Success(archives) =>
      exists order :: SliceOrder(tc, archives, order) && r == Universal(tc, FatSlices(tc, archives, order))
  }

  /** An order of visiting the archives: no archive twice, and all of them unless a slice failed. */
  predicate SliceOrder(tc: Toolchain, archives: map<ObjectFormat, FatArchive>, order: seq<ObjectFormat>) {
    && InArchives(order, archives)
    && Distinct(order)
    && (FatSlices(tc, archives, order).Success? ==> forall f :: f in archives ==> f in order)
  }

  /** `build`: the fat path exactly when the handle holds a format set. */
  ghost predicate BuildsArchive(tc: Toolchain, renames: map<string, string>, objs: seq<ObjectFile>,
                                format: FormatState, r: Result<Bytes, string>) {
    if format.FormatSet? then FatResult(tc, renames, objs, r)
    else r == PlainArchive(tc, renames, objs)
  }

  // ---------------------------------------------------------------------
  // As written: the member names of the fat path

  /**
   * What a member's `MemberName` views in the fat path as written: the
   * archive's `Name` string is replaced for every object of its format
   * (allocation `i` for the `i`-th object), releasing the previous one,
   * and each member views the allocation that was current when it was
   * appended. `live` is the allocation the archive still owns.
   */
  datatype NameViews = NameViews(live: nat, views: seq<nat>)

  function MemberNameViewsAsWritten(formats: seq<ObjectFormat>): map<ObjectFormat, NameViews>
    decreases |formats|
  {
    if formats == [] then map[]
    else
      var i := |formats| - 1;
      var m := MemberNameViewsAsWritten(formats[..i]);
      var f := formats[i];
      var earlier := if f in m then m[f].views else [];
      m[f := NameViews(i, earlier + [i])]
  }

  /**
   * The archive's own string is the last member's, and it is the one the
   * archive still owns; every earlier member views an older allocation.
   */
  predicate OnlyLastLive(a: NameViews, count: nat) {
    && |a.views| > 0
    && a.views[|a.views| - 1] == a.live
    && a.live < count
    && forall j :: 0 <= j < |a.views| - 1 ==> a.views[j] < a.live
  }

  /**
   * Only the last member of each archive views a live string: every
   * earlier member of the same format names a released allocation.
   */
  lemma {:induction false} MemberNamesDangle(formats: seq<ObjectFormat>)
    ensures forall f :: f in MemberNameViewsAsWritten(formats) ==>
      OnlyLastLive(MemberNameViewsAsWritten(formats)[f], |formats|)
    decreases |formats|
  {
    if formats != [] {
      var i := |formats| - 1;
      var prev := MemberNameViewsAsWritten(formats[..i]);
      MemberNamesDangle(formats[..i]);
      assert |formats[..i]| == i;
      var g := formats[i];
      var m := MemberNameViewsAsWritten(formats);
      var earlier := if g in prev then prev[g].views else [];
      assert m == prev[g := NameViews(i, earlier + [i])];
      forall h | h in m ensures OnlyLastLive(m[h], |formats|) {
        if h == g {
          var vs := earlier + [i];
          forall j | 0 <= j < |vs| - 1 ensures vs[j] < i {
            assert g in prev && OnlyLastLive(prev[g], i);
            assert vs[j] == prev[g].views[j];
            if j == |prev[g].views| - 1 {
              assert prev[g].views[j] == prev[g].live;
            }
          }
        } else {
          assert m[h] == prev[h] && OnlyLastLive(prev[h], i);
        }
      }
    }
  }

  /** The formats of the fat path's objects, in the order they are appended. */
  function ObjectFormats(objs: seq<ObjectFile>): (fs: seq<ObjectFormat>)
    ensures |fs| == |objs|
  {
    seq(|objs|, i requires 0 <= i < |objs| => FromTriple(objs[i].handle.triple))
  }

  /** There are name views for a format exactly when it occurs, one view per occurrence. */
  lemma {:induction false} MemberNameViewsCount(formats: seq<ObjectFormat>)
    ensures forall f :: f in MemberNameViewsAsWritten(formats) <==> multiset(formats)[f] > 0
    ensures forall f :: f in MemberNameViewsAsWritten(formats) ==>
      |MemberNameViewsAsWritten(formats)[f].views| == multiset(formats)[f]
    decreases |formats|
  {
    if formats != [] {
      var i := |formats| - 1;
      MemberNameViewsCount(formats[..i]);
      assert formats == formats[..i] + [formats[i]];
      assert multiset(formats) == multiset(formats[..i]) + multiset{formats[i]};
    }
  }

  /** The objects of a format are as many as the occurrences of that format. */
  lemma {:induction false} OfFormatCount(objs: seq<ObjectFile>, f: ObjectFormat)
    ensures |OfFormat(objs, f)| == multiset(ObjectFormats(objs))[f]
    decreases |objs|
  {
    if objs != [] {
      OfFormatCount(objs[1..], f);
      assert ObjectFormats(objs) == [FromTriple(objs[0].handle.triple)] + ObjectFormats(objs[1..]);
    }
  }

  /**
   * The name views as written are about the archives the fat path builds:
   * one entry per archive, and one view per member of it.
   */
  lemma MemberNameViewsOfGrouped(tc: Toolchain, renames: map<string, string>, objs: seq<ObjectFile>)
    requires Grouped(tc, renames, map[], objs).Success?
    ensures var g := Grouped(tc, renames, map[], objs).value;
      var m := MemberNameViewsAsWritten(ObjectFormats(objs));
      && m.Keys == g.Keys
      && forall f :: f in g ==> |m[f].views| == |g[f].members|
  {
    var g := Grouped(tc, renames, map[], objs).value;
    var m := MemberNameViewsAsWritten(ObjectFormats(objs));
    GroupedFormats(tc, renames, objs);
    MemberNameViewsCount(ObjectFormats(objs));
    forall f ensures (f in m <==> f in g) && (f in g ==> |m[f].views| == |g[f].members|) {
      OfFormatCount(objs, f);
    }
  }

  /** Two objects of one format: the first member's name is already released. */
  lemma TwoObjectsOneFormat(f: ObjectFormat)
    ensures f in MemberNameViewsAsWritten([f, f])
    ensures var a := MemberNameViewsAsWritten([f, f])[f];
      a.views == [0, 1] && a.live == 1 && a.views[0] != a.live
  {
    assert [f][..0] == [];
    assert MemberNameViewsAsWritten([]) == map[];
    var one := MemberNameViewsAsWritten([f]);
    assert f in one && one[f].live == 0 && one[f].views == [] + [0];
    assert [f, f][..1] == [f];
    var two := MemberNameViewsAsWritten([f, f]);
    assert f in two && two[f].live == 1 && two[f].views == [0] + [1];
  }

  // ---------------------------------------------------------------------
  // The writer

  class ArchiveWriter {
    const handle: B.Bartleby
    const symbolsToRename: map<string, string>
    var arMembers: seq<Member>

    /** The constructor: the rename map from the handle's overwrite names. */
    constructor (b: B.Bartleby)
      ensures handle == b && arMembers == []
      ensures symbolsToRename == RenameMap(b.Table())
    {
      var renames: map<string, string> := map[];
      var remaining := b.symbols.Keys;
      ghost var t := b.Table();
      while remaining != {}
        invariant remaining <= b.symbols.Keys
        invariant renames == RenameMapOn(t, b.symbols.Keys - remaining)
        decreases remaining
      {
        var name :| name in remaining;
        var oname := b.symbols[name].GetOverwriteName();
        RenameMapOnStep(t, b.symbols.Keys - remaining, name);
        if oname.Some? {
          renames := renames[name := oname.value];
        }
        B.VisitOne(b.symbols.Keys, remaining, name);
        remaining := remaining - {name};
      }
      B.NoneRemaining(b.symbols.Keys);
      handle := b;
      symbolsToRename := renames;
      arMembers := [];
    }

    /** `executeObjCopyOnObjects`. */
    method ExecuteObjCopyOnObjects(tc: Toolchain) returns (err: Option<string>)
      modifies this`arMembers
      ensures arMembers == old(arMembers) + ObjCopyObjects(tc, symbolsToRename, handle.objects).members
      ensures err == ObjCopyObjects(tc, symbolsToRename, handle.objects).error
    {
      var objs := handle.objects;
      ghost var produced: seq<Member> := [];
      var i := 0;
      ghost var whole := ObjCopyObjects(tc, symbolsToRename, objs);
      while i < |objs|
        invariant 0 <= i <= |objs|
        invariant arMembers == old(arMembers) + produced
        invariant whole.members == produced + ObjCopyObjects(tc, symbolsToRename, objs[i..]).members
        invariant whole.error == ObjCopyObjects(tc, symbolsToRename, objs[i..]).error
      {
        ObjCopyObjectsStep(tc, symbolsToRename, objs, i);
        var copy := tc.objcopy(objs[i].handle, symbolsToRename);
        if copy.Failure? {
          return Some(copy.error);
        }
        var member := Member(copy.value, objs[i].name);
        arMembers := arMembers + [member];
        produced := produced + [member];
        i := i + 1;
      }
      assert objs[i..] == [];
      return None;
    }

    /** The first loop of `buildMachOUniversalBinarySlices`: objects grouped into per-format archives. */
    method GroupObjects(tc: Toolchain) returns (r: Result<map<ObjectFormat, FatArchive>, string>)
      ensures r == Grouped(tc, symbolsToRename, map[], handle.objects)
    {
      var objs := handle.objects;
      var archives: map<ObjectFormat, FatArchive> := map[];
      var i := 0;
      while i < |objs|
        invariant 0 <= i <= |objs|
        invariant Grouped(tc, symbolsToRename, archives, objs[i..]) == Grouped(tc, symbolsToRename, map[], objs)
      {
        assert objs[i..][0] == objs[i] && objs[i..][1..] == objs[i + 1..];
        var obj := objs[i];
        var copy := tc.objcopy(obj.handle, symbolsToRename);
        if copy.Failure? {
          return Failure(copy.error);
        }
        var f := FromTriple(obj.handle.triple);
        var members := if f in archives then archives[f].members else [];
        archives := archives[f := FatArchive(obj.handle.triple, obj.alignment,
                                             members + [Member(copy.value, obj.handle.triple.text)])];
        i := i + 1;
      }
      return Success(archives);
    }

    /** The second loop of `buildMachOUniversalBinarySlices`: one slice per archive, in map order. */
    method MakeSlices(tc: Toolchain, archives: map<ObjectFormat, FatArchive>)
      returns (r: Result<seq<Slice>, string>, ghost order: seq<ObjectFormat>)
      ensures SliceOrder(tc, archives, order) && r == FatSlices(tc, archives, order)
    {
      var remaining := archives.Keys;
      var slices: seq<Slice> := [];
      order := [];
      while remaining != {}
        invariant remaining <= archives.Keys
        invariant InArchives(order, archives) && Distinct(order)
        invariant forall i :: 0 <= i < |order| ==> order[i] !in remaining
        invariant forall f :: f in archives ==> f in remaining || f in order
        invariant FatSlices(tc, archives, order) == Success(slices)
        decreases remaining
      {
        var f :| f in remaining;
        var s := SliceFor(tc, archives[f]);
        FatSlicesSnoc(tc, archives, order, f);
        order := order + [f];
        if s.Failure? {
          return Failure(s.error), order;
        }
        slices := slices + [s.value];
        remaining := remaining - {f};
      }
      return Success(slices), order;
    }

    /** `buildMachOUniversalBinary`. */
    method BuildMachOUniversalBinary(tc: Toolchain) returns (r: Result<Bytes, string>)
      ensures FatResult(tc, symbolsToRename, handle.objects, r)
    {
      var archives := GroupObjects(tc);
      if archives.Failure? {
        return Failure(archives.error);
      }
      var slices, order := MakeSlices(tc, archives.value);
      if slices.Failure? {
        r := Failure(slices.error);
      } else {
        r := tc.writeUniversal(slices.value);
      }
      assert SliceOrder(tc, archives.value, order) && r == Universal(tc, FatSlices(tc, archives.value, order));
    }

    /**
     * `build`: the fat path when the handle holds a format set; otherwise
     * one member per object and an archive of them, which reads the first
     * member and so needs at least one object.
     */
    method Build(tc: Toolchain) returns (r: Result<Bytes, string>)
      requires arMembers == []
      requires !handle.objFormat.FormatSet? ==> |handle.objects| > 0
      modifies this`arMembers
      ensures BuildsArchive(tc, symbolsToRename, handle.objects, handle.objFormat, r)
    {
      if handle.objFormat.FormatSet? {
        r := BuildMachOUniversalBinary(tc);
        return;
      }
      var err := ExecuteObjCopyOnObjects(tc);
      if err.Some? {
        return Failure(err.value);
      }
      assert arMembers == ObjCopyObjects(tc, symbolsToRename, handle.objects).members;
      r := tc.writeArchive(arMembers);
    }
  }

  /** `Bartleby::buildFinalArchive`: consumes the handle and returns the archive's bytes. */
  method BuildFinalArchive(b: B.Bartleby, tc: Toolchain) returns (r: Result<Bytes, string>)
    requires !b.objFormat.FormatSet? ==> |b.objects| > 0
    ensures b.objFormat.FormatSet? ==> FatResult(tc, RenameMap(b.Table()), b.objects, r)
    ensures !b.objFormat.FormatSet? ==> r == PlainArchive(tc, RenameMap(b.Table()), b.objects)
  {
    var builder := new ArchiveWriter(b);
    r := builder.Build(tc);
  }

  /** The rename map part way through the constructor's loop, once the keys in `visited` are done. */
  function RenameMapOn(t: Table, visited: set<string>): map<string, string> {
    map k | k in t && k in visited && t[k].overwriteName.Some? :: t[k].overwriteName.value
  }

  lemma RenameMapOnStep(t: Table, visited: set<string>, key: string)
    requires key in t && key !in visited
    ensures RenameMapOn(t, visited + {key}) ==
      if t[key].overwriteName.Some? then RenameMapOn(t, visited)[key := t[key].overwriteName.value]
      else RenameMapOn(t, visited)
    ensures RenameMapOn(t, t.Keys) == RenameMap(t) && RenameMapOn(t, {}) == map[]
  {
  }
}
