/**
 * What adding a binary does to a handle, as functions on an abstract handle
 * state: the object-format state machine, the symbol map, the object list
 * with its generated member names, and the binaries the handle retains.
 * `Bartleby.Bartleby.AddBinary` is proved to follow `AddBinary` here.
 */
module Intake {
  import opened Wrappers
  import opened Formats
  import opened Errors
  import opened Symbols
  import opened Binaries
  import opened SymbolTable
  import Decimal

  /** `Bartleby::ObjectFile`: an object, its archive member name and its fat Mach-O alignment. */
  datatype ObjectFile = ObjectFile(handle: ObjectHandle, name: string, alignment: nat)

  /** `ObjectFormatVariant`: no format yet, one format, or the format set of fat Mach-O inputs. */
  datatype FormatState = NoFormat | Single(format: ObjectFormat) | FormatSet(formats: set<ObjectFormat>)

  /** The fields of a `Bartleby` handle, as values. */
  datatype HandleState = HandleState(
    table: Table,
    objects: seq<ObjectFile>,
    owned: seq<Binary>,
    format: FormatState)

  /** A default-constructed handle. */
  const EmptyHandle := HandleState(map[], [], [], NoFormat)

  /**
   * How a call ends: success, an error returned to the caller, or process
   * termination (an exception escaping a `noexcept` function).
   */
  datatype Outcome = Ok | Err(error: LlvmError) | Terminated

  /** The handle state a call leaves behind, and how it ended. */
  datatype Step = Step(state: HandleState, outcome: Outcome)

  /**
   * `objectFormatMatches`: true when no format is recorded or the one recorded
   * format equals `f`; false when the handle holds a fat Mach-O format set.
   */
  function ObjectFormatMatches(fs: FormatState, f: ObjectFormat): (r: bool)
    ensures r <==> fs.NoFormat? || (fs.Single? && fs.format == f)
    ensures fs.FormatSet? ==> !r
  {
    if fs.Single? then Equal(fs.format, f) else fs.NoFormat?
  }

  /**
   * `isMachOUniversalBinary`: the handle holds a format set, which is
   * exactly when no single object format can match it any more.
   */
  function IsMachOUniversalBinary(fs: FormatState): (r: bool)
    ensures r <==> forall f :: !ObjectFormatMatches(fs, f)
  {
    match fs
    case NoFormat => assert ObjectFormatMatches(fs, ObjectFormat(0, 0, UnknownObjectFormat)); false
    case Single(g) => assert ObjectFormatMatches(fs, g); false
    case FormatSet(_) => true
  }

  /** `utostr(Count) + ".o"`. */
  function GeneratedName(count: nat): string {
    Decimal.NatToString(count) + ".o"
  }

  /** Objects added at different positions get different generated member names. */
  lemma GeneratedNameInjective(m: nat, n: nat)
    requires m != n
    ensures GeneratedName(m) != GeneratedName(n)
  {
    Decimal.NatToStringInjective(m, n);
    var a, b := GeneratedName(m), GeneratedName(n);
    if a == b {
      assert a[..|a| - 2] == Decimal.NatToString(m);
      assert b[..|b| - 2] == Decimal.NatToString(n);
    }
  }

  /** A child's own name when LLVM can read it, else the generated one. */
  function ChildName(ch: ArchiveChild, count: nat): string {
    if ch.name.Some? then ch.name.value else GeneratedName(count)
  }

  /** `ProcessObjectFile` followed by `Objects.emplace_back`. */
  function WithObject(st: HandleState, obj: ObjectHandle, name: string, alignment: nat): HandleState {
    st.(table := MergeObject(st.table, obj),
        objects := st.objects + [ObjectFile(obj, name, alignment)])
  }

  /** The text of an `UnsupportedBinaryReason`, built from the binary being added. */
  function UnsupportedText(b: Binary): string {
    "unsupported binary '" + Decimal.NatToString(b.typeId) + "' (triple: "
    + Decimal.NatToString(Code(b.tripleFormat) as nat) + ")"
  }

  function Reject(st: HandleState, r: Reason): Step {
    Step(st, Err(Bartleby(Error(r))))
  }

  /**
   * A plain object whose format does not match: the mismatch error against
   * the one recorded format, or, when the handle holds a format set,
   * termination (`std::get<ObjectFormat>` on the set throws inside a
   * `noexcept` function). The state is unchanged either way.
   */
  function MismatchStep(st: HandleState, f: ObjectFormat): Step
    requires !ObjectFormatMatches(st.format, f)
  {
    if st.format.Single? then Reject(st, ObjectFormatTypeMismatch(st.format.format, f))
    else Step(st, Terminated)
  }

  /** `addBinary` on an object file, before the binary is retained. */
  function AddObject(st: HandleState, obj: ObjectHandle): (r: Step)
    ensures !ObjectFormatMatches(st.format, FromTriple(obj.triple)) ==>
      r.state == st && !r.outcome.Ok?
    ensures st.format.Single? && st.format.format != FromTriple(obj.triple) ==>
      r.outcome == Err(Bartleby(Error(ObjectFormatTypeMismatch(st.format.format, FromTriple(obj.triple)))))
    ensures ObjectFormatMatches(st.format, FromTriple(obj.triple)) ==>
      r.outcome.Ok? && r.state.format == Single(FromTriple(obj.triple))
      && r.state.objects == st.objects + [ObjectFile(obj, GeneratedName(|st.objects| + 1), 0)]
  {
    var f := FromTriple(obj.triple);
    if !ObjectFormatMatches(st.format, f) then MismatchStep(st, f)
    else
      var st1 := st.(format := Single(f));
      Step(WithObject(st1, obj, GeneratedName(|st.objects| + 1), 0), Ok)
  }

  /** One child of an archive given to `addBinary`; `outer` is the archive. */
  function ChildStep(st: HandleState, outer: Binary, ch: ArchiveChild): Step {
    match ch.binary
    case Failure(e) => Step(st, Err(Llvm(e)))
    case Success(b) =>
      if b.content.ObjectBinary? then
        var f := FromTriple(b.content.obj.triple);
        if !ObjectFormatMatches(st.format, f) then MismatchStep(st, f)
        else
          var st1 := st.(format := Single(f));
          Step(WithObject(st1, b.content.obj, ChildName(ch, |st.objects| + 1), 0), Ok)
      else Reject(st, UnsupportedBinary(UnsupportedText(outer)))
  }

  /** The children of an archive, one at a time, stopping at the first failure. */
  function ArchiveChildren(st: HandleState, outer: Binary, cs: seq<ArchiveChild>): Step
    decreases |cs|
  {
    if cs == [] then Step(st, Ok)
    else
      var s := ChildStep(st, outer, cs[0]);
      if !s.outcome.Ok? then s else ArchiveChildren(s.state, outer, cs[1..])
  }

  /** One child of an archive inside a fat Mach-O slice: it must be a Mach-O object. */
  function FatChildStep(st: HandleState, ch: ArchiveChild): Step {
    match ch.binary
    case Failure(e) => Step(st, Err(Llvm(e)))
    case Success(b) =>
      if b.content.ObjectBinary? && b.content.obj.triple.objectFormat == MachO then
        Step(WithObject(st, b.content.obj, ChildName(ch, |st.objects| + 1), 0), Ok)
      else
        Reject(st, MachOUniversalBinary("expected an object in the archive, found "
                                        + Decimal.NatToString(b.typeId)))
  }

  function FatArchiveChildren(st: HandleState, cs: seq<ArchiveChild>): Step
    decreases |cs|
  {
    if cs == [] then Step(st, Ok)
    else
      var s := FatChildStep(st, cs[0]);
      if !s.outcome.Ok? then s else FatArchiveChildren(s.state, cs[1..])
  }

  /**
   * One slice of a fat Mach-O: its triple must be in the format set; an
   * object is added with the slice's alignment, an archive child by child,
   * and a slice that is neither adds nothing.
   */
  function SliceStep(st: HandleState, formats: set<ObjectFormat>, slice: FatSlice): Step {
    if FromTriple(slice.triple) !in formats then
      Reject(st, MachOUniversalBinary("unexpected triple " + slice.triple.text + " in fat Mach-O"))
    else
      match slice.content
      case SliceObject(obj) => Step(WithObject(st, obj, GeneratedName(|st.objects| + 1), slice.align), Ok)
      case SliceArchive(cs) => FatArchiveChildren(st, cs)
      case SliceNeither => Step(st, Ok)
  }

  function AddSlices(st: HandleState, formats: set<ObjectFormat>, slices: seq<FatSlice>): Step
    decreases |slices|
  {
    if slices == [] then Step(st, Ok)
    else
      var s := SliceStep(st, formats, slices[0]);
      if !s.outcome.Ok? then s else AddSlices(s.state, formats, slices[1..])
  }

  /** The formats of a fat Mach-O's slices. */
  function SliceFormats(slices: seq<FatSlice>): set<ObjectFormat> {
    set i | 0 <= i < |slices| :: FromTriple(slices[i].triple)
  }

  /**
   * `addMachOUniversalBinary`: refused when one format is already fixed or
   * when a recorded format set has a different size than the slice count;
   * the first fat input records the set of its slices' formats (before any
   * slice is processed); the binary is retained only on success.
   */
  function AddMachOUniversalBinary(st: HandleState, b: Binary): Step
    requires b.content.UniversalBinary?
  {
    var slices := b.content.slices;
    match st.format
    case Single(f) =>
      Reject(st, MachOUniversalBinary("expected an object of type " + FormatText(f) + ", got a fat Mach-O"))
    case FormatSet(fs) =>
      if |fs| != |slices| then
        Reject(st, MachOUniversalBinary("expected a fat Mach-O with " + Decimal.NatToString(|fs|)
                                        + " arch(s), got " + Decimal.NatToString(|slices|) + " arch(s)."))
      else Retain(AddSlices(st, fs, slices), b)
    case NoFormat =>
      var fs := SliceFormats(slices);
      Retain(AddSlices(st.(format := FormatSet(fs)), fs, slices), b)
  }

  /** `OwnedBinaries.push_back` after a successful add. */
  function Retain(s: Step, b: Binary): Step {
    if s.outcome.Ok? then Step(s.state.(owned := s.state.owned + [b]), Ok) else s
  }

  /**
   * `Bartleby::addBinary`: an object file, an archive of object files, or a
   * fat Mach-O; anything else is an unsupported binary.
   */
  function AddBinary(st: HandleState, b: Binary): Step {
    match b.content
    case ObjectBinary(obj) => Retain(AddObject(st, obj), b)
    case ArchiveBinary(cs) => Retain(ArchiveChildren(st, b, cs), b)
    case UniversalBinary(_) => AddMachOUniversalBinary(st, b)
    case OtherBinary => Reject(st, UnsupportedBinary(UnsupportedText(b)))
  }

  // ---------------------------------------------------------------------
  // What a call may change

  /**
   * `st2` keeps everything `st` holds: its objects as a prefix, its symbol
   * names, its defined and global flags; no overwrite name is set, so a
   * symbol added after a prefixing pass is not renamed.
   */
  predicate Extends(st: HandleState, st2: HandleState) {
    && |st.objects| <= |st2.objects|
    && st2.objects[..|st.objects|] == st.objects
    && st.table.Keys <= st2.table.Keys
    && (forall k :: k in st2.table ==>
          st2.table[k].overwriteName == (if k in st.table then st.table[k].overwriteName else None))
    && (forall k :: k in st.table ==>
          (st.table[k].defined ==> st2.table[k].defined) && (st.table[k].global ==> st2.table[k].global))
  }

  lemma ExtendsTransitive(a: HandleState, b: HandleState, c: HandleState)
    requires Extends(a, b) && Extends(b, c)
    ensures Extends(a, c)
  {
    assert c.objects[..|a.objects|] == c.objects[..|b.objects|][..|a.objects|];
  }

  /** Plain inputs move the format only from none to one format. */
  predicate FormatFollows(a: FormatState, b: FormatState) {
    if a.NoFormat? then !b.FormatSet? else b == a
  }

  /** A step over plain objects: extends the handle, retains no binary, format as above. */
  predicate PlainProgress(st: HandleState, st2: HandleState) {
    Extends(st, st2) && st2.owned == st.owned && FormatFollows(st.format, st2.format)
  }

  /** A step inside a fat Mach-O: extends the handle, retains no binary, keeps the format. */
  predicate FatProgress(st: HandleState, st2: HandleState) {
    Extends(st, st2) && st2.owned == st.owned && st2.format == st.format
  }

  /**
   * The handle invariant: without a format nothing was added, and with one
   * format every object has that format.
   */
  predicate Consistent(st: HandleState) {
    && (st.format.NoFormat? ==> st.objects == [] && st.table == map[])
    && (st.format.Single? ==>
          forall i :: 0 <= i < |st.objects| ==> FromTriple(st.objects[i].handle.triple) == st.format.format)
  }

  lemma EmptyHandleConsistent()
    ensures Consistent(EmptyHandle)
  {
  }

  /** Adding one object appends it and merges its symbols, and nothing else. */
  lemma WithObjectExtends(st: HandleState, obj: ObjectHandle, name: string, alignment: nat)
    ensures var r := WithObject(st, obj, name, alignment);
      && Extends(st, r) && r.owned == st.owned && r.format == st.format
      && r.objects == st.objects + [ObjectFile(obj, name, alignment)]
  {
    SymbolInfosWellFormed(obj);
    var infos := SymbolInfos(obj);
    var r := WithObject(st, obj, name, alignment);
    MergeInfosKeys(st.table, infos);
    MergeInfosOther(st.table, infos);
    forall k | k in st.table
      ensures (st.table[k].defined ==> r.table[k].defined) && (st.table[k].global ==> r.table[k].global)
    {
      MergeInfosFlags(st.table, infos, k);
    }
  }

  /** An archive member that LLVM reads as an object file. */
  predicate IsObjectChild(ch: ArchiveChild) {
    ch.binary.Success? && ch.binary.value.content.ObjectBinary?
  }

  function ChildFormat(ch: ArchiveChild): ObjectFormat
    requires IsObjectChild(ch)
  {
    FromTriple(ch.binary.value.content.obj.triple)
  }

  /** One archive member: accepted exactly when it is an object of a matching format. */
  lemma ChildStepProgress(st: HandleState, outer: Binary, ch: ArchiveChild)
    ensures var s := ChildStep(st, outer, ch);
      && PlainProgress(st, s.state)
      && (Consistent(st) ==> Consistent(s.state))
      && (s.outcome.Ok? <==> IsObjectChild(ch) && ObjectFormatMatches(st.format, ChildFormat(ch)))
      && (s.outcome.Ok? ==>
            s.state.format == Single(ChildFormat(ch))
            && s.state.objects == st.objects + [ObjectFile(ch.binary.value.content.obj, ChildName(ch, |st.objects| + 1), 0)])
      && (!s.outcome.Ok? ==> s.state == st)
  {
    if IsObjectChild(ch) && ObjectFormatMatches(st.format, ChildFormat(ch)) {
      var st1 := st.(format := Single(ChildFormat(ch)));
      WithObjectExtends(st1, ch.binary.value.content.obj, ChildName(ch, |st.objects| + 1), 0);
    }
  }

  lemma {:induction false} ArchiveChildrenProgress(st: HandleState, outer: Binary, cs: seq<ArchiveChild>)
    ensures var r := ArchiveChildren(st, outer, cs);
      PlainProgress(st, r.state) && (Consistent(st) ==> Consistent(r.state))
    decreases |cs|
  {
    if cs != [] {
      var s := ChildStep(st, outer, cs[0]);
      ChildStepProgress(st, outer, cs[0]);
      if s.outcome.Ok? {
        ArchiveChildrenProgress(s.state, outer, cs[1..]);
        ExtendsTransitive(st, s.state, ArchiveChildren(s.state, outer, cs[1..]).state);
      }
    }
  }

  /** Every member is an object, each matches the handle's format, and all share one format. */
  predicate AcceptsAll(fs: FormatState, cs: seq<ArchiveChild>) {
    && (forall i :: 0 <= i < |cs| ==> IsObjectChild(cs[i]))
    && (forall i :: 0 <= i < |cs| ==> ObjectFormatMatches(fs, ChildFormat(cs[i])))
    && (forall i, j :: 0 <= i < j < |cs| ==> ChildFormat(cs[i]) == ChildFormat(cs[j]))
  }

  /** An archive is accepted exactly when all of its members are acceptable together. */
  lemma {:induction false} ArchiveChildrenOk(st: HandleState, outer: Binary, cs: seq<ArchiveChild>)
    ensures ArchiveChildren(st, outer, cs).outcome.Ok? <==> AcceptsAll(st.format, cs)
    decreases |cs|
  {
    if cs != [] {
      var s := ChildStep(st, outer, cs[0]);
      ChildStepProgress(st, outer, cs[0]);
      if s.outcome.Ok? {
        var f := ChildFormat(cs[0]);
        var rest := cs[1..];
        ArchiveChildrenOk(s.state, outer, rest);
        if AcceptsAll(st.format, cs) {
          forall i | 0 <= i < |rest| ensures ObjectFormatMatches(Single(f), ChildFormat(rest[i])) {
            assert rest[i] == cs[i + 1];
          }
          forall i, j | 0 <= i < j < |rest| ensures ChildFormat(rest[i]) == ChildFormat(rest[j]) {
            assert rest[i] == cs[i + 1] && rest[j] == cs[j + 1];
          }
        }
        if AcceptsAll(Single(f), rest) {
          forall i | 0 <= i < |cs| ensures IsObjectChild(cs[i]) && ChildFormat(cs[i]) == f {
            if i > 0 { assert cs[i] == rest[i - 1]; }
          }
        }
      }
    }
  }

  /** On success every member became an object, in order, under its own or a generated name. */
  lemma {:induction false} ArchiveChildrenObjects(st: HandleState, outer: Binary, cs: seq<ArchiveChild>)
    ensures var r := ArchiveChildren(st, outer, cs);
      r.outcome.Ok? ==>
        && |r.state.objects| == |st.objects| + |cs|
        && forall i :: 0 <= i < |cs| ==>
             IsObjectChild(cs[i])
             && r.state.objects[|st.objects| + i]
                == ObjectFile(cs[i].binary.value.content.obj, ChildName(cs[i], |st.objects| + i + 1), 0)
    decreases |cs|
  {
    if cs != [] {
      var s := ChildStep(st, outer, cs[0]);
      ChildStepProgress(st, outer, cs[0]);
      if s.outcome.Ok? {
        var rest := cs[1..];
        ArchiveChildrenObjects(s.state, outer, rest);
        ArchiveChildrenProgress(s.state, outer, rest);
        var r := ArchiveChildren(s.state, outer, rest);
        if r.outcome.Ok? {
          forall i | 0 <= i < |cs|
            ensures IsObjectChild(cs[i])
            ensures r.state.objects[|st.objects| + i]
                    == ObjectFile(cs[i].binary.value.content.obj, ChildName(cs[i], |st.objects| + i + 1), 0)
          {
            if i == 0 {
              assert r.state.objects[..|s.state.objects|] == s.state.objects;
              assert r.state.objects[|st.objects|] == s.state.objects[|st.objects|];
            } else {
              assert cs[i] == rest[i - 1];
            }
          }
        }
      }
    }
  }

  /** Processing the first `j` members and then the rest is processing them all. */
  lemma {:induction false} ArchiveChildrenSplit(st: HandleState, outer: Binary, cs: seq<ArchiveChild>, j: nat)
    requires j <= |cs|
    requires ArchiveChildren(st, outer, cs[..j]).outcome.Ok?
    ensures ArchiveChildren(st, outer, cs)
            == ArchiveChildren(ArchiveChildren(st, outer, cs[..j]).state, outer, cs[j..])
    decreases j
  {
    if j == 0 {
      assert cs[..0] == [] && cs[0..] == cs;
    } else {
      var s := ChildStep(st, outer, cs[0]);
      assert cs[..j][0] == cs[0] && cs[..j][1..] == cs[1..][..j - 1];
      ArchiveChildrenSplit(s.state, outer, cs[1..], j - 1);
      assert cs[1..][j - 1..] == cs[j..];
    }
  }

  /**
   * No rollback: when a later member of an archive fails, what the earlier
   * members added (objects, symbols, flags) stays in the handle.
   */
  lemma ArchiveChildrenNoRollback(st: HandleState, outer: Binary, cs: seq<ArchiveChild>, j: nat)
    requires j <= |cs|
    requires ArchiveChildren(st, outer, cs[..j]).outcome.Ok?
    ensures Extends(ArchiveChildren(st, outer, cs[..j]).state, ArchiveChildren(st, outer, cs).state)
  {
    ArchiveChildrenSplit(st, outer, cs, j);
    ArchiveChildrenProgress(ArchiveChildren(st, outer, cs[..j]).state, outer, cs[j..]);
  }

  lemma {:induction false} FatArchiveChildrenProgress(st: HandleState, cs: seq<ArchiveChild>)
    ensures FatProgress(st, FatArchiveChildren(st, cs).state)
    ensures !FatArchiveChildren(st, cs).outcome.Terminated?
    decreases |cs|
  {
    if cs != [] {
      var s := FatChildStep(st, cs[0]);
      if s.outcome.Ok? {
        var b := cs[0].binary.value;
        WithObjectExtends(st, b.content.obj, ChildName(cs[0], |st.objects| + 1), 0);
        FatArchiveChildrenProgress(s.state, cs[1..]);
        ExtendsTransitive(st, s.state, FatArchiveChildren(s.state, cs[1..]).state);
      }
    }
  }

  lemma SliceStepProgress(st: HandleState, formats: set<ObjectFormat>, slice: FatSlice)
    ensures FatProgress(st, SliceStep(st, formats, slice).state)
    ensures !SliceStep(st, formats, slice).outcome.Terminated?
  {
    if FromTriple(slice.triple) in formats {
      match slice.content
      case SliceObject(obj) => WithObjectExtends(st, obj, GeneratedName(|st.objects| + 1), slice.align);
      case SliceArchive(cs) => FatArchiveChildrenProgress(st, cs);
      case SliceNeither =>
    }
  }

  lemma {:induction false} AddSlicesProgress(st: HandleState, formats: set<ObjectFormat>, slices: seq<FatSlice>)
    ensures FatProgress(st, AddSlices(st, formats, slices).state)
    ensures !AddSlices(st, formats, slices).outcome.Terminated?
    decreases |slices|
  {
    if slices != [] {
      var s := SliceStep(st, formats, slices[0]);
      SliceStepProgress(st, formats, slices[0]);
      if s.outcome.Ok? {
        AddSlicesProgress(s.state, formats, slices[1..]);
        ExtendsTransitive(st, s.state, AddSlices(s.state, formats, slices[1..]).state);
      }
    }
  }

  lemma AddObjectProgress(st: HandleState, obj: ObjectHandle)
    ensures PlainProgress(st, AddObject(st, obj).state)
    ensures Consistent(st) ==> Consistent(AddObject(st, obj).state)
  {
    var f := FromTriple(obj.triple);
    if ObjectFormatMatches(st.format, f) {
      WithObjectExtends(st.(format := Single(f)), obj, GeneratedName(|st.objects| + 1), 0);
    }
  }

  /**
   * A fat Mach-O: refused without change when a single format is recorded
   * or the recorded set has another size; otherwise the handle holds a
   * format set afterwards, and the call ends in success or an error.
   */
  lemma AddMachOUniversalBinaryProgress(st: HandleState, b: Binary)
    requires b.content.UniversalBinary?
    ensures var r := AddMachOUniversalBinary(st, b);
      && Extends(st, r.state)
      && r.state.owned == (if r.outcome.Ok? then st.owned + [b] else st.owned)
      && !r.outcome.Terminated?
      && (st.format.Single? ==> r.state == st && r.outcome.Err?)
      && (st.format.FormatSet? && |st.format.formats| != |b.content.slices| ==> r.state == st && r.outcome.Err?)
      && (st.format.FormatSet? ==> r.state.format == st.format)
      && (st.format.NoFormat? ==> r.state.format == FormatSet(SliceFormats(b.content.slices)))
  {
    var slices := b.content.slices;
    if st.format.FormatSet? {
      AddSlicesProgress(st, st.format.formats, slices);
    } else if st.format.NoFormat? {
      AddSlicesProgress(st.(format := FormatSet(SliceFormats(slices))), SliceFormats(slices), slices);
    }
  }

  /** An archive member inside a fat Mach-O slice that LLVM reads as a Mach-O object. */
  predicate IsFatObjectChild(ch: ArchiveChild) {
    && ch.binary.Success?
    && ch.binary.value.content.ObjectBinary?
    && ch.binary.value.content.obj.triple.objectFormat == MachO
  }

  /** A slice whose triple is in the format set and, if it is an archive, whose members are all Mach-O objects. */
  predicate SliceAcceptable(formats: set<ObjectFormat>, slice: FatSlice) {
    && FromTriple(slice.triple) in formats
    && (slice.content.SliceArchive? ==>
          forall j :: 0 <= j < |slice.content.children| ==> IsFatObjectChild(slice.content.children[j]))
  }

  /** The members of an archive slice are accepted exactly when every one is a Mach-O object. */
  lemma {:induction false} FatArchiveChildrenOk(st: HandleState, cs: seq<ArchiveChild>)
    ensures FatArchiveChildren(st, cs).outcome.Ok? <==> forall j :: 0 <= j < |cs| ==> IsFatObjectChild(cs[j])
    decreases |cs|
  {
    if cs != [] {
      var s := FatChildStep(st, cs[0]);
      assert s.outcome.Ok? <==> IsFatObjectChild(cs[0]);
      if s.outcome.Ok? {
        FatArchiveChildrenOk(s.state, cs[1..]);
        if forall j :: 0 <= j < |cs[1..]| ==> IsFatObjectChild(cs[1..][j]) {
          forall j | 0 <= j < |cs| ensures IsFatObjectChild(cs[j]) {
            if j > 0 { assert cs[j] == cs[1..][j - 1]; }
          }
        } else {
          var j :| 0 <= j < |cs[1..]| && !IsFatObjectChild(cs[1..][j]);
          assert cs[1..][j] == cs[j + 1];
        }
      }
    }
  }

  /**
   * One slice is accepted exactly when it is acceptable; a slice whose
   * triple is outside the format set is refused with the unexpected-triple
   * error and changes nothing.
   */
  lemma SliceStepOk(st: HandleState, formats: set<ObjectFormat>, slice: FatSlice)
    ensures SliceStep(st, formats, slice).outcome.Ok? <==> SliceAcceptable(formats, slice)
    ensures FromTriple(slice.triple) !in formats ==>
      SliceStep(st, formats, slice)
      == Reject(st, MachOUniversalBinary("unexpected triple " + slice.triple.text + " in fat Mach-O"))
  {
    if FromTriple(slice.triple) in formats && slice.content.SliceArchive? {
      FatArchiveChildrenOk(st, slice.content.children);
    }
  }

  /** The slices of a fat Mach-O are accepted exactly when every slice is acceptable. */
  lemma {:induction false} AddSlicesOk(st: HandleState, formats: set<ObjectFormat>, slices: seq<FatSlice>)
    ensures AddSlices(st, formats, slices).outcome.Ok? <==>
      forall i :: 0 <= i < |slices| ==> SliceAcceptable(formats, slices[i])
    decreases |slices|
  {
    if slices != [] {
      var s := SliceStep(st, formats, slices[0]);
      SliceStepOk(st, formats, slices[0]);
      if s.outcome.Ok? {
        AddSlicesOk(s.state, formats, slices[1..]);
        if forall i :: 0 <= i < |slices[1..]| ==> SliceAcceptable(formats, slices[1..][i]) {
          forall i | 0 <= i < |slices| ensures SliceAcceptable(formats, slices[i]) {
            if i > 0 { assert slices[i] == slices[1..][i - 1]; }
          }
        } else {
          var i :| 0 <= i < |slices[1..]| && !SliceAcceptable(formats, slices[1..][i]);
          assert slices[1..][i] == slices[i + 1];
        }
      }
    }
  }

  /**
   * When a fat Mach-O is accepted: the handle has no single format, a
   * recorded format set has as many formats as the input has slices, and
   * every slice is acceptable against the recorded set or, on a fresh
   * handle, against the set of the input's own slice formats (so on a
   * fresh handle only the archive slices' members can cause a refusal).
   */
  lemma AddMachOUniversalBinaryOk(st: HandleState, b: Binary)
    requires b.content.UniversalBinary?
    ensures var slices := b.content.slices;
      var fs := if st.format.FormatSet? then st.format.formats else SliceFormats(slices);
      && (AddMachOUniversalBinary(st, b).outcome.Ok? <==>
            && !st.format.Single?
            && (st.format.FormatSet? ==> |st.format.formats| == |slices|)
            && forall i :: 0 <= i < |slices| ==> SliceAcceptable(fs, slices[i]))
      && (st.format.NoFormat? ==> forall i :: 0 <= i < |slices| ==> FromTriple(slices[i].triple) in fs)
  {
    var slices := b.content.slices;
    if st.format.FormatSet? {
      AddSlicesOk(st, st.format.formats, slices);
    } else if st.format.NoFormat? {
      var fs := SliceFormats(slices);
      AddSlicesOk(st.(format := FormatSet(fs)), fs, slices);
    }
  }

  /**
   * `addBinary` never removes or renames anything, retains the binary
   * exactly when it succeeds, and keeps the handle invariant.
   */
  lemma AddBinaryProgress(st: HandleState, b: Binary)
    ensures var r := AddBinary(st, b);
      && Extends(st, r.state)
      && r.state.owned == (if r.outcome.Ok? then st.owned + [b] else st.owned)
      && (Consistent(st) ==> Consistent(r.state))
  {
    match b.content
    case ObjectBinary(obj) => AddObjectProgress(st, obj);
    case ArchiveBinary(cs) => ArchiveChildrenProgress(st, b, cs);
    case UniversalBinary(slices) => AddMachOUniversalBinaryProgress(st, b);
    case OtherBinary =>
  }

  /**
   * The format state machine: the handle becomes a fat Mach-O handle only
   * through a fat input on a fresh handle, whose slice formats it then keeps
   * whether or not the rest of the call succeeds; a recorded format or
   * format set never changes.
   */
  lemma AddBinaryFormat(st: HandleState, b: Binary)
    ensures var r := AddBinary(st, b);
      && (r.state.format.FormatSet? <==> st.format.FormatSet? || (b.content.UniversalBinary? && st.format.NoFormat?))
      && (!st.format.NoFormat? ==> r.state.format == st.format)
      && (st.format.NoFormat? && b.content.UniversalBinary? ==>
            r.state.format == FormatSet(SliceFormats(b.content.slices)))
  {
    match b.content
    case ObjectBinary(obj) =>
    case ArchiveBinary(cs) => ArchiveChildrenProgress(st, b, cs);
    case UniversalBinary(slices) => AddMachOUniversalBinaryProgress(st, b);
    case OtherBinary =>
  }

  /**
   * Only a fat Mach-O handle can end the process: an object given to it
   * always does, and an archive does exactly when its first member reads
   * as an object (the mismatch error for it looks up a single format the
   * handle does not have). An empty archive is accepted, and a first
   * member that cannot be read or is not an object gives an error.
   */
  lemma AddBinaryTerminates(st: HandleState, b: Binary)
    ensures AddBinary(st, b).outcome.Terminated? ==>
      st.format.FormatSet? && (b.content.ObjectBinary? || b.content.ArchiveBinary?)
    ensures st.format.FormatSet? && b.content.ObjectBinary? ==> AddBinary(st, b).outcome.Terminated?
    ensures st.format.FormatSet? && b.content.ArchiveBinary? ==>
      var cs := b.content.children;
      (AddBinary(st, b).outcome.Terminated? <==>
         |cs| > 0 && cs[0].binary.Success? && cs[0].binary.value.content.ObjectBinary?)
  {
    match b.content
    case ObjectBinary(_) =>
    case ArchiveBinary(cs) =>
      if !st.format.FormatSet? {
        NoTerminationOutsideFat(st, b, cs);
      } else if cs != [] {
        var s := ChildStep(st, b, cs[0]);
        assert s.outcome.Terminated? <==> cs[0].binary.Success? && cs[0].binary.value.content.ObjectBinary?;
        assert !s.outcome.Ok?;
      }
    case UniversalBinary(slices) => AddMachOUniversalBinaryProgress(st, b);
    case OtherBinary =>
  }

  lemma {:induction false} NoTerminationOutsideFat(st: HandleState, outer: Binary, cs: seq<ArchiveChild>)
    requires !st.format.FormatSet?
    ensures !ArchiveChildren(st, outer, cs).outcome.Terminated?
    decreases |cs|
  {
    if cs != [] {
      var s := ChildStep(st, outer, cs[0]);
      ChildStepProgress(st, outer, cs[0]);
      if s.outcome.Ok? {
        NoTerminationOutsideFat(s.state, outer, cs[1..]);
      }
    }
  }
}
