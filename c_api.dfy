/**
 * The C interface (`saq_bartleby_*`): null checks, `errno` status codes,
 * the out-parameters of the build, and the handle's lifetime. Pointers the
 * caller may pass as null are nullable references or `Option`s; the object
 * parser and the success of `malloc` are parameters.
 */
module CApi {
  import opened Wrappers
  import opened Formats
  import opened Binaries
  import opened SymbolTable
  import opened Intake
  import B = Bartleby
  import AW = ArchiveWriter

  const OK: int := 0
  const EINVAL: int := 22
  const ENOMEM: int := 12

  type Bytes = seq<bv8>

  /** A caller-provided out-parameter (`void **`, `size_t *`). */
  class Cell<T> {
    var value: T

    constructor (v: T)
      ensures value == v
    {
      value := v;
    }
  }

  /**
   * `struct BartlebyHandle`. `live` turns false once `saq_bartleby_free`
   * or `saq_bartleby_build_archive` has released the handle.
   */
  class BartlebyHandle {
    const b: B.Bartleby
    ghost var live: bool

    /**
     * A handle the C interface can use. Only object files come in through
     * it, so it never holds a fat Mach-O format set.
     */
    ghost predicate Valid()
      reads this, b
    {
      live && b.Valid() && !b.objFormat.FormatSet?
    }

    /** `saq_bartleby_new`. */
    constructor ()
      ensures Valid() && fresh(b) && b.State() == EmptyHandle
    {
      b := new B.Bartleby();
      live := true;
    }
  }

  /** `saq_bartleby_free`: deleting null does nothing. */
  method Free(bh: BartlebyHandle?)
    requires bh != null ==> bh.live
    modifies bh
    ensures bh != null ==> !bh.live
  {
    if bh != null {
      bh.live := false;
    }
  }

  /** `saq_bartleby_set_prefix`. */
  method SetPrefix(bh: BartlebyHandle?, prefix: Option<string>) returns (status: int)
    requires bh != null ==> bh.Valid()
    modifies if bh != null then bh.b.symbols.Values else {}
    ensures status == (if bh == null || prefix.None? then EINVAL else OK)
    ensures bh != null ==> bh.Valid()
    ensures bh != null ==>
      bh.b.Table() == if prefix.Some? then PrefixedTable(old(bh.b.Table()), prefix.value) else old(bh.b.Table())
  {
    if bh == null {
      return EINVAL;
    }
    if prefix.None? {
      return EINVAL;
    }
    var _ := bh.b.PrefixGlobalAndDefinedSymbols(prefix.value);
    return OK;
  }

  /** What `ObjectFile::createObjectFile` makes of a buffer: the binary's type and the object. */
  datatype ParsedObject = ParsedObject(typeId: nat, obj: ObjectHandle)

  function ObjectBinaryOf(p: ParsedObject): Binary {
    Binary(p.typeId, p.obj.triple.objectFormat, ObjectBinary(p.obj))
  }

  /** A status code and the handle state it leaves. */
  datatype CallResult = CallResult(status: int, state: HandleState)

  /** `saq_bartleby_add_binary` on a non-null handle in state `st`. */
  function AddBinaryCall(st: HandleState, s: Option<Bytes>, n: nat,
                         parse: Bytes -> Result<ParsedObject, string>): CallResult
    requires s.Some? ==> n <= |s.value|
  {
    if s.None? || n == 0 then CallResult(EINVAL, st)
    else match parse(s.value[..n])
      case Failure(_) => CallResult(EINVAL, st)
      case Success(p) =>
        var r := Intake.AddBinary(st, ObjectBinaryOf(p));
        CallResult(if r.outcome.Ok? then OK else EINVAL, r.state)
  }

  /**
   * Through the C interface a handle only ever receives object files: the
   * call returns 0 exactly when the buffer is present, non-empty, parses as
   * an object and its format matches the handle's; it then appends that
   * object under the next generated name and keeps its binary. Any other
   * call returns `EINVAL` and leaves the handle as it was. It never
   * terminates the process and never makes the handle fat.
   */
  lemma AddBinaryCallSpec(st: HandleState, s: Option<Bytes>, n: nat,
                          parse: Bytes -> Result<ParsedObject, string>)
    requires !st.format.FormatSet?
    requires s.Some? ==> n <= |s.value|
    ensures var r := AddBinaryCall(st, s, n, parse);
      && (r.status == OK || r.status == EINVAL)
      && !r.state.format.FormatSet?
      && (r.status == EINVAL ==> r.state == st)
      && (r.status == OK <==>
            s.Some? && n > 0 && parse(s.value[..n]).Success?
            && ObjectFormatMatches(st.format, FromTriple(parse(s.value[..n]).value.obj.triple)))
      && (r.status == OK ==>
            var p := parse(s.value[..n]).value;
            && r.state.objects == st.objects + [ObjectFile(p.obj, GeneratedName(|st.objects| + 1), 0)]
            && r.state.owned == st.owned + [ObjectBinaryOf(p)]
            && r.state.table == MergeObject(st.table, p.obj))
    ensures s.Some? && n > 0 && parse(s.value[..n]).Success? ==>
      !Intake.AddBinary(st, ObjectBinaryOf(parse(s.value[..n]).value)).outcome.Terminated?
  {
    if s.Some? && n > 0 && parse(s.value[..n]).Success? {
      var bin := ObjectBinaryOf(parse(s.value[..n]).value);
      AddBinaryFormat(st, bin);
      AddBinaryTerminates(st, bin);
      AddBinaryProgress(st, bin);
    }
  }

  /** `saq_bartleby_add_binary`. */
  method AddBinary(bh: BartlebyHandle?, s: Option<Bytes>, n: nat,
                   parse: Bytes -> Result<ParsedObject, string>) returns (status: int)
    requires bh != null ==> bh.Valid()
    requires s.Some? ==> n <= |s.value|
    modifies if bh != null then {bh.b} + bh.b.symbols.Values else {}
    ensures bh == null ==> status == EINVAL
    ensures bh != null ==> bh.Valid() && fresh(bh.b.symbols.Values - old(bh.b.symbols.Values))
    ensures bh != null ==> CallResult(status, bh.b.State()) == AddBinaryCall(old(bh.b.State()), s, n, parse)
  {
    if bh == null {
      return EINVAL;
    }
    if s.None? || n == 0 {
      return EINVAL;
    }
    var parsed := parse(s.value[..n]);
    if parsed.Failure? {
      return EINVAL;
    }
    var bin := ObjectBinaryOf(parsed.value);
    AddBinaryFormat(bh.b.State(), bin);
    var outcome := bh.b.AddBinary(bin);
    if !outcome.Ok? {
      return EINVAL;
    }
    return OK;
  }

  /**
   * `saq_bartleby_build_archive`. The call takes the handle over and
   * releases it on every path; `*s` is cleared before `n` is checked and
   * `*n` before the build; when `malloc` fails, `*n` still holds the
   * archive's size.
   */
  method BuildArchive(bh: BartlebyHandle?, s: Cell?<Option<Bytes>>, n: Cell?<nat>,
                      tc: AW.Toolchain, mallocOk: bool) returns (status: int)
    requires bh != null ==> bh.Valid()
    requires bh != null && s != null && n != null ==> |bh.b.objects| > 0
    modifies bh, s, n
    ensures bh != null ==> !bh.live
    ensures bh == null || s == null || n == null ==> status == EINVAL
    ensures bh == null ==> (s != null ==> s.value == old(s.value)) && (n != null ==> n.value == old(n.value))
    ensures bh != null && s != null && n == null ==> s.value.None?
    ensures bh != null && s == null && n != null ==> n.value == old(n.value)
    ensures bh != null && s != null && n != null ==>
      var r := AW.PlainArchive(tc, RenameMap(old(bh.b.Table())), old(bh.b.objects));
      && status == (if r.Failure? then EINVAL else if mallocOk then OK else ENOMEM)
      && s.value == (if status == OK then Some(r.value) else None)
      && n.value == (if r.Success? then |r.value| else 0)
  {
    if bh == null {
      return EINVAL;
    }
    ghost var table := bh.b.Table();
    ghost var objects := bh.b.objects;
    bh.live := false;
    if s == null {
      return EINVAL;
    }
    s.value := None;
    if n == null {
      return EINVAL;
    }
    n.value := 0;
    var r := AW.BuildFinalArchive(bh.b, tc);
    assert bh.b.Table() == table && bh.b.objects == objects;
    assert r == AW.PlainArchive(tc, RenameMap(table), objects);
    if r.Failure? {
      return EINVAL;
    }
    n.value := |r.value|;
    if !mallocOk {
      return ENOMEM;
    }
    s.value := Some(r.value);
    return OK;
  }
}
