/**
 * The library's own error type: one of three reasons, each with an error
 * code and a human-readable message.
 */
module Errors {
  import opened Formats

  /** `Error::ReasonT`: exactly one of the three reason records. */
  datatype Reason =
    | UnsupportedBinary(msg: string)
    | ObjectFormatTypeMismatch(constraint: ObjectFormat, found: ObjectFormat)
    | MachOUniversalBinary(msg: string)

  /** `saq::bartleby::Error`: construction stores the given reason unchanged. */
  datatype Error = Error(reason: Reason)

  /**
   * An `llvm::Error` as the handle returns it: either one of this library's
   * errors or an error produced inside LLVM, whose text is not modelled.
   */
  datatype LlvmError = Bartleby(error: Error) | Llvm(detail: string)

  const UnsupportedBinaryPrefix := "error while reading binary: "
  const MismatchPrefix := "invalid object format type: expected "
  const MachOUniversalBinaryPrefix := "fat Mach-O error: "

  /** `Error::convertToErrorCode`: 1, 2 or 3, one code per kind of reason. */
  function ErrorCode(e: Error): (c: int)
    ensures 1 <= c <= 3
    ensures c == 1 <==> e.reason.UnsupportedBinary?
    ensures c == 2 <==> e.reason.ObjectFormatTypeMismatch?
    ensures c == 3 <==> e.reason.MachOUniversalBinary?
  {
    match e.reason
    case UnsupportedBinary(_) => 1
    case ObjectFormatTypeMismatch(_, _) => 2
    case MachOUniversalBinary(_) => 3
  }

  /** The text each reason contributes after the kind's fixed prefix. */
  function Detail(r: Reason): string {
    match r
    case UnsupportedBinary(m) => m
    case ObjectFormatTypeMismatch(c, f) => FormatText(c) + ", got " + FormatText(f)
    case MachOUniversalBinary(m) => m
  }

  /** `Error::message`: a fixed prefix naming the kind of reason, then its detail. */
  function Message(e: Error): (s: string)
    ensures e.reason.UnsupportedBinary? ==> s == UnsupportedBinaryPrefix + e.reason.msg
    ensures e.reason.MachOUniversalBinary? ==> s == MachOUniversalBinaryPrefix + e.reason.msg
    ensures e.reason.ObjectFormatTypeMismatch? ==>
      s == MismatchPrefix + FormatText(e.reason.constraint) + ", got " + FormatText(e.reason.found)
  {
    match e.reason
    case UnsupportedBinary(m) => UnsupportedBinaryPrefix + m
    case ObjectFormatTypeMismatch(_, _) => MismatchPrefix + Detail(e.reason)
    case MachOUniversalBinary(m) => MachOUniversalBinaryPrefix + m
  }

  /** Reads the error code back from the first character of a message. */
  function CodeOfMessage(s: string): int {
    if |s| == 0 then 0
    else if s[0] == 'e' then 1
    else if s[0] == 'i' then 2
    else if s[0] == 'f' then 3
    else 0
  }

  /** The message alone tells which kind of reason (and so which code) an error has. */
  lemma MessageIdentifiesCode(e: Error)
    ensures CodeOfMessage(Message(e)) == ErrorCode(e)
  {
    var s := Message(e);
    match e.reason
    case UnsupportedBinary(m) =>
      assert s[0] == UnsupportedBinaryPrefix[0];
    case ObjectFormatTypeMismatch(_, _) =>
      assert s[0] == MismatchPrefix[0];
    case MachOUniversalBinary(m) =>
      assert s[0] == MachOUniversalBinaryPrefix[0];
  }

  /** A mismatch message names the handle's format first and the offending format second. */
  lemma MismatchMessageOrder(c: ObjectFormat, f: ObjectFormat)
    ensures var s := Message(Error(ObjectFormatTypeMismatch(c, f)));
      var i := |MismatchPrefix|;
      var j := i + |FormatText(c)| + |", got "|;
      && j + |FormatText(f)| == |s|
      && s[i..i + |FormatText(c)|] == FormatText(c)
      && s[j..] == FormatText(f)
  {
    var s := Message(Error(ObjectFormatTypeMismatch(c, f)));
    var i := |MismatchPrefix|;
    assert s == MismatchPrefix + FormatText(c) + ", got " + FormatText(f);
    assert s[i..i + |FormatText(c)|] == FormatText(c);
  }

  /** What `Error::log` writes after the message: the text, or "expected …, got …" for a mismatch. */
  function LogDetail(r: Reason): string {
    match r
    case UnsupportedBinary(m) => m
    case ObjectFormatTypeMismatch(_, _) => "expected " + Detail(r)
    case MachOUniversalBinary(m) => m
  }

  /**
   * `Error::log` as written: the message, then the reason's detail once more
   * (for a mismatch, "expected …, got …" again), so the detail is printed twice.
   */
  function Log(e: Error): (s: string)
    ensures |s| == |Message(e)| + |LogDetail(e.reason)|
    ensures s[..|Message(e)|] == Message(e)
    ensures s[|Message(e)|..] == LogDetail(e.reason)
  {
    Message(e) + LogDetail(e.reason)
  }

  /** The whole log of an unsupported-binary error: the prefix, then the text twice. */
  lemma LogTextUnsupported(m: string)
    ensures Log(Error(UnsupportedBinary(m))) == UnsupportedBinaryPrefix + m + m
  {
    assert |Log(Error(UnsupportedBinary(m)))| == |UnsupportedBinaryPrefix| + 2 * |m|;
  }

  /** The whole log of a fat Mach-O error: the prefix, then the text twice. */
  lemma LogTextFat(m: string)
    ensures Log(Error(MachOUniversalBinary(m))) == MachOUniversalBinaryPrefix + m + m
  {
    assert |Log(Error(MachOUniversalBinary(m)))| == |MachOUniversalBinaryPrefix| + 2 * |m|;
  }

  /**
   * The whole log of a mismatch: the message ("…expected A, got B"), then
   * "expected A, got B" once more.
   */
  lemma LogTextMismatch(c: ObjectFormat, f: ObjectFormat)
    ensures var d := FormatText(c) + ", got " + FormatText(f);
      Log(Error(ObjectFormatTypeMismatch(c, f))) == MismatchPrefix + d + "expected " + d
  {
    var e := Error(ObjectFormatTypeMismatch(c, f));
    var d := Detail(e.reason);
    assert Message(e) == MismatchPrefix + d;
    assert LogDetail(e.reason) == "expected " + d;
    assert (MismatchPrefix + d) + ("expected " + d) == MismatchPrefix + d + "expected " + d;
  }

  /** `Error::log` as evidently intended: the message, once; its code can be read back from it. */
  function LogCorrected(e: Error): (s: string)
    ensures s == Message(e)
    ensures CodeOfMessage(s) == ErrorCode(e)
  {
    MessageIdentifiesCode(e);
    Message(e)
  }
}
