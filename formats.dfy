/**
 * Object formats: the (architecture, sub-architecture, object file format)
 * triple summary that a handle uses to keep its inputs consistent, and its
 * packing into one 64-bit key.
 */
module Formats {
  import Decimal

  /** Every LLVM enumerator used here is a small integer; 16 bits hold each one. */
  type Enum16 = bv16

  /** `llvm::Triple::ObjectFormatType`, in LLVM's declaration order. */
  datatype ObjectFormatType =
    | UnknownObjectFormat | COFF | DXContainer | ELF | GOFF | MachO | SPIRV | Wasm | XCOFF

  /** The enumerator's integer value. */
  function Code(t: ObjectFormatType): Enum16 {
    match t
    case UnknownObjectFormat => 0
    case COFF => 1
    case DXContainer => 2
    case ELF => 3
    case GOFF => 4
    case MachO => 5
    case SPIRV => 6
    case Wasm => 7
    case XCOFF => 8
  }

  /**
   * An `llvm::Triple` as far as this library looks at it: the architecture and
   * sub-architecture enumerators, the object format, and its textual form
   * (`Triple::str()`), which also carries vendor, OS and environment.
   */
  datatype Triple = Triple(arch: Enum16, subArch: Enum16, objectFormat: ObjectFormatType, text: string)

  /** `ObjectFormat`: the part of a triple that decides compatibility. */
  datatype ObjectFormat = ObjectFormat(arch: Enum16, subArch: Enum16, formatType: ObjectFormatType)

  /** `ObjectFormat(const llvm::Triple &)`. */
  function FromTriple(t: Triple): (f: ObjectFormat)
    ensures f.arch == t.arch && f.subArch == t.subArch && f.formatType == t.objectFormat
  {
    ObjectFormat(t.arch, t.subArch, t.objectFormat)
  }

  /** `ObjectFormat::pack`: Arch | SubArch << 16 | FormatType << 32, as a 64-bit value. */
  function Pack(f: ObjectFormat): bv64 {
    (f.arch as bv64) | ((f.subArch as bv64) << 16) | ((Code(f.formatType) as bv64) << 32)
  }

  lemma CodeInjective(a: ObjectFormatType, b: ObjectFormatType)
    requires Code(a) == Code(b)
    ensures a == b
  {
  }

  /** Three 16-bit fields placed at bits 0, 16 and 32 do not overlap. */
  lemma BitFields(a: bv64, s: bv64, c: bv64)
    requires a <= 0xFFFF && s <= 0xFFFF && c <= 0xFFFF
    ensures (a | (s << 16) | (c << 32)) & 0xFFFF == a
    ensures ((a | (s << 16) | (c << 32)) >> 16) & 0xFFFF == s
    ensures ((a | (s << 16) | (c << 32)) >> 32) & 0xFFFF == c
  {
  }

  /** The three fields can be read back from the packed value. */
  lemma UnpackPack(f: ObjectFormat)
    ensures (Pack(f) & 0xFFFF) == f.arch as bv64
    ensures ((Pack(f) >> 16) & 0xFFFF) == f.subArch as bv64
    ensures ((Pack(f) >> 32) & 0xFFFF) == Code(f.formatType) as bv64
  {
    BitFields(f.arch as bv64, f.subArch as bv64, Code(f.formatType) as bv64);
  }

  /** Packing loses nothing: equal packed values mean equal formats. */
  lemma PackInjective(f: ObjectFormat, g: ObjectFormat)
    requires Pack(f) == Pack(g)
    ensures f == g
  {
    UnpackPack(f);
    UnpackPack(g);
    CodeInjective(f.formatType, g.formatType);
  }

  /** `ObjectFormat::operator==`: compares packed values, which is componentwise equality. */
  function Equal(f: ObjectFormat, g: ObjectFormat): (r: bool)
    ensures r <==> f == g
  {
    if Pack(f) == Pack(g) then PackInjective(f, g); true else false
  }

  /** `ObjectFormat::matches`: the triple has this format's arch, sub-arch and file format. */
  function Matches(f: ObjectFormat, t: Triple): (r: bool)
    ensures r <==> (t.arch == f.arch && t.subArch == f.subArch && t.objectFormat == f.formatType)
  {
    Equal(FromTriple(t), f)
  }

  /** `ObjectFormat::Hash`: the packed value, as a 64-bit `size_t`. */
  function Hash(f: ObjectFormat): bv64 {
    Pack(f)
  }

  /** Equal formats hash equally, and distinct formats never share a hash. */
  lemma HashInjective(f: ObjectFormat, g: ObjectFormat)
    ensures Hash(f) == Hash(g) <==> f == g
  {
    if Hash(f) == Hash(g) {
      PackInjective(f, g);
    }
  }

  /** `operator<<(raw_ostream &, const ObjectFormat &)`: the three enumerators as integers. */
  function FormatText(f: ObjectFormat): string {
    "ObjectFormat(arch=" + Decimal.NatToString(f.arch as nat)
    + ", subarch=" + Decimal.NatToString(f.subArch as nat)
    + ", file format=" + Decimal.NatToString(Code(f.formatType) as nat) + ")"
  }
}
