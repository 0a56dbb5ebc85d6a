/**
 * The inputs as LLVM presents them to the library: object files with their
 * symbol tables, archives with their children, and fat Mach-O files with
 * their slices. Everything LLVM parses is given here as data; where LLVM can
 * fail to read something, the field is an `Option` or a `Result`.
 */
module Binaries {
  import opened Wrappers
  import opened Formats
  import opened Symbols

  /**
   * One symbol table entry: `SymbolRef::getName`, `getFlags` and `getType`,
   * each `None` when LLVM reports an error for it.
   */
  datatype RawSymbol = RawSymbol(name: Option<string>, flags: Option<bv32>, symType: Option<SymbolType>)

  /** An `llvm::object::ObjectFile`: its triple (`makeTriple`) and its symbols in table order. */
  datatype ObjectHandle = ObjectHandle(triple: Triple, symbols: seq<RawSymbol>)

  /**
   * An `llvm::object::Binary`: its type identifier (`getType`), the object
   * format LLVM reports for it (`getTripleObjectFormat`) and what kind of
   * binary it is.
   */
  datatype Binary = Binary(typeId: nat, tripleFormat: ObjectFormatType, content: Content)

  datatype Content =
    | ObjectBinary(obj: ObjectHandle)
    | ArchiveBinary(children: seq<ArchiveChild>)
    | UniversalBinary(slices: seq<FatSlice>)
    | OtherBinary

  /** An archive child: `getAsBinary` (which can fail) and `getName` (`None` on failure). */
  datatype ArchiveChild = ArchiveChild(binary: Result<Binary, string>, name: Option<string>)

  /**
   * One slice of a fat Mach-O: its triple, its alignment, and what it holds:
   * an object (`getAsObjectFile` succeeded), an archive (`getAsArchive`
   * succeeded) or neither.
   */
  datatype FatSlice = FatSlice(triple: Triple, align: nat, content: SliceContent)

  datatype SliceContent =
    | SliceObject(obj: ObjectHandle)
    | SliceArchive(children: seq<ArchiveChild>)
    | SliceNeither
}
