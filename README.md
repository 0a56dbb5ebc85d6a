# bartleby, modelled in Dafny

Bartleby takes object files, static archives and fat Mach-O files. It
collects the symbols they define and gives every global, defined symbol a
prefix. It then writes one new archive in which those symbols are renamed.
Renaming goes through LLVM's objcopy. The output is a plain archive, or a
fat Mach-O of per-architecture archives when the input was fat.

This project models the library's core:

- the `Symbol` record and its sticky `defined` and `global` flags
  (`symbols.dfy`);
- the symbol map: how symbols are read, skipped and merged, how the
  prefixing pass rewrites the map, and the rename map derived from it
  (`symbol_table.dfy`);
- `ObjectFormat`, its 64-bit packing, equality and hash (`formats.dfy`);
- the error type: codes, messages and log text (`errors.dfy`);
- what `addBinary` does to a handle, as functions on a handle state
  (`intake.dfy`). This covers the format state machine (none, one format,
  or a fat Mach-O format set), the object list with its member names, and
  the retained binaries;
- the `Bartleby` handle as a class whose methods are proved to follow
  those functions (`bartleby.dfy`);
- the archive writer (`archive_writer.dfy`): the rename map, the plain
  path's fail-fast objcopy run, the fat path's per-format grouping and
  its slices, and the `build` dispatch;
- the C interface with its `errno` status codes and out-parameters
  (`c_api.dfy`);
- the library's unit scenarios, stated and proved on the model
  (`scenarios.dfy`).

Everything LLVM parses is given as data (`binaries.dfy`): triples,
symbol tables, archive children and fat slices. Every LLVM call whose
result is not computed here is a parameter: objcopy, the archive and
universal-binary writers, reading an archive back, and the CPU type
lookups are the fields of `ArchiveWriter.Toolchain`. The object parser of
the C interface is a parameter, and so is the success of `malloc`.

`include/Bartleby/Symbol.h` declares `isGlobal`, `isDefined`,
`getOverwriteName`, `setName` and `updateWithNewSymbolInfo`.
`lib/Bartleby/Symbol.cpp` defines the same operations under other
spellings and other field names. The model follows the behaviour, which
is the same in both, under the header's names.

## Model

| member | source | states |
|---|---|---|
| `Decimal.NatToString` | bartleby/lib/Bartleby/Bartleby.cpp:167-168 | `utostr` spells a count in decimal digits: at least one digit and no leading zero |
| `Decimal.ParseNatToString` | bartleby/lib/Bartleby/Bartleby.cpp:194-195 | reading the spelled count back gives the count |
| `Decimal.NatToStringInjective` | bartleby/lib/Bartleby/Bartleby.cpp:303-304 | different counts are spelled differently |
| `Formats.FromTriple` | bartleby/lib/Bartleby/Bartleby.cpp:127-129 | an object format keeps exactly the triple's architecture, sub-architecture and object file format |
| `Formats.UnpackPack` | bartleby/lib/Bartleby/Bartleby.cpp:131-135 | the packed value holds the three enumerators at bits 0, 16 and 32, and each can be read back |
| `Formats.PackInjective` | bartleby/include/Bartleby/Bartleby.h:56-60 | two formats with the same packed value are the same format |
| `Formats.Equal` | bartleby/lib/Bartleby/Bartleby.cpp:137-139 | comparing packed values is true exactly when the formats are equal field by field |
| `Formats.Matches` | bartleby/lib/Bartleby/Bartleby.cpp:141-143 | true exactly when the triple has the format's architecture, sub-architecture and file format |
| `Formats.HashInjective` | bartleby/include/Bartleby/Bartleby.h:78-82 | the hash is equal exactly when the formats are equal, so the format set and the archive map never merge two formats |
| `Errors.ErrorCode` | bartleby/lib/Bartleby/Error.cpp:68-84 | codes 1, 2 and 3, one for each kind of reason, in both directions |
| `Errors.Message` | bartleby/lib/Bartleby/Error.cpp:46-66 | the fixed prefix of each kind of reason, followed by its text or by the two formats |
| `Errors.MessageIdentifiesCode` | bartleby/lib/Bartleby/Error.cpp:46-84 | a message's first character tells which kind of reason it reports, and so its code |
| `Errors.MismatchMessageOrder` | bartleby/lib/Bartleby/Error.cpp:54-57 | a mismatch message prints the handle's format first and the offending object's format last |
| `Errors.Log` | bartleby/lib/Bartleby/Error.cpp:27-44 | as written: the log starts with the whole message and continues with the reason's text once more (for a mismatch, "expected A, got B") |
| `Errors.LogTextUnsupported` | bartleby/lib/Bartleby/Error.cpp:28-33 | as written: an unsupported-binary error logs "error while reading binary: " and then its text twice |
| `Errors.LogTextMismatch` | bartleby/lib/Bartleby/Error.cpp:28-37 | as written: a mismatch logs "invalid object format type: expected A, got B" and then "expected A, got B" again |
| `Errors.LogTextFat` | bartleby/lib/Bartleby/Error.cpp:28-39 | as written: a fat Mach-O error logs "fat Mach-O error: " and then its text twice |
| `Errors.LogCorrected` | bartleby/lib/Bartleby/Error.cpp:27-28 | corrected: the log is the message, once, and its code can be read back from it |
| `Symbols.Updated` | bartleby/lib/Bartleby/Symbol.cpp:35-50 | a weak symbol changes neither flag; otherwise defined is set by a symbol that is not undefined and global by a global one; no flag is ever cleared; the format tag becomes the object's |
| `Symbols.Renamed` | bartleby/lib/Bartleby/Symbol.cpp:56-58 | setting a name replaces the overwrite name and changes nothing else |
| `Symbols.Symbol.constructor` | bartleby/include/Bartleby/Symbol.h:102-113 | a new symbol is neither global nor defined nor Mach-O, and has no overwrite name |
| `Symbols.Symbol.SetName` | bartleby/include/Bartleby/Symbol.h:82-85 | the overwrite name becomes the given name; the flags and format are unchanged |
| `Symbols.Symbol.UpdateWithNewSymbolInfo` | bartleby/include/Bartleby/Symbol.h:87-90 | the new state is `Updated` of the old one; the symbol is Mach-O exactly when the object is; neither flag is cleared |
| `SymbolTable.GetSymbolInfo` | bartleby/lib/Bartleby/Bartleby.cpp:44-61 | the error flag is set exactly when name, flags or type could not be read; what was read is kept |
| `SymbolTable.SymbolInfosWellFormed` | bartleby/lib/Bartleby/Bartleby.cpp:67-73 | one information record per symbol of the object, each tagged with the object's format |
| `SymbolTable.ShouldSkipSymbol` | bartleby/lib/Bartleby/Bartleby.cpp:80-100 | a symbol is skipped exactly when its information has an error or its type is Other, Debug or File |
| `SymbolTable.MergeInfosKeys` | bartleby/lib/Bartleby/Bartleby.cpp:106-123 | the names in the map after processing an object are the old names plus the names of the symbols not skipped |
| `SymbolTable.MergeInfosFlags` | bartleby/lib/Bartleby/Bartleby.cpp:110-122 | a name is defined afterwards exactly when it was before or a kept, non-weak, not-undefined symbol of that name was processed; likewise global with a kept, non-weak, global symbol |
| `SymbolTable.MergeInfosOther` | bartleby/lib/Bartleby/Bartleby.cpp:115-121 | processing never sets an overwrite name, and names not processed keep their entries unchanged |
| `SymbolTable.MergeInfosFormat` | bartleby/lib/Bartleby/Bartleby.cpp:69-72 | every kept name is tagged with the format of the object processed last |
| `SymbolTable.PrefixedTable` | bartleby/lib/Bartleby/Bartleby.cpp:219-243 | the same names; exactly the global and defined entries get an overwrite name built from the name: prefix then name, or for Mach-O `_`, prefix, then the name without its first character |
| `SymbolTable.PrefixedOnAll` | bartleby/lib/Bartleby/Bartleby.cpp:221-240 | whatever order the map visits its entries in, visiting all of them gives the whole prefixing pass |
| `SymbolTable.PrefixIdempotent` | bartleby/lib/Bartleby/Bartleby.cpp:223-237 | prefixing twice with the same prefix gives the same map as prefixing once |
| `SymbolTable.PrefixReplaces` | bartleby/lib/Bartleby/Bartleby.cpp:226-237 | a second pass with another prefix replaces the first prefix; it never stacks two |
| `SymbolTable.RenameMap` | bartleby/lib/Bartleby/ArchiveWriter.cpp:65-76 | the rename map holds exactly the names that have an overwrite name, each mapped to it |
| `SymbolTable.RenameMapAfterPrefix` | bartleby/lib/Bartleby/ArchiveWriter.cpp:66-74 | after a prefixing pass the rename map holds every renamed name with its new name and keeps the other earlier renames |
| `Intake.ObjectFormatMatches` | bartleby/lib/Bartleby/Bartleby.cpp:245-250 | true exactly when no format is recorded or the one recorded format equals the given one; false for a format set |
| `Intake.IsMachOUniversalBinary` | bartleby/lib/Bartleby/Bartleby.cpp:252-254 | the handle holds a format set exactly when no single object format matches it |
| `Intake.GeneratedNameInjective` | bartleby/lib/Bartleby/Bartleby.cpp:166-168 | objects appended at different positions get different generated member names |
| `Intake.AddObject` | bartleby/lib/Bartleby/Bartleby.cpp:158-168 | a mismatching object leaves the handle unchanged and fails, with the mismatch error naming both formats when one format is recorded; a matching one records its format and is appended under the next generated name |
| `Intake.WithObjectExtends` | bartleby/lib/Bartleby/Bartleby.cpp:165-168 | adding one object appends it and merges its symbols, and keeps every earlier object, name, flag and overwrite name |
| `Intake.AddObjectProgress` | bartleby/lib/Bartleby/Bartleby.cpp:158-168 | adding an object only extends the handle and keeps all its objects of the one recorded format |
| `Intake.ChildStepProgress` | bartleby/lib/Bartleby/Bartleby.cpp:171-203 | an archive member is accepted exactly when it reads as an object of a matching format; it is then appended under its own or a generated name; otherwise nothing changes |
| `Intake.ArchiveChildrenProgress` | bartleby/lib/Bartleby/Bartleby.cpp:169-204 | an archive only extends the handle and keeps all its objects of one format |
| `Intake.ArchiveChildrenOk` | bartleby/lib/Bartleby/Bartleby.cpp:171-204 | an archive is accepted exactly when every member is an object, each matches the handle's format, and all share one format |
| `Intake.ArchiveChildrenObjects` | bartleby/lib/Bartleby/Bartleby.cpp:187-196 | after an accepted archive, its members are the new objects, in order, each under its own name or the generated one |
| `Intake.ArchiveChildrenNoRollback` | bartleby/lib/Bartleby/Bartleby.cpp:173-183 | when a later member fails, what the earlier members added stays in the handle |
| `Intake.FatArchiveChildrenProgress` | bartleby/lib/Bartleby/Bartleby.cpp:308-337 | the members of an archive slice only extend the handle, keep its format set, and never end the process |
| `Intake.SliceStepProgress` | bartleby/lib/Bartleby/Bartleby.cpp:286-338 | one slice only extends the handle and keeps its format set |
| `Intake.AddSlicesProgress` | bartleby/lib/Bartleby/Bartleby.cpp:286-339 | all slices together only extend the handle and keep its format set |
| `Intake.FatArchiveChildrenOk` | bartleby/lib/Bartleby/Bartleby.cpp:311-337 | the members of an archive slice are accepted exactly when every one reads as a Mach-O object |
| `Intake.SliceStepOk` | bartleby/lib/Bartleby/Bartleby.cpp:286-338 | a slice is accepted exactly when its triple is in the format set and, for an archive slice, every member is a Mach-O object; a slice whose triple is outside the set is refused with "unexpected triple … in fat Mach-O" and changes nothing |
| `Intake.AddSlicesOk` | bartleby/lib/Bartleby/Bartleby.cpp:286-339 | the slices are accepted exactly when every slice is acceptable |
| `Intake.AddMachOUniversalBinaryOk` | bartleby/lib/Bartleby/Bartleby.cpp:256-343 | a fat Mach-O is accepted exactly when the handle has no single format, a recorded set has as many formats as the input has slices, and every slice is acceptable against that set (on a fresh handle, against the input's own formats, which every slice's triple is in) |
| `Intake.AddMachOUniversalBinaryProgress` | bartleby/lib/Bartleby/Bartleby.cpp:256-343 | a fat Mach-O is refused without change when one format is recorded, or when the recorded format set's size differs from its slice count; a fresh handle records its slices' format set; the binary is retained exactly on success; the process never ends |
| `Intake.AddBinaryProgress` | bartleby/lib/Bartleby/Bartleby.cpp:153-216 | adding a binary never removes or renames anything, retains the binary exactly when it succeeds, and keeps the handle consistent |
| `Intake.AddBinaryFormat` | bartleby/lib/Bartleby/Bartleby.cpp:262-284 | the handle becomes fat only through a fat input on a fresh handle, whose slice formats it keeps even if the rest fails; a recorded format never changes |
| `Intake.AddBinaryTerminates` | bartleby/lib/Bartleby/Bartleby.cpp:160-162 | only a fat handle can end the process (the variant access throws inside `noexcept`): an object given to it always does; an archive does exactly when its first member reads as an object, while an empty archive is accepted and an unreadable or non-object first member gives an error |
| `Intake.NoTerminationOutsideFat` | bartleby/lib/Bartleby/Bartleby.cpp:179-182 | the members of an archive never end the process on a handle that is not fat |
| `Bartleby.Bartleby.constructor` | bartleby/include/Bartleby/Bartleby.h:91-92 | an empty handle: no symbols, objects or binaries, and no format |
| `Bartleby.Bartleby.MergeSymbol` | bartleby/lib/Bartleby/Bartleby.cpp:120-121 | the symbol map afterwards is `MergeOne` of the old one; a new name gets its own fresh record |
| `Bartleby.Bartleby.ProcessObjectFile` | bartleby/lib/Bartleby/Bartleby.cpp:106-123 | the symbol map afterwards is the old one with every symbol of the object merged in order |
| `Bartleby.Bartleby.AddObjectFile` | bartleby/lib/Bartleby/Bartleby.cpp:186-196 | the handle afterwards has the object's symbols merged and the object appended |
| `Bartleby.Bartleby.PrefixSymbol` | bartleby/lib/Bartleby/Bartleby.cpp:223-239 | one entry is renamed exactly when it is global and defined; no other entry changes |
| `Bartleby.Bartleby.PrefixGlobalAndDefinedSymbols` | bartleby/lib/Bartleby/Bartleby.cpp:219-243 | the symbol map afterwards is `PrefixedTable` of the old one, and the result is the number of global and defined symbols |
| `Bartleby.Bartleby.AddArchiveChild` | bartleby/lib/Bartleby/Bartleby.cpp:172-203 | the handle and outcome afterwards are those `ChildStep` gives |
| `Bartleby.Bartleby.AddFatArchiveChild` | bartleby/lib/Bartleby/Bartleby.cpp:312-336 | the handle and outcome afterwards are those `FatChildStep` gives |
| `Bartleby.Bartleby.AddFatArchiveChildren` | bartleby/lib/Bartleby/Bartleby.cpp:311-337 | the handle and outcome afterwards are those `FatArchiveChildren` gives |
| `Bartleby.Bartleby.AddSlice` | bartleby/lib/Bartleby/Bartleby.cpp:287-338 | the handle and outcome afterwards are those `SliceStep` gives |
| `Bartleby.Bartleby.AddSlices` | bartleby/lib/Bartleby/Bartleby.cpp:286-339 | the handle and outcome afterwards are those `Intake.AddSlices` gives |
| `Bartleby.Bartleby.AddMachOUniversalBinary` | bartleby/lib/Bartleby/Bartleby.cpp:256-343 | the handle and outcome afterwards are those `Intake.AddMachOUniversalBinary` gives |
| `Bartleby.Bartleby.AddBinary` | bartleby/lib/Bartleby/Bartleby.cpp:153-216 | the handle and outcome afterwards are those `Intake.AddBinary` gives |
| `Bartleby.CollectSliceFormats` | bartleby/lib/Bartleby/Bartleby.cpp:278-284 | the set built is exactly the set of the slices' formats |
| `ArchiveWriter.ObjCopyObjectsInOrder` | bartleby/lib/Bartleby/ArchiveWriter.cpp:283-297 | one member per object, in order, holding the rewritten object under the object's name; on the first objcopy failure that error is the result and no later object has a member |
| `ArchiveWriter.GroupedArchives` | bartleby/lib/Bartleby/ArchiveWriter.cpp:99-116 | corrected: there is an archive for a format exactly when an object has it; its members are that format's objects in order, each under its triple text; its triple and alignment are the last such object's; success means objcopy succeeded on every object |
| `ArchiveWriter.GroupedFormats` | bartleby/lib/Bartleby/ArchiveWriter.cpp:109-112 | each archive has as many members as objects of its format, and at least one |
| `ArchiveWriter.SliceFor` | bartleby/lib/Bartleby/ArchiveWriter.cpp:119-144 | a slice holds the written archive, the CPU type and subtype of the archive's triple, the triple text and the alignment |
| `ArchiveWriter.FatSlicesSpec` | bartleby/lib/Bartleby/ArchiveWriter.cpp:118-147 | on success there is one slice per archive visited, in visiting order, each built from its archive |
| `ArchiveWriter.MemberNamesDangle` | bartleby/lib/Bartleby/ArchiveWriter.cpp:109-115 | as written: in each archive only the last member's name views the string the archive still owns; every earlier member views a released one |
| `ArchiveWriter.MemberNameViewsOfGrouped` | bartleby/lib/Bartleby/ArchiveWriter.cpp:98-114 | the name views as written are those of the archives the fat path builds: one entry per archive, one view per member |
| `ArchiveWriter.TwoObjectsOneFormat` | bartleby/lib/Bartleby/ArchiveWriter.cpp:112-115 | as written: with two objects of one format, the first member's name is already released |
| `ArchiveWriter.ArchiveWriter.constructor` | bartleby/lib/Bartleby/ArchiveWriter.cpp:65-76 | the writer's rename map is `RenameMap` of the handle's symbol map, whatever order the map is visited in |
| `ArchiveWriter.ArchiveWriter.ExecuteObjCopyOnObjects` | bartleby/lib/Bartleby/ArchiveWriter.cpp:283-297 | the members appended and the error returned are those of the fail-fast objcopy run |
| `ArchiveWriter.ArchiveWriter.GroupObjects` | bartleby/lib/Bartleby/ArchiveWriter.cpp:99-116 | the archives built are `Grouped` of the handle's objects |
| `ArchiveWriter.ArchiveWriter.MakeSlices` | bartleby/lib/Bartleby/ArchiveWriter.cpp:118-147 | the slices are those of the archives in some order without repeats, covering every archive unless a slice failed |
| `ArchiveWriter.ArchiveWriter.BuildMachOUniversalBinary` | bartleby/lib/Bartleby/ArchiveWriter.cpp:170-188 | the first objcopy error, or the universal binary written from the slices, for some order of the archives |
| `ArchiveWriter.ArchiveWriter.Build` | bartleby/lib/Bartleby/ArchiveWriter.cpp:214-229 | the fat build exactly when the handle holds a format set, otherwise the archive of the copied members or the first objcopy error |
| `ArchiveWriter.BuildFinalArchive` | bartleby/lib/Bartleby/ArchiveWriter.cpp:331-335 | the result is the one of a writer built from the handle: the fat build for a fat handle, the plain archive otherwise |
| `CApi.BartlebyHandle.constructor` | bartleby/lib/Bartleby/Bartleby-c.cpp:47 | a new C handle wraps a fresh, empty handle |
| `CApi.Free` | bartleby/lib/Bartleby/Bartleby-c.cpp:49 | a non-null handle is released; null is accepted |
| `CApi.SetPrefix` | bartleby/lib/Bartleby/Bartleby-c.cpp:51-63 | `EINVAL` for a null handle or prefix, else 0; with both present the symbol map is prefixed, otherwise it is unchanged |
| `CApi.AddBinaryCallSpec` | bartleby/lib/Bartleby/Bartleby-c.cpp:65-93 | 0 exactly when the buffer is present, non-empty, parses as an object and matches the handle's format; the object is then appended under the next generated name; any other call returns `EINVAL` and changes nothing; the call never ends the process or makes the handle fat |
| `CApi.AddBinary` | bartleby/lib/Bartleby/Bartleby-c.cpp:65-93 | `EINVAL` for a null handle; otherwise the status and the new handle state are those `AddBinaryCall` gives |
| `CApi.BuildArchive` | bartleby/lib/Bartleby/Bartleby-c.cpp:95-124 | the handle is released on every path; `EINVAL` for a null pointer or a failed build; `*s` is cleared before `n` is checked and `*n` before the build; on success `*n` is the size and `*s` the archive, or `ENOMEM` when `malloc` fails, with `*n` still set |
| `Scenarios.FirstObjectTable` | bartleby/tests/Bartleby/Tests.cpp:240-261 | after the first object, the local definition is defined and local, the global one defined and global, the undefined global undefined and global, the weak symbol neither; the file symbol is skipped |
| `Scenarios.FirstPrefix` | bartleby/tests/Bartleby/Tests.cpp:263-268 | the first pass renames only the defined global |
| `Scenarios.SecondObjectTable` | bartleby/tests/Bartleby/Tests.cpp:270-284 | the second object makes the undefined global defined and changes no other flag |
| `Scenarios.SecondPrefix` | bartleby/tests/Bartleby/Tests.cpp:286-291 | the second pass renames both defined globals, the first one again to the same name |
| `Scenarios.ThirdRenameMap` | bartleby/tests/Bartleby/Tests.cpp:293-316 | objcopy receives exactly the two prefixed names; the local and the weak symbol keep theirs |
| `Scenarios.Object386` | bartleby/tests/Bartleby/Tests.cpp:240-291 | the whole scenario from an empty map: both objects, both passes, and the final rename map |
| `Scenarios.ObjectTypeMismatch` | bartleby/tests/Bartleby/Tests.cpp:321-334 | a Mach-O object then an ELF object: the second is refused with the mismatch error naming both formats, and the handle is unchanged |

## Left out

- LLVM itself is not modelled. Object parsing, archive reading, objcopy,
  the archive and universal-binary writers and the Mach-O CPU type lookups
  are inputs (`Binaries`) or `Toolchain` functions. The model states how
  the library calls them and combines their results, not what bytes they
  produce.
- The `SymbolRef` kept inside `SymbolInfo`, `Symbol::getReferences` (declared
  but not defined in these sources), `getSymbols`, and the move-only
  constructors and assignments are not modelled. They carry no behaviour
  the rest depends on.
- The `LLVM_DEBUG` output and the `assert`s are not modelled. The `assert` in
  the fat writer (`ObjFmtSet.count(Triple) == 1`) holds for every handle the
  library can build and has no effect in release builds.
- `buildFinalArchive(B, OutFilepath)` and the file-writing `build` and
  `buildMachOUniversalBinary` overloads are not modelled. They differ from the
  in-memory ones only in where the bytes go.
- The order of the fat Mach-O's slices is not modelled. It is the iteration
  order of an `unordered_map`. `MakeSlices` only guarantees some order
  without repeats that covers every archive.
- The handle's `OwnedBinaries` are modelled as a list of the retained
  binaries. Ownership and lifetimes are not modelled, apart from the
  member-name finding below.
- `malloc` and `memcpy` in `saq_bartleby_build_archive` are reduced to a
  boolean that says whether `malloc` succeeded. `createObjectFile` is a
  parser given as a parameter. The C strings, buffers and sizes are
  sequences.
- The process end caused by `std::get<ObjectFormat>` on a format set
  inside a `noexcept` function is modelled as the outcome `Terminated`. It
  is not modelled as an exception.
- The fat path takes archive members inside a slice without checking
  their format against the format set. It also skips a slice that is
  neither an object nor an archive. The model does the same and proves
  nothing beyond it.
- ArchiveWriter.ArchiveWriter.Build: requires at least one object on
  the plain path, because the source reads the first member of the
  member list to detect the archive kind. With no objects that read is
  out of bounds and undefined.
- ArchiveWriter.BuildFinalArchive: requires at least one object on the
  plain path, for the same reason.
- CApi.BuildArchive: requires a handle with at least one object when
  both out-pointers are non-null (the only path that builds), for the
  same reason. It does not model a handle holding a format set,
  because the C interface only ever adds object files.
- CApi.SetPrefix: does not state the count the prefixing pass returns,
  because the C function discards it.
- The Rust crate around the library (`lib.rs`, `build.rs`), the
  command-line tool and the examples are not part of this model.

## Findings

| source | as written | input that shows it | evidently intended | confidence | as-written member | corrected member |
|---|---|---|---|---|---|---|
| bartleby/lib/Bartleby/Error.cpp:27-44 | `log` prints `message()` and then prints the reason's text again | an `UnsupportedBinaryReason` with text `m` logs `"error while reading binary: " + m + m`; a mismatch logs "expected A, got B" twice | the log is the message, printed once | medium, not executed | `Errors.Log`, `Errors.LogTextUnsupported`, `Errors.LogTextMismatch` | `Errors.LogCorrected` |
| bartleby/lib/Bartleby/ArchiveWriter.cpp:109-115 | each object of a format replaces the archive's `Name` string, and every member's `MemberName` views the string current when the member was appended | two objects with the same triple in a fat Mach-O handle: the first member's name views a string already released | each member's name stays valid, the triple text, until the archive is written | high, not executed | `ArchiveWriter.MemberNamesDangle`, `ArchiveWriter.TwoObjectsOneFormat` | `ArchiveWriter.GroupedArchives` |
