# opendal-util: a verified model of the copy and listing engine

opendal-util is a small Rust library over opendal. opendal gives a uniform
key/value storage API over many backends. The library adds four things:

- a **glob-aware lister**. It lists a path; a glob pattern is listed
  recursively under its literal directory prefix and filtered by the pattern.
- a **copier**. It copies a file or a directory tree from one store to
  another. It normalises both paths, decides file or directory from the source
  store's `stat`, and creates each missing parent directory once.
- an **older copier** (`copy2`). It is kept in the repository and behaves
  differently in observable ways.
- a **mapping** from storage errors to the errors a durable-execution
  handler returns.

This project models each of these in Dafny and proves properties of the model.

Module layout:

- `Wrappers`, `Errors`: `Option`; the storage error kinds; `Result`; the
  conversion of stream errors into storage errors.
- `Paths`: a lexical model of Unix paths.
  - Splitting and joining on `/`.
  - The component view (root, `.`, `..`, names).
  - `file_name`, `parent`, `join`, `strip_prefix`.
  - The copier's `normalize_path`, written both as the function `Normalized`
    and as a method.
- `PathExamples`: the `normalize_path` test table of the copier, proved once
  for all names of the same shape.
- `Storage`: the storage interface the engine relies on.
  - A source `Store`: nodes, listings and injected faults.
  - The destination as a `Destination` class. It updates its nodes and a log
    of the calls made on it; its operations are `stat`, `create_dir`,
    `writer_with`, `write` and `close`.
  - All destination operations are also given as step functions on a
    `DestState`.
- `Glob`: `has_glob_chars` and `literal_prefix`, the latter as a method with
  a loop, proved against the function `LiteralPrefixOf`.
- `List`: `list`, `list_glob`, and the lazy `lister` that the copier uses.
- `Transfer`: `do_copy_file`, a method with the chunk loop, proved against
  `TransferSpec`. It also holds the name a source takes inside a directory.
- `Copy`: the current copier.
  - A `Copier` class whose methods are proved against specification functions
    (`CopyImplSpec`, `CopyDirSpec`, `CopyFileSpec`).
  - The directory copy is a loop over the listing that keeps its set of
    created directories.
- `CopyLaws`, `CopyRules`: properties of the current copier.
  - No directory is created twice.
  - Directory keys survive copies.
  - Where a file lands.
  - Normalisation invariance.
  - Scenarios from the copier's tests.
- `Copy2`, `Copy2Laws`: the older copier and its contrasts with the current
  one.
- `Restate`: `to_restate_error`.

## Model

| member | source | states |
|---|---|---|
| Glob.HasGlobChars | src/glob.rs:21-23 | true exactly when some character of the string is `*`, `?`, `[` or `{` |
| Glob.FirstGlob | src/glob.rs:5-12 | index of the first piece holding a glob character; every earlier piece is glob-free; it is the number of pieces when none holds one |
| Glob.LiteralPrefix | src/glob.rs:1-19 | the loop over the `/`-pieces returns `LiteralPrefixOf(pattern)`: the pieces before the first glob piece, joined with `/`, or nothing when no piece holds a glob character |
| Glob.LiteralPrefixNoneIff | src/glob.rs:5-18 | there is no literal prefix exactly when the pattern holds no glob character |
| Glob.LiteralPrefixIsPrefix | src/glob.rs:5-15 | a literal prefix is a string prefix of the pattern; it holds no glob character; the rest of the pattern holds one; the prefix is empty or followed by `/` |
| Glob.LiteralPrefixOfJoin | src/glob.rs:5-15 | for glob-free pieces, then a glob piece, then anything, the prefix is the join of the glob-free pieces |
| Glob.LiteralPrefixOfGlobFree | src/glob.rs:14-18 | glob-free pieces give no prefix |
| Glob.PrefixAtFourth | src/glob.rs:32 | `a/b/c/g/e` with `g` the first glob piece has the prefix `a/b/c` (row 1 of the test table) |
| Glob.PrefixAtThird | src/glob.rs:33-34 | `a/b/g/d/e` with `g` the first glob piece has the prefix `a/b` |
| Glob.PrefixAtLast | src/glob.rs:35 | `a/b/c/g` with `g` the first glob piece has the prefix `a/b/c` |
| Glob.NoPrefixOfFour | src/glob.rs:36 | four glob-free pieces give no prefix |
| Glob.LiteralPrefixTablePieces | src/glob.rs:30-43 | which pieces of the test table hold glob characters and which do not |
| List.GlobOptions | src/list.rs:36-37 | the caller's options, or the defaults, with `recursive` set |
| List.KeepMembers | src/list.rs:44-53 | an entry is kept exactly when it is listed and the pattern matches its path |
| List.KeepConcat | src/list.rs:47-51 | filtering keeps the listing's order (it distributes over concatenation) |
| List.KeepAllOrNone | src/list.rs:47-51 | if every entry matches, nothing is dropped; if none matches, nothing is kept |
| List.KeepShrinks | src/list.rs:47-51 | filtering never adds entries |
| List.ListIsCollectedLister | src/list.rs:7-27 | `list` yields exactly what collecting the lazy `lister` yields, on every input |
| List.ListRoutesPatterns | src/list.rs:12-14 | a path with a glob character has a literal prefix and goes to `list_glob` with that prefix and the whole pattern |
| List.ListPlain | src/list.rs:16-26 | a glob-free path is listed with the caller's options or the defaults and collected, unfiltered |
| List.ListGlobInvalid | src/list.rs:40-42 | a pattern that does not compile fails with `Unexpected` before anything is listed |
| List.ListGlobResult | src/list.rs:36-53 | a valid pattern gives the recursive listing under the prefix, filtered by the pattern; an opening error or an end error is passed on |
| List.GlobListingIgnoresRecursion | src/list.rs:36-37 | the caller's `recursive` flag does not change a glob listing |
| List.PlainScenario | src/list.rs:64-97 | a glob-free path whose backend listing is `es` lists as exactly `es`, in order |
| List.GlobScenario | src/list.rs:99-113 | `a/**/f` lists `a` recursively and keeps, in order, the entries the pattern matches |
| Paths.Split | src/glob.rs:5 | `split('/')` yields at least one piece |
| Paths.JoinSplit | src/glob.rs:5-15 | joining the pieces of a split gives back the string |
| Paths.SplitJoin | src/glob.rs:5-15 | splitting a join of separator-free pieces gives back the pieces |
| Paths.TrimLeadingSlashes | src/copy.rs:220 | the result is the longest suffix that does not start with `/`; only `/` characters are dropped |
| Paths.NormalizePath | src/copy.rs:214-228 | the method returns `Normalized(path)`; the result ends with `/` exactly when the input does; it starts with `/` only when it is `/` |
| Paths.NormalizedNames | src/copy.rs:215-225 | the normal form is the resolved names joined with `/`, plus the input's trailing separator |
| Paths.NormalizedOfNames | src/copy.rs:546-560 | a path made of proper names, with or without a trailing separator, is its own normal form |
| Paths.NormalizedIdempotent | src/copy.rs:214-228 | normalising twice is normalising once |
| Paths.NormalizedEnds | src/copy.rs:215-225 | a trailing separator is kept exactly when present; a normal form that starts with `/` is `/` |
| Paths.NormalizedPieces | src/copy.rs:217-221 | no piece of a normal form is `.` or `..`, and there are no empty inner pieces |
| Paths.SameNormalization | src/copy.rs:217-218 | paths with the same components and the same trailing separator normalise alike |
| Paths.SameResolution | src/copy.rs:217-218 | paths with the same resolved components and the same trailing separator normalise alike |
| Paths.NormalizeDropsDot | src/copy.rs:570-575 | `a/./b` normalises as `a/b` |
| Paths.NormalizeResolvesParent | src/copy.rs:577-585 | `a/n/../b` normalises as `a/b` |
| Paths.NormalizeCollapsesSlashes | src/copy.rs:587-595 | `a//b` normalises as `a/b` |
| Paths.NormalizeStripsRoot | src/copy.rs:562-568 | `/b` normalises as `b` |
| Paths.FileNameOfJoin | src/copy.rs:145 | a name joined onto a base is the file name of the result |
| Paths.CompsTrailingSlash | src/copy.rs:108-109 | `p/` and `p` have the same components, so the destination `dest/` counts as the created `dest` |
| PathExamples.NormalizedTwo | src/copy.rs:546-549 | `d/f` and `d/` are their own normal forms |
| PathExamples.NormalizedThree | src/copy.rs:552-559 | `d/s/f` and `d/s/` are their own normal forms |
| PathExamples.LeadingSlashExample | src/copy.rs:562-567 | `/n1/…/nk`, with or without a trailing separator, loses its leading separator |
| PathExamples.DotExample | src/copy.rs:570-574 | `d/./f` normalises to `d/f`, and `d/./` to `d/` |
| PathExamples.ParentExample | src/copy.rs:577-584 | `d/s/../f` normalises to `d/f`, and `d/s/../` to `d/` |
| PathExamples.SlashesExample | src/copy.rs:587-594 | `d//s//f` normalises to `d/s/f`, and `d//s//` to `d/s/` |
| PathExamples.ComplexExample | src/copy.rs:597-604 | `/d/./s/../a//f` normalises to `d/a/f`, and `/d/./s/../a//` to `d/a/` |
| PathExamples.EmptyExample | src/copy.rs:607 | `""` normalises to `""` |
| PathExamples.RootExample | src/copy.rs:608 | `/` normalises to `/` |
| PathExamples.DotOnlyExample | src/copy.rs:609 | `.` normalises to `""` |
| PathExamples.DotDirExample | src/copy.rs:610 | `./` normalises to `/` |
| PathExamples.ParentOnlyExample | src/copy.rs:611 | `..` normalises to `""` |
| PathExamples.ParentDirExample | src/copy.rs:612 | `../` normalises to `/` |
| Errors.IntoError | src/copy.rs:234-247 | each of the five io kinds `NotFound`, `PermissionDenied`, `AlreadyExists`, `IsADirectory`, `NotADirectory` maps to the storage kind of the same name; every other io kind, and only those, maps to `Unexpected` (the table at src/copy2.rs:249-261 is identical) |
| Errors.IntoErrorInjectiveOnCounterparts | src/copy.rs:236-241 | distinct io kinds with a storage counterpart never map to the same storage kind |
| Transfer.SourceName | src/copy.rs:199-209 | the source's last path component, else its content-disposition file name, else `Unexpected`; it fails exactly when both are missing (`source_filename` at src/copy2.rs:234-243 is the same) |
| Transfer.DoCopyFile | src/copy.rs:166-185 | the method does what `TransferSpec` says: reader, writer with the content type, byte stream, one write per chunk, the stream's error, close (the same holds for src/copy2.rs:135-160 and 207-231) |
| Transfer.WriteAllOk | src/copy.rs:177-180 | the chunk loop succeeds exactly when every write is accepted; it then logs one write per chunk, in order, and keeps the stored nodes |
| Transfer.WriteAllErrLog | src/copy.rs:177-180 | a refused write ends the loop, after writes for the chunks before it |
| Transfer.WriteAllKeepsNodes | src/copy.rs:177-180 | writing chunks stores nothing before the close |
| Transfer.TransferOk | src/copy.rs:166-185 | a successful copy stores the source's chunks under the target's key with the source's content type; it logs one open, the writes in stream order and one close after them |
| Transfer.TransferSucceedsIff | src/copy.rs:166-185 | a copy succeeds exactly when the source is a readable file whose stream ends cleanly and the destination accepts the writer, every write and the close |
| Transfer.TransferErrKeepsNodes | src/copy.rs:166-185 | a failed copy stores nothing |
| Transfer.TransferKeepsDirKeys | src/copy.rs:166-185 | a copy never replaces what is stored under a directory key |
| Transfer.TransferCreatesNoDirs | src/copy.rs:166-185 | a copy only appends to the log, and never a `create_dir` |
| Transfer.TransferAdded | src/copy.rs:166-185 | the calls a copy appends to the log include no `create_dir` |
| Copy.Copier.constructor | src/copy.rs:37-42 | the copier holds the given source, destination and glob library |
| Copy.Copier.Copy | src/copy.rs:44-46 | `copy` is `copy_impl` without recursion (a file source goes to the corrected file copy, see Findings) |
| Copy.Copier.CopyRecursive | src/copy.rs:48-50 | `copy_recursive` is `copy_impl` with recursion (a file source goes to the corrected file copy, see Findings) |
| Copy.Copier.CopyImpl | src/copy.rs:52-69 | the method's outcome and new destination state are `CopyImplSpec`'s (with the corrected file copy, see Findings) |
| Copy.CopyImplSpec | src/copy.rs:58-68 | both paths are normalised; a source `stat` error is passed on with the destination untouched; an unknown entry mode is `Unsupported`; the directory and file branches are stated by `CopyRules.CopyImplOfDir` and `CopyRules.CopyImplOfFile` |
| Copy.Copier.CopyDir | src/copy.rs:71-141 | the loop over the listing gives `CopyDirSpec`'s outcome and state; its invariant ties the remaining entries and the created set to the specification |
| Copy.CopyDirSpec | src/copy.rs:77-92 | a destination that is a file is `NotADirectory`; any other `stat` error except `NotFound` is passed on; in both cases the destination is untouched |
| Copy.CopyListed | src/copy.rs:103-140 | a listing error is passed on, with the destination as it was after its creation |
| Copy.Copier.PlaceFile | src/copy.rs:122-137 | one file entry: its parent is created unless already known, then the file is copied (`PlaceEntry`) |
| Copy.Copier.CopyFile | src/copy.rs:143-161 | the method's outcome and new state are `CopyFileSpec`'s, with the parent created as a directory (see Findings) |
| CopyLaws.EnsureParentAdded | src/copy.rs:124-130 | ensuring a parent creates at most one directory, only one not yet known, and records it |
| CopyLaws.PlaceCreates | src/copy.rs:122-137 | copying one file entry creates at most one new directory |
| CopyLaws.CopyOneCreates | src/copy.rs:111-137 | one loop step creates at most one directory, not yet known, and records it on success |
| CopyLaws.CopyEntriesCreatesOnce | src/copy.rs:105-138 | the whole loop creates pairwise distinct directories, none known before; on success they are exactly the newly known ones |
| CopyLaws.CopyOneKeepsDirs | src/copy.rs:111-137 | one step keeps every directory key |
| CopyLaws.CopyEntriesKeepsDirs | src/copy.rs:111-138 | the loop keeps every directory key |
| CopyLaws.CopyOneOutsideSource | src/copy.rs:116-121 | an entry whose path does not lie under the source ends the step with `Unexpected`, touching nothing |
| CopyLaws.CopyOneLands | src/copy.rs:116-137 | a successful file step stores the source's chunks at the destination joined with the entry's path relative to the source |
| CopyLaws.CopyEntriesSkipsDirs | src/copy.rs:112-114 | directory entries do not affect the loop: it behaves as on the non-directory entries alone |
| CopyLaws.CopyEntriesConcat | src/copy.rs:111-138 | the loop over `a + b` is the loop over `a`, then over `b` unless `a` failed: the first error ends the copy |
| CopyRules.CopyImplNormalizes | src/copy.rs:58-59 | copying between normalised paths is copying between the paths themselves |
| CopyRules.CopyImplOfDir | src/copy.rs:58-65 | a directory source goes to the directory copy with the normalised paths and the same recursion flag |
| CopyRules.CopyImplOfFile | src/copy.rs:58-66 | a file source goes to the file copy (the corrected one, see Findings) with the normalised paths |
| CopyRules.CopyDirListsByRecursion | src/copy.rs:95-103 | into an existing directory, the source is listed with recursive default options exactly when the copy is recursive, and with no options otherwise |
| CopyRules.CopyDirListsByRecursionMissing | src/copy.rs:85-103 | the same for a missing destination, once it has been created |
| CopyRules.CopyFileLands | src/copy.rs:143-161 | a successful file copy stores the source's chunks at the destination, or inside it under the source's name when it is a directory; only an existing or missing destination gets there |
| CopyRules.CopyFileCreatesParent | src/copy.rs:147-153 | for a missing destination, the parent is created as a directory first and stays one |
| CopyRules.CopyFileAsWrittenRefusesMissingParent | src/copy.rs:149-151 | as written, copying to a missing `d/n` calls `create_dir("d")`, which is refused with `NotADirectory` |
| CopyRules.CopyFileSpecCreatesMissingParent | src/copy.rs:147-160 | with the parent passed as `d/`, copying a clean file to a missing `d/n` succeeds, creates `d/` and stores the file |
| CopyRules.TransferCleanly | src/copy.rs:166-185 | with no faults, a readable file whose stream ends cleanly copies to any file key |
| CopyRules.CopyFileToRoot | src/copy.rs:143-161 | a file copied to the empty destination, the root directory, lands at its own name |
| CopyRules.CopyFileIntoRootScenario | src/copy.rs:256-272 | (through the corrected file copy, which agrees with the code as written here, since the root needs no parent) `a/b/n` copied to `""` succeeds and stores exactly one new node, at `n`, with the source's chunks |
| CopyRules.CopyDirMakesDestination | src/copy.rs:85-90 | a missing destination `x/` is created first, as `x//`, which names the same key, and it still exists after the copy |
| CopyRules.EmptyDirectoryScenario | src/copy.rs:462-481 | an empty `a/` copied to a missing `b/` succeeds, creates `b/` and does nothing else |
| CopyRules.DirNameNormal | src/copy.rs:462-481 | `a/` for a proper name is its own normal form and its own key |
| CopyRules.CopyListedCreates | src/copy.rs:105-138 | after the destination exists, the loop creates distinct directories, never the destination |
| CopyRules.CopyDirCreatesOnceExisting | src/copy.rs:84-138 | into an existing directory, no directory is created twice |
| CopyRules.CopyDirCreatesOnceMissing | src/copy.rs:85-138 | into a missing directory, the destination is created first, and the loop never creates it again |
| CopyRules.CopyDirCreatesOnce | src/copy.rs:71-141 | a directory copy never calls `create_dir` twice for the same directory |
| Copy2.IntoDirectory | src/copy2.rs:90-111 | inside a directory, the source goes to the directory joined with its last component, else to its bare content-disposition name; it fails with `Unexpected` exactly when both are missing |
| Copy2.CopySpec | src/copy2.rs:15-23 | a source `stat` error is passed on; an unknown mode is `Unsupported`; the destination is untouched in both; the directory and file branches are stated by `Copy2Laws.CopySpecOfDir` and `Copy2Laws.CopySpecOfFile` |
| Copy2.Copy | src/copy2.rs:8-24 | the free `copy` has `CopySpec`'s outcome and state |
| Copy2.CopyDirSpec | src/copy2.rs:56-65 | a directory copied onto a non-directory is `Unexpected`, with the destination untouched |
| Copy2.CopyDir | src/copy2.rs:26-80 | the free `copy_dir` has `CopyDirSpec`'s outcome and state |
| Copy2.Resolve | src/copy2.rs:89-120 | the target of the free functions: inside an existing directory; an existing file refused or overwritten; a missing path as given; other `stat` errors passed on |
| Copy2.CopyFile | src/copy2.rs:82-130 | the free `copy_file` has `CopyFileSpec`'s outcome and state |
| Copy2.CopierCopySpec | src/copy2.rs:168-178 | `Copier::copy` copies only files; any other mode is `Unsupported`; a `stat` error is passed on |
| Copy2.Copier.constructor | src/copy2.rs:162-165 | the copier holds the given source and destination |
| Copy2.Copier.Copy | src/copy2.rs:168-178 | the method has `CopierCopySpec`'s outcome and state |
| Copy2.Copier.CopyFile | src/copy2.rs:180-202 | the method has `CopierCopyFileSpec`'s outcome and state |
| Copy2Laws.CopySpecOfDir | src/copy2.rs:15-18 | a directory source goes to the free `copy_dir` with its metadata |
| Copy2Laws.CopySpecOfFile | src/copy2.rs:15-19 | a file source goes to the free `copy_file` with its metadata |
| Copy2Laws.DirOntoFileContrast | src/copy2.rs:56-65 | a directory onto a file is `Unexpected` in the older copier and `NotADirectory` in the current one; neither touches the destination |
| Copy2Laws.DirOntoFileStatus | src/restate.rs:6-15 | reported as permanent, those refusals end a handler with 500 and 422 |
| Copy2Laws.CopyCreatesNoDirs | src/copy2.rs:82-130 | the free `copy` never calls `create_dir`, not even for a missing parent |
| Copy2Laws.CopierCopyCreatesNoDirs | src/copy2.rs:168-202 | `Copier::copy` never calls `create_dir` |
| Copy2Laws.CopyOfDirectoryStoresNothing | src/copy2.rs:26-80 | copying a directory source fails and stores nothing, since a directory is not a byte stream |
| Copy2Laws.DispositionNameContrast | src/copy2.rs:97-101 | a source known only by its content-disposition name lands at the bare name in the free `copy_file`, and inside the directory in `Copier::copy_file` |
| Copy2Laws.MissingDestinationIsWrittenAsIs | src/copy2.rs:116-129 | a missing destination is written as given, in one transfer, with no parent created |
| Restate.StatusCode | src/restate.rs:6-15 | the code of each kind: 501 `Unsupported`, 400 `ConfigInvalid`, 404 `NotFound`, 403 `PermissionDenied`, 422 `IsADirectory`/`NotADirectory`, 409 `AlreadyExists`, 500 otherwise; each code only for those kinds |
| Restate.ToRestateError | src/restate.rs:4-21 | a permanent error is terminal with its kind's code; any other error is retryable and keeps its kind |
| Restate.StatusCodeClasses | src/restate.rs:6-15 | every code is between 400 and 501; it is a 4xx exactly for the path and configuration kinds |
| Restate.StatusCodeCollisions | src/restate.rs:11-12 | two kinds with their own code share it only when both concern a path's kind (`IsADirectory`, `NotADirectory`) |

## Left out

- I/O, `async` and streaming are modelled as values. A source stream is its chunk sequence plus how it ends; a listing is its entry sequence plus how it ends. Concurrency and cancellation are not modelled.
- The glob library (`globset`) is modelled as two functions given to the model: whether a pattern compiles, and whether a compiled pattern matches a path. Its matching semantics are not modelled.
- Content-disposition parsing is an optional file name in the metadata.
- `typed_path` is replaced by a lexical model of its own: split on `/`, components, `join`, `parent`, `file_name`, `strip_prefix`, `normalize`. Its non-UTF-8 and Windows paths are not modelled.
- `Lister` (the lazy `crate::list::lister` the copier calls at src/copy.rs:103) is not defined in src/list.rs. It is modelled as the lazy counterpart of `list` with the same routing, and `List.ListIsCollectedLister` ties the two together.
- The storage backend (opendal's operator and the `Memory` service of the tests) is an abstract model. It covers key canonicalisation, `create_dir` demanding a trailing `/`, writers refusing directory keys, and readers refusing directories. Backend listing behaviour is a hypothesis of the test scenarios, not derived.
- Error messages, contexts and source chains are not modelled; only error kinds are.
- `Restate.ToRestateError`: whether an error is permanent (`is_permanent`, src/restate.rs:20) is an input, because it is decided inside opendal.
- Aliasing of the source and destination stores is not modelled; they are separate values.
- src/factory.rs and src/location.rs are not part of this model. src/lib.rs is not part of this model beyond noting that it does not declare `copy2`: src/copy2.rs is not compiled into the crate, but it is modelled as written.
- The free `copy` and `copy_recursive` functions (src/copy.rs:9-29) only build a `Copier` and call it. They are covered by the `Copier` methods and have no members of their own.
- `Copy2.CopierCopyFileSpec` and `Copy2.CopyFileSpec` have no ensures of their own: `Copy2Laws` states their properties.
- Transfer.TransferErrKeepsNodes, Transfer.WriteAllKeepsNodes, Copy2Laws.CopyOfDirectoryStoresNothing: these hold because the modelled destination stores a file only when its writer closes successfully, as the `Memory` service of the tests does. `do_copy_file` promises no such thing; a backend that writes through can keep a truncated object after a failed transfer, and nothing cleans it up. The model does not capture that.
- CopyImplSpec: its own ensures state the error branches of `copy_impl` only; its directory and file branches are stated by `CopyRules.CopyImplOfDir` and `CopyRules.CopyImplOfFile`. Its file branch, and so `Copy.Copier.Copy`, `Copy.Copier.CopyRecursive`, `Copy.Copier.CopyImpl`, `CopyRules.CopyImplOfFile` and `CopyRules.CopyFileIntoRootScenario`, use the corrected `copy_file` of the Findings, not the code of src/copy.rs:150 as written; the as-written file copy is `Copy.CopyFileAsWritten`.
- CopySpec: its own ensures state the error branches of the older `copy` only; its directory and file branches are stated by `Copy2Laws.CopySpecOfDir` and `Copy2Laws.CopySpecOfFile`.

## Findings

| source | as written | input that shows it | evidently intended | confidence | as-written member | corrected member |
|---|---|---|---|---|---|---|
| src/copy.rs:150 | `copy_file` creates the missing parent with `create_dir(parent.as_str())`, without a trailing `/`; opendal's `create_dir` refuses a path that does not end in `/` with `NotADirectory` | copying a file to `d/n` when neither `d/` nor `d/n` exists: the parent is `d`, `create_dir("d")` fails, and the copy fails with `NotADirectory` | pass `parent/`, as `copy_dir` does at src/copy.rs:127 | not executed | Copy.CopyFileAsWritten, CopyRules.CopyFileAsWrittenRefusesMissingParent | Copy.CopyFileSpec, CopyRules.CopyFileSpecCreatesMissingParent |
