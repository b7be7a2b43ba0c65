# jest-best-test coverage core, modelled in Dafny

jest-best-test records, for each passing Jest suite, the V8 block coverage of
every script the suite ran, stores the transformed and original code in the
git object store. It later reads every suite's coverage back and prints, for
each source file, the resolved ranges of the first suite with block
coverage. This project models the part that does the work:

- `handle` (src/index.ts): it files each covered script of one suite's decoded
  coverage file under `bySource[scriptUrl][suiteName]`.
- `main`'s reporting loops (src/index.ts): for each source, in key order, it
  takes the first suite whose element has a block-coverage function. It reads
  that element's code blob and maps every range of every block-coverage
  function back to original positions through `toLine`. A range with an
  unresolvable end is dropped, and the loop stops after the first such suite.
- `slash` and `relativePath` (src/reporter.ts): they make a test file's path
  relative to the project root, with forward slashes.
- The source-map comment strip (src/reporter.ts): it removes a trailing
  `//# sourceMappingURL=` line from the transformed code before it is hashed.
- `defaultDictPush` (src/awaken.ts): it pushes onto a list in a dictionary
  of lists, creating the list on first use.

## Files

- `wrappers.dfy` holds `Option` and `Result`.
- `types.dfy` holds the coverage file shapes (src/types.ts).
- `ordered_dict.dfy` models a plain JavaScript object used as a dictionary.
  It keeps its own keys in insertion order, which is the order
  `Object.entries` lists them in.
- `awaken.dfy` holds `defaultDictPush`.
- `reporter.dfy` holds the reporter's string handling.
- `index.dfy` holds grouping, position resolution, reporting, and the
  `Collector` class that owns `bySource`.

## How the model is built

**`handle`.** `Index.Collector.Handle` is a `for` loop that updates the
`bySource` field in place. It is proved equal to `Ingest`, a fold over the
suite's elements. The lemmas about `Ingest` state what the grouping
guarantees:

- where each element lands;
- that a repeated (url, suite) pair overwrites the earlier one;
- which urls are present afterwards;
- that the key order is preserved.

**`main`.** `Index.Collector.Report` (outer loop) and
`Index.Collector.ReportSource` (inner loop, with its `continue` and
early `return`) are proved equal to `ReportOf`. `ReportOf` is a fold over
the sources that stops at the first failure. Lemmas then say what that
report is:

- each source's line comes from its first suite with block coverage;
- there is at most one line per source;
- every source that some suite covers with a block-coverage function gets
  a line;
- a run fails exactly when reading some chosen code blob fails, and it
  fails with the first such failure.

**Collaborators.** The core calls three things it does not implement, and
each is a function-valued field of `Index.Externals`:

- `git cat-file blob`, which returns none when it fails;
- the line/column index `LineColumn(code).fromIndex`;
- the source-map consumer's `originalPositionFor`.

**Concurrency.** `main` runs `handle` on several files at once through
`p-map`. Each `handle`, though, does its whole grouping loop without
yielding once its file has been read. So the shared dictionary ends up as if
the files were handled one after another in read-completion order.
`Index.Run` takes the files in that order.

**Where the model follows the code.**

- The code does not aggregate ranges across suites keyed by
  `(scriptUrl, startOffset, endOffset)`. It keeps whole elements per
  (source, suite) and prints only the first suite with block coverage for
  each source.
- `toLine` returns `{ line: mapped.line, column: mapped.column + 1 }`. When
  the source map has no mapping for a position, the consumer gives null for
  both. In JavaScript `null + 1` is `1`, so the position still resolves,
  with a null line and column 1, and the range is kept. Only a failed
  `fromIndex` drops a range. `Index.ToLine` models this as written, and
  its contract states it.

## Model

| member | source | states |
|---|---|---|
| Awaken.Pushed | src/awaken.ts:11-16 | After a push, the key is present. A new key holds exactly `[value]`. An existing list keeps its elements and gains `value` at its end. Every other key keeps its list. |
| Awaken.DefaultDictPush | src/awaken.ts:6-17 | The dictionary's new state is the old one with `value` pushed at `key`. A present list, even an empty one, is appended to rather than replaced. |
| Awaken.PushAllCollects | src/awaken.ts:1-17 | Repeated pushes act like `defaultdict(list)`. A key's list is its old list followed by every value pushed at that key, in push order. A key is present exactly when it was before or something was pushed at it. |
| Reporter.Slash | src/reporter.ts:86-88 | The length is kept. Each backslash becomes `/` and every other character is unchanged. |
| Reporter.SlashRemovesBackslashes | src/reporter.ts:86-88 | No backslash is left after `slash`. |
| Reporter.SlashFixesClean | src/reporter.ts:86-88 | `slash` leaves a path without backslashes unchanged. |
| Reporter.SlashIdempotent | src/reporter.ts:86-88 | Applying `slash` twice gives the same result as applying it once. |
| Reporter.NormalRoot | src/reporter.ts:94-97 | The root ends with `/` and has no backslash. It is the slashed root directory when that already ends with `/`, and the slashed root directory plus `/` otherwise. |
| Reporter.RelativePath | src/reporter.ts:90-106 | The result has no backslash. If the slashed path starts with the normalised root, root + result is the slashed path. Otherwise the result is the whole slashed path. |
| Reporter.RelativePathUnderRoot | src/reporter.ts:94-103 | Round trip: for any root directory, including a Windows one with backslashes, and any clean path below it, `relativePath` gives back the part below the root. |
| Reporter.LastNewline | src/reporter.ts:36 | The index found holds a newline and only newline-free text follows it. None means the text has no newline. |
| Reporter.LastNewlineAt | src/reporter.ts:36 | A newline followed by newline-free text is the last newline. |
| Reporter.StripSourceMappingUrl | src/reporter.ts:36 | The result is always a prefix of the code. When it is shorter, exactly a newline followed by one newline-free `//# sourceMappingURL=` line with a non-empty value was cut. |
| Reporter.StripRemovesMappingLine | src/reporter.ts:36 | Code ending in a newline and a source-map line with a non-empty value loses exactly that ending. |
| Reporter.StripKeepsOtherCode | src/reporter.ts:36 | Code without a final source-map line is returned unchanged. |
| OrderedDict.Empty | src/index.ts:39-41 | `{}` has no keys and is well formed. |
| OrderedDict.PutValid | src/index.ts:24-28 | Assigning to a key keeps each key listed once and exactly the stored keys listed. |
| OrderedDict.PutOverwrites | src/index.ts:28 | Assigning twice to one key is the same as assigning the second value once. |
| Index.IngestAll | src/index.ts:39-56 | The dictionary built by handling every file is well formed, both at the top level and in every inner dictionary. |
| Index.Ingest | src/index.ts:22-29 | `handle`'s loop as a fold over the suite's elements, storing each in turn. It has no contract of its own. `Index.IngestLookup`, `Index.IngestSourcesPresent`, `Index.IngestSourcesKeepOrder`, `Index.IngestSuitesKeepOrder`, `Index.IngestNewSource` and `Index.IngestWellFormed` characterise it, and `Index.Collector.Handle` is proved equal to it. |
| Index.IngestWellFormed | src/index.ts:22-29 | `handle` keeps every dictionary well formed. |
| OrderedDict.Put | src/index.ts:25-28 | `d[k] = v` makes `k` present with value `v` and leaves every other key's value alone. The existing key order is kept as a prefix, and a new key is appended at its end. |
| Index.Store | src/index.ts:23-28 | One loop iteration adds the element's url to the sources if it is new. It stores the element under the suite name in that url's dictionary, adding the suite name to its keys. Every other url's dictionary is unchanged. |
| Index.IngestLastPresent | src/index.ts:22-29 | Storing one more element can add only that element's url. |
| Index.StoreInTwoSteps | src/index.ts:24-28 | The two assignments, `bySource[url] = {}` when the url is absent and then `bySource[url][suiteName] = el`, make one store. |
| Index.StoreLookup | src/index.ts:23-28 | One store changes only the entry at (the element's url, the suite). |
| Index.IngestLookup | src/index.ts:22-29 | After `handle`, the entry at (url, suite) is the suite's last element for that url, if there is one. Otherwise it is unchanged. |
| Index.StoreKeys | src/index.ts:24-28 | A store keeps the url order and appends a new url at the end. |
| Index.StoreSuiteKeys | src/index.ts:28 | A store appends a new suite at the end of its url's suite order and leaves other urls' orders alone. |
| Index.IngestSourcesPresent | src/index.ts:22-26 | A url is present after `handle` exactly when it was present before or the suite covers it. |
| Index.IngestSourcesKeepOrder | src/index.ts:22-26 | Urls already present keep their order at the front. |
| Index.IngestSuitesKeepOrder | src/index.ts:22-28 | Under an existing url, suites already present keep their order at the front. |
| Index.IngestNewSource | src/index.ts:24-28 | A url that `handle` adds holds exactly the current suite. |
| Index.ToLine | src/index.ts:70-84 | `toLine` is null exactly when `fromIndex` is null, after the wrapper length is subtracted. The line passes through. The column goes in minus 1 and comes out plus 1, or as 1 when the consumer's column is null. |
| Index.ToLineThroughIdentityMap | src/index.ts:79-83 | Through an identity source map, `toLine` returns the index's own 1-indexed position, because the column conversions cancel. |
| Index.ResolveRange | src/index.ts:92-103 | The `flatMap` callback gives a range exactly when `toLine` resolves both of its offsets, that is, exactly when `fromIndex` succeeds on both offsets less the wrapper length. The range's ends are those two positions and its count is the input's count. |
| Index.ResolveRanges | src/index.ts:92-103 | The `flatMap` returns one range per input range whose ends resolve, in input order, and never more ranges than it was given. |
| Index.ResolveRangesKeepCounts | src/index.ts:96-101 | Every emitted range carries the count of the input range it came from. |
| Index.BlockFunctions | src/index.ts:60-62 | The filter returns, in input order and with repetitions, the function at each position holding a block-coverage function, and nothing else. It is never longer than its input. |
| Index.BlockFunctionsMembers | src/index.ts:60-62 | A function is in the filtered list exactly when it is in the input and has block coverage. |
| Index.BlockFunctionsEmpty | src/index.ts:60-63 | `good.length` is zero exactly when the element has no block-coverage function. |
| Index.ReportFunctions | src/index.ts:90-104 | `good.map(...)` gives one report per block-coverage function, in order. Each report carries the function's name and the resolved ranges of its ranges, which are never more than its ranges. |
| Index.SuiteEntry | src/index.ts:64-109 | Reading the chosen suite's code blob fails exactly when `git cat-file` fails, and the failure names that blob. Otherwise the printed entry carries the source, the blob's hash, the suite name and one report per block-coverage function, in order. Report k has the k-th block-coverage function's name and its ranges resolved through `toLine` with the element's wrapper length against the blob text read. |
| Index.FirstBlockSuite | src/index.ts:59-63 | The result is none exactly when no suite has block coverage. Otherwise it is the first suite in key order that has it. |
| Index.StepAt | src/index.ts:59-110 | When the inner loop reaches the first suite with block coverage, the source's result is that suite's entry. |
| Index.StepNone | src/index.ts:59-63 | When no suite has block coverage, the source yields nothing. |
| Index.SourceEntry | src/index.ts:59-111 | `main`'s inner loop for one source, with its `continue` and `break`: the entry of the first suite with block coverage, or nothing. It has no contract of its own. `Index.SourceEntryChoosesFirstBlockSuite`, `Index.StepAt` and `Index.StepNone` characterise it, and `Index.Collector.ReportSource` is proved equal to it. |
| Index.SourceEntryChoosesFirstBlockSuite | src/index.ts:59-111 | A source prints nothing exactly when no suite has block coverage. Otherwise it prints its first such suite, with that suite's code hash and one report per block-coverage function. Report k has the k-th block-coverage function's name and its ranges resolved with that suite's wrapper length against its blob text. The source fails only when that suite's blob cannot be read. |
| Index.CollectFailsOnFirstFailure | src/index.ts:58-68 | The outer loop fails exactly when some source fails, and it fails with the first failure in source order. |
| Index.CollectEntriesBelongToSources | src/index.ts:58-111 | On success, each entry is what its own source yields, and there are no more entries than sources. |
| Index.CollectEntriesDistinct | src/index.ts:58-111 | On success, distinct sources give entries with distinct sources. |
| Index.CollectEntriesComplete | src/index.ts:58-111 | On success, every source that yields an entry appears in the output. |
| Index.Collect | src/index.ts:58-112 | `main`'s outer loop over any source order and per-source step: the entries concatenated in order, stopping at the first failure. It has no contract of its own. `Index.CollectFailsOnFirstFailure`, `Index.CollectEntriesBelongToSources`, `Index.CollectEntriesDistinct` and `Index.CollectEntriesComplete` characterise it. |
| Index.ReportOf | src/index.ts:58-112 | `main`'s output for a filled `bySource`: `Index.Collect` over its sources in key order with `Index.SourceEntry` as the step. It has no contract of its own. `Index.ReportOfEntries` and `Index.ReportOfFailure` characterise it, and `Index.Collector.Report` is proved equal to it. |
| Index.StepEntriesOwnSource | src/index.ts:85-88 | A source's line is printed under that source's own name. |
| Index.ReportOfEntries | src/index.ts:58-112 | A successful run prints at most one line per source, and each line is that source's inner-loop result. Every source that some suite covers with a block-coverage function gets a line. |
| Index.ReportOfFailure | src/index.ts:64-68 | A run fails exactly when reading some source's chosen code blob fails, and it fails with the first such failure. |
| Index.Collector.constructor | src/index.ts:39-41 | `bySource` starts as `{}`. |
| Index.Collector.Handle | src/index.ts:14-30 | `handle` leaves `bySource` equal to `Ingest` of its old value over the suite's elements, and keeps it well formed. |
| Index.Collector.ReportSource | src/index.ts:59-111 | The inner loop returns exactly the source's result under `SourceEntry`: the first block-coverage suite's entry, the blob failure, or nothing. |
| Index.Collector.Report | src/index.ts:58-112 | The outer loop returns exactly `ReportOf` of the dictionary: the entries of the sources in key order, or the first failure. |
| Index.Run | src/index.ts:38-113 | Handling every file in turn and then reporting gives `ReportOf(IngestAll(files))`. |

## Left out

- Reading `.covdata.br` files, Brotli decompression, `JSON.parse` of the coverage file, and `glob` enumeration are I/O and library calls. `Index.Run` takes the decoded files instead.
- `p-map`'s concurrency is not modelled, and neither is the error text that names the failing file. The files are handled in completion order, as explained above.
- `git cat-file` is a subprocess and is a parameter here. Its failure aborts the run, which is modelled as `Failure`, but the exception's contents are not modelled.
- `line-column`, `source-map-url`, `data-urls` and `source-map-js` are foreign libraries and are parameters here.
- Index.ToLine: the source builds a consumer from the code's embedded data-URL map on every call. The model assumes that construction always succeeds. When the code has no valid embedded map, the source throws and the run aborts, and the model does not capture that.
- `console.log`/`inspect` formatting and the output printed before a failure are not modelled. The model returns the list of entries, or the error.
- `process.exit(2)` is not modelled.
- The reporter's Jest lifecycle (`onTestResult`), temporary files, `git hash-object` and writing the `.covdata` file are I/O and are not modelled.
- Only the reporter's pure string handling is modelled.
- src/types.ts has no behaviour. Its shapes are the datatypes in `types.dfy`.
- JavaScript objects give integer-like keys a numeric order ahead of other keys. Keys such as `toString` are also found on the prototype by `in` and by plain lookup. The model treats every key as an ordinary own key in insertion order.
- Awaken.DefaultDictPush: the source pushes onto the array object stored in the dictionary, so other references to that array see the push too. The model updates the dictionary's value and does not model that sharing.
