/** The coverage reader (src/index.ts): `handle` groups each suite's covered
    scripts by source url and suite name, and `main` prints, for each
    source, the block-coverage ranges of the first suite that has any,
    resolved to original positions through the embedded source map. */
module Index {

  import opened Wrappers
  import opened Types
  import opened OrderedDict

  /** `{ [testName: string]: CovDataElement }`: one source's element per suite. */
  type Suites = Dict<CovDataElement>

  /** `{ [sourcePath: string]: Suites }`: the shared `bySource` dictionary. */
  type BySource = Dict<Suites>

  ghost predicate WellFormed(d: BySource) {
    d.Valid() && forall u :: u in d.values ==> d.values[u].Valid()
  }

  // ---------------------------------------------------------------------
  // Grouping (`handle`)
  // ---------------------------------------------------------------------

  /** One iteration of `handle`'s loop: `bySource[url][suiteName] = el`,
      after creating `bySource[url] = {}` when the url is absent. */
  function Store(d: BySource, suiteName: string, el: CovDataElement): (r: BySource)
    ensures var url := el.result.url;
      && r.values.Keys == d.values.Keys + {url}
      && r.values[url].values.Keys == (if url in d.values then d.values[url].values.Keys else {}) + {suiteName}
      && r.values[url].values[suiteName] == el
      && forall u :: u in d.values && u != url ==> r.values[u] == d.values[u]
  {
    var url := el.result.url;
    var inner := if url in d.values then d.values[url] else Empty();
    Put(d, url, Put(inner, suiteName, el))
  }

  /** `bySource` after `handle` has stored every element of one suite, in order. */
  function Ingest(d: BySource, suiteName: string, els: seq<CovDataElement>): BySource
  {
    if els == [] then d
    else Store(Ingest(d, suiteName, els[..|els| - 1]), suiteName, els[|els| - 1])
  }

  /** `bySource` after `handle` has run on each file of `files`, in order,
      starting from `{}`. */
  function IngestAll(files: seq<CovDataFile>): (r: BySource)
    ensures WellFormed(r)
  {
    if files == [] then Empty()
    else
      var prev := IngestAll(files[..|files| - 1]);
      var last := files[|files| - 1];
      IngestWellFormed(prev, last.testFilePath, last.sourceFilesCovered);
      Ingest(prev, last.testFilePath, last.sourceFilesCovered)
  }

  /** `handle` keeps every dictionary's keys listed once each, exactly the
      stored ones. */
  lemma {:induction false} IngestWellFormed(d: BySource, suiteName: string, els: seq<CovDataElement>)
    requires WellFormed(d)
    ensures WellFormed(Ingest(d, suiteName, els))
  {
    if els != [] {
      var n := |els| - 1;
      var prev := Ingest(d, suiteName, els[..n]);
      IngestWellFormed(d, suiteName, els[..n]);
      var url := els[n].result.url;
      var inner := if url in prev.values then prev.values[url] else Empty();
      PutValid(inner, suiteName, els[n]);
      PutValid(prev, url, Put(inner, suiteName, els[n]));
    }
  }

  /** `bySource[url]?.[suite]`. */
  function Lookup(d: BySource, url: string, suite: string): Option<CovDataElement>
  {
    if url in d.values && suite in d.values[url].values then Some(d.values[url].values[suite]) else None
  }

  /** The position of the last element of `els` whose script is `url`. */
  function LastIndexFor(els: seq<CovDataElement>, url: string): (r: Option<nat>)
    ensures r.None? <==> forall i :: 0 <= i < |els| ==> els[i].result.url != url
    ensures r.Some? ==>
      r.value < |els| && els[r.value].result.url == url &&
      forall j :: r.value < j < |els| ==> els[j].result.url != url
  {
    if els == [] then None
    else if els[|els| - 1].result.url == url then Some(|els| - 1)
    else LastIndexFor(els[..|els| - 1], url)
  }

  lemma StoreLookup(d: BySource, suiteName: string, el: CovDataElement, url: string, suite: string)
    ensures Lookup(Store(d, suiteName, el), url, suite) ==
      if suite == suiteName && url == el.result.url then Some(el) else Lookup(d, url, suite)
  {
  }

  /** `handle`'s two assignments, `bySource[url] = {}` when the url is
      absent and then `bySource[url][suiteName] = el`, make one store. */
  lemma StoreInTwoSteps(d: BySource, suiteName: string, el: CovDataElement)
    ensures var url := el.result.url;
      var mid := if url in d.values then d else Put(d, url, Empty());
      url in mid.values && Put(mid, url, Put(mid.values[url], suiteName, el)) == Store(d, suiteName, el)
  {
    var url := el.result.url;
    if url !in d.values {
      PutOverwrites(d, url, Empty(), Put(Empty(), suiteName, el));
    }
  }

  /** Extending the stored prefix by one element is one more store. */
  lemma IngestPrefixStep(d: BySource, suiteName: string, els: seq<CovDataElement>, i: nat)
    requires i < |els|
    ensures Ingest(d, suiteName, els[..i + 1]) == Store(Ingest(d, suiteName, els[..i]), suiteName, els[i])
  {
    assert els[..i + 1][..i] == els[..i];
  }

  /** After `handle`, the entry at (url, suite) is the suite's last element
      for that url when the suite has one, and otherwise what it was before:
      every covered element lands at `bySource[el.result.url][suiteName]`,
      a repeated (url, suite) pair overwrites, and entries of other suites
      or other urls are untouched. */
  lemma {:induction false} IngestLookup(d: BySource, suiteName: string, els: seq<CovDataElement>, url: string, suite: string)
    ensures Lookup(Ingest(d, suiteName, els), url, suite) ==
      if suite == suiteName && LastIndexFor(els, url).Some?
      then Some(els[LastIndexFor(els, url).value])
      else Lookup(d, url, suite)
  {
    if els != [] {
      var n := |els| - 1;
      var prev := Ingest(d, suiteName, els[..n]);
      assert Ingest(d, suiteName, els) == Store(prev, suiteName, els[n]);
      IngestLookup(d, suiteName, els[..n], url, suite);
      StoreLookup(prev, suiteName, els[n], url, suite);
      if suite == suiteName && els[n].result.url == url {
        assert LastIndexFor(els, url) == Some(n);
      } else if suite == suiteName {
        var last := LastIndexFor(els[..n], url);
        assert LastIndexFor(els, url) == last;
        assert last.Some? ==> els[..n][last.value] == els[last.value];
      }
    }
  }

  /** One store keeps the order of the urls already present and appends a
      new url at the end. */
  lemma StoreKeys(d: BySource, suiteName: string, el: CovDataElement)
    ensures var r := Store(d, suiteName, el);
      && r.values.Keys == d.values.Keys + {el.result.url}
      && r.keys == if el.result.url in d.values then d.keys else d.keys + [el.result.url]
  {
  }

  /** One store keeps the suite order of the url it writes to, appending
      the suite when it is new there; other urls keep theirs. */
  lemma StoreSuiteKeys(d: BySource, suiteName: string, el: CovDataElement, url: string)
    requires url in d.values
    ensures var r := Store(d, suiteName, el);
      r.values[url].keys ==
        if url == el.result.url && suiteName !in d.values[url].values
        then d.values[url].keys + [suiteName]
        else d.values[url].keys
  {
  }

  /** The last element's url is the only one a further store can add. */
  lemma IngestLastPresent(d: BySource, suiteName: string, els: seq<CovDataElement>, url: string)
    requires els != []
    ensures url in Ingest(d, suiteName, els).values <==>
      url in Ingest(d, suiteName, els[..|els| - 1]).values || els[|els| - 1].result.url == url
  {
  }

  /** A url is present after `handle` exactly when it was present before or
      the suite covers it. */
  lemma {:induction false} IngestSourcesPresent(d: BySource, suiteName: string, els: seq<CovDataElement>, url: string)
    ensures url in Ingest(d, suiteName, els).values <==>
      url in d.values || exists i :: 0 <= i < |els| && els[i].result.url == url
  {
    if els != [] {
      var n := |els| - 1;
      IngestSourcesPresent(d, suiteName, els[..n], url);
      IngestLastPresent(d, suiteName, els, url);
      var last := LastIndexFor(els, url);
      var earlier := LastIndexFor(els[..n], url);
      assert last.Some? <==> els[n].result.url == url || earlier.Some? by {
        if els[n].result.url != url {
          assert last == earlier;
        }
      }
      assert last.Some? <==> exists i :: 0 <= i < |els| && els[i].result.url == url;
      assert earlier.Some? <==> exists i :: 0 <= i < n && els[..n][i].result.url == url;
    }
  }

  /** `handle` keeps the urls already present, in their order, at the front
      of the key order. */
  lemma {:induction false} IngestSourcesKeepOrder(d: BySource, suiteName: string, els: seq<CovDataElement>)
    ensures var r := Ingest(d, suiteName, els);
      |d.keys| <= |r.keys| && r.keys[..|d.keys|] == d.keys
  {
    if els != [] {
      var n := |els| - 1;
      var prev := Ingest(d, suiteName, els[..n]);
      IngestSourcesKeepOrder(d, suiteName, els[..n]);
      StoreKeys(prev, suiteName, els[n]);
      assert (prev.keys + [els[n].result.url])[..|d.keys|] == prev.keys[..|d.keys|];
    }
  }

  /** Under a url already present, `handle` keeps the suites already there,
      in their order, at the front. */
  lemma {:induction false} IngestSuitesKeepOrder(d: BySource, suiteName: string, els: seq<CovDataElement>, url: string)
    requires url in d.values
    ensures var r := Ingest(d, suiteName, els);
      url in r.values &&
      |d.values[url].keys| <= |r.values[url].keys| &&
      r.values[url].keys[..|d.values[url].keys|] == d.values[url].keys
  {
    if els != [] {
      var n := |els| - 1;
      var prev := Ingest(d, suiteName, els[..n]);
      IngestSuitesKeepOrder(d, suiteName, els[..n], url);
      StoreKeys(prev, suiteName, els[n]);
      StoreSuiteKeys(prev, suiteName, els[n], url);
      assert (prev.values[url].keys + [suiteName])[..|d.values[url].keys|] == prev.values[url].keys[..|d.values[url].keys|];
    }
  }

  /** A url that `handle` adds gets a fresh dictionary holding only this suite. */
  lemma {:induction false} IngestNewSource(d: BySource, suiteName: string, els: seq<CovDataElement>, url: string)
    requires url !in d.values
    ensures var r := Ingest(d, suiteName, els);
      url in r.values ==> r.values[url].keys == [suiteName] && r.values[url].values.Keys == {suiteName}
  {
    if els != [] {
      var n := |els| - 1;
      var prev := Ingest(d, suiteName, els[..n]);
      IngestNewSource(d, suiteName, els[..n], url);
      StoreKeys(prev, suiteName, els[n]);
      if url in prev.values {
        StoreSuiteKeys(prev, suiteName, els[n], url);
      }
    }
  }

  // ---------------------------------------------------------------------
  // Position resolution (`toLine` and the `flatMap` over ranges)
  // ---------------------------------------------------------------------

  /** What `LineColumn(code).fromIndex` gives: 1-indexed line and column. */
  datatype LineCol = LineCol(line: int, col: int)

  /** What `SourceMapConsumer.originalPositionFor` gives: a 1-indexed line
      and a 0-indexed column, each null when the position is unmapped. */
  datatype MappedPosition = MappedPosition(line: Option<int>, column: Option<int>)

  /** `toLine`'s result: the mapped line (possibly null) and a 1-indexed column. */
  datatype SourcePosition = SourcePosition(line: Option<int>, column: int)

  /** The collaborators the core calls but does not implement: `git cat-file
      blob` (none when it fails), the line/column index built over a code
      text, and the source-map consumer built from the code's embedded map. */
  datatype Externals = Externals(
    catFile: Hash -> Option<string>,
    fromIndex: (string, int) -> Option<LineCol>,
    originalPositionFor: (string, int, int) -> MappedPosition)

  /** `toLine`: the original position of a character offset of the executed
      code. The wrapper is subtracted before the lookup, and the lookup
      failing is the only way for it to give null. The 1-indexed column goes
      to the consumer minus one and the consumer's 0-indexed column comes back
      plus one; the line passes through. A null column comes back as 1, as
      `null + 1` is 1 in JavaScript, so an unmapped position still resolves. */
  function ToLine(ext: Externals, code: string, wrapperLength: nat, offset: int): (r: Option<SourcePosition>)
    ensures r.None? <==> ext.fromIndex(code, offset - wrapperLength).None?
    ensures r.Some? ==>
      var pos := ext.fromIndex(code, offset - wrapperLength).value;
      var mapped := ext.originalPositionFor(code, pos.line, pos.col - 1);
      && r.value.line == mapped.line
      && r.value.column == (if mapped.column.Some? then mapped.column.value + 1 else 1)
  {
    match ext.fromIndex(code, offset - wrapperLength)
    case None => None
    case Some(pos) =>
      var mapped := ext.originalPositionFor(code, pos.line, pos.col - 1);
      Some(SourcePosition(mapped.line, match mapped.column case Some(c) => c + 1 case None => 1))
  }

  /** The column conversions cancel: through a source map that maps every
      position to itself, `toLine` gives the line index's own 1-indexed
      position. */
  lemma ToLineThroughIdentityMap(ext: Externals, code: string, wrapperLength: nat, offset: int)
    requires forall line, col :: ext.originalPositionFor(code, line, col) == MappedPosition(Some(line), Some(col))
    requires ext.fromIndex(code, offset - wrapperLength).Some?
    ensures var pos := ext.fromIndex(code, offset - wrapperLength).value;
      ToLine(ext, code, wrapperLength, offset) == Some(SourcePosition(Some(pos.line), pos.col))
  {
  }

  datatype ResolvedRange = ResolvedRange(start: SourcePosition, end: SourcePosition, count: nat)

  /** One step of the `flatMap`: the range with both ends resolved by
      `toLine` and its count, or nothing when either end does not resolve. */
  function ResolveRange(ext: Externals, code: string, wrapperLength: nat, range: CoverageRange): (r: Option<ResolvedRange>)
    ensures r.Some? <==>
      ToLine(ext, code, wrapperLength, range.startOffset).Some? && ToLine(ext, code, wrapperLength, range.endOffset).Some?
    ensures r.Some? <==>
      ext.fromIndex(code, range.startOffset - wrapperLength).Some? &&
      ext.fromIndex(code, range.endOffset - wrapperLength).Some?
    ensures r.Some? ==>
      && Some(r.value.start) == ToLine(ext, code, wrapperLength, range.startOffset)
      && Some(r.value.end) == ToLine(ext, code, wrapperLength, range.endOffset)
      && r.value.count == range.count
  {
    var start := ToLine(ext, code, wrapperLength, range.startOffset);
    var end := ToLine(ext, code, wrapperLength, range.endOffset);
    if start.None? || end.None? then None
    else Some(ResolvedRange(start.value, end.value, range.count))
  }

  /** The positions, in increasing order, of exactly the elements of `xs`
      that `keep` accepts. */
  ghost function Positions<T>(xs: seq<T>, keep: T -> bool): (ks: seq<nat>)
    ensures |ks| <= |xs|
    ensures forall k :: 0 <= k < |ks| ==> ks[k] < |xs| && keep(xs[ks[k]])
    ensures forall i :: 0 <= i < |xs| && keep(xs[i]) ==> i in ks
    ensures forall k, l :: 0 <= k < l < |ks| ==> ks[k] < ks[l]
  {
    if xs == [] then []
    else
      var n := |xs| - 1;
      var init := Positions(xs[..n], keep);
      assert forall i :: 0 <= i < n ==> xs[..n][i] == xs[i];
      if keep(xs[n]) then init + [n] else init
  }

  function Resolves(ext: Externals, code: string, wrapperLength: nat): CoverageRange -> bool
  {
    range => ResolveRange(ext, code, wrapperLength, range).Some?
  }

  /** The positions, in increasing order, of exactly the ranges that resolve. */
  ghost function Kept(ext: Externals, code: string, wrapperLength: nat, ranges: seq<CoverageRange>): seq<nat>
  {
    Positions(ranges, Resolves(ext, code, wrapperLength))
  }

  /** `ranges.flatMap(...)`: the resolved ranges, one for each range whose
      start and end both resolve, in the input order; the rest are dropped
      whole, so there are never more outputs than inputs. */
  function ResolveRanges(ext: Externals, code: string, wrapperLength: nat, ranges: seq<CoverageRange>): (r: seq<ResolvedRange>)
    ensures |r| == |Kept(ext, code, wrapperLength, ranges)| <= |ranges|
    ensures forall k :: 0 <= k < |r| ==>
      ResolveRange(ext, code, wrapperLength, ranges[Kept(ext, code, wrapperLength, ranges)[k]]) == Some(r[k])
  {
    if ranges == [] then []
    else
      var n := |ranges| - 1;
      var init := ResolveRanges(ext, code, wrapperLength, ranges[..n]);
      assert forall i :: 0 <= i < n ==> ranges[..n][i] == ranges[i];
      match ResolveRange(ext, code, wrapperLength, ranges[n])
      case Some(last) => init + [last]
      case None => init
  }

  /** Every emitted range carries the count of the input range it came from. */
  lemma ResolveRangesKeepCounts(ext: Externals, code: string, wrapperLength: nat, ranges: seq<CoverageRange>, k: nat)
    requires k < |ResolveRanges(ext, code, wrapperLength, ranges)|
    ensures ResolveRanges(ext, code, wrapperLength, ranges)[k].count ==
      ranges[Kept(ext, code, wrapperLength, ranges)[k]].count
  {
  }

  // ---------------------------------------------------------------------
  // Reporting (`main`)
  // ---------------------------------------------------------------------

  predicate HasBlockCoverage(el: CovDataElement) {
    exists i :: 0 <= i < |el.result.functions| && el.result.functions[i].isBlockCoverage
  }

  function IsBlock(f: FunctionCoverage): bool {
    f.isBlockCoverage
  }

  /** `functions.filter(({ isBlockCoverage }) => isBlockCoverage)`: the
      block-coverage functions and no others, in their order and with their
      repetitions, one for each position of a block-coverage function. */
  function BlockFunctions(fs: seq<FunctionCoverage>): (r: seq<FunctionCoverage>)
    ensures |r| == |Positions(fs, IsBlock)| <= |fs|
    ensures forall k :: 0 <= k < |r| ==> r[k] == fs[Positions(fs, IsBlock)[k]]
  {
    if fs == [] then []
    else
      var n := |fs| - 1;
      var init := BlockFunctions(fs[..n]);
      assert forall i :: 0 <= i < n ==> fs[..n][i] == fs[i];
      if fs[n].isBlockCoverage then init + [fs[n]] else init
  }

  /** The filter keeps exactly the block-coverage functions. */
  lemma BlockFunctionsMembers(fs: seq<FunctionCoverage>)
    ensures forall f :: f in BlockFunctions(fs) <==> f in fs && f.isBlockCoverage
  {
    var good := BlockFunctions(fs);
    var ks := Positions(fs, IsBlock);
    forall f ensures f in good <==> f in fs && f.isBlockCoverage {
      if f in good {
        var k :| 0 <= k < |good| && good[k] == f;
        assert fs[ks[k]] == f;
      }
      if f in fs && f.isBlockCoverage {
        var i :| 0 <= i < |fs| && fs[i] == f;
        assert IsBlock(fs[i]);
        var k :| 0 <= k < |ks| && ks[k] == i;
        assert good[k] == f;
      }
    }
  }

  /** `good.length` is zero exactly when the element has no block-coverage
      function. */
  lemma BlockFunctionsEmpty(el: CovDataElement)
    ensures |BlockFunctions(el.result.functions)| == 0 <==> !HasBlockCoverage(el)
  {
    var fs := el.result.functions;
    var good := BlockFunctions(fs);
    BlockFunctionsMembers(fs);
    if |good| > 0 {
      assert good[0] in good;
    }
    if HasBlockCoverage(el) {
      var i :| 0 <= i < |fs| && fs[i].isBlockCoverage;
      assert fs[i] in good;
    }
  }


  /** The element `main` reports for a source is at position `i` of its
      suites: it has block coverage and no earlier suite has. */
  ghost predicate ChosenSuite(inner: Suites, tests: seq<string>, i: nat)
    requires forall k :: 0 <= k < |tests| ==> tests[k] in inner.values
  {
    && i < |tests|
    && HasBlockCoverage(inner.values[tests[i]])
    && forall j :: 0 <= j < i ==> !HasBlockCoverage(inner.values[tests[j]])
  }

  /** The first suite, in key order, whose element has block coverage. */
  function FirstBlockSuite(inner: Suites, tests: seq<string>): (r: Option<nat>)
    requires forall k :: 0 <= k < |tests| ==> tests[k] in inner.values
    ensures r.None? <==> forall j :: 0 <= j < |tests| ==> !HasBlockCoverage(inner.values[tests[j]])
    ensures r.Some? ==> ChosenSuite(inner, tests, r.value)
  {
    if tests == [] then None
    else if HasBlockCoverage(inner.values[tests[0]]) then Some(0)
    else
      match FirstBlockSuite(inner, tests[1..])
      case None => None
      case Some(i) =>
        assert forall j :: 1 <= j <= i + 1 ==> tests[j] == tests[1..][j - 1];
        Some(i + 1)
  }

  datatype FunctionReport = FunctionReport(functionName: string, ranges: seq<ResolvedRange>)

  /** One printed line: the source, the code hash, the suite, and per
      block-coverage function its name and resolved ranges. */
  datatype Entry = Entry(source: string, code: Hash, test: string, functions: seq<FunctionReport>)

  datatype Error = CatFileFailed(hash: Hash)

  /** `good.map(v => [v.functionName, ...resolved ranges])`. */
  function ReportFunctions(ext: Externals, code: string, wrapperLength: nat, good: seq<FunctionCoverage>): (r: seq<FunctionReport>)
    ensures |r| == |good|
    ensures forall k :: 0 <= k < |r| ==>
      && r[k].functionName == good[k].functionName
      && |r[k].ranges| <= |good[k].ranges|
      && r[k].ranges == ResolveRanges(ext, code, wrapperLength, good[k].ranges)
  {
    seq(|good|, k requires 0 <= k < |good| =>
      FunctionReport(good[k].functionName, ResolveRanges(ext, code, wrapperLength, good[k].ranges)))
  }

  /** What `main` yields for the chosen suite `test` with element `el`: the
      failure to read its code blob, or its entry, whose reports are the
      element's block-coverage functions with their ranges resolved by the
      element's wrapper length against the blob text read. */
  function SuiteEntry(ext: Externals, source: string, test: string, el: CovDataElement): (r: Result<Option<Entry>, Error>)
    ensures r.Failure? <==> ext.catFile(el.code).None?
    ensures r.Failure? ==> r.error == CatFileFailed(el.code)
    ensures r.Success? ==>
      && r.value.Some?
      && r.value.value.source == source
      && r.value.value.code == el.code
      && r.value.value.test == test
      && |r.value.value.functions| == |BlockFunctions(el.result.functions)|
    ensures r.Success? ==>
      var good := BlockFunctions(el.result.functions);
      forall k :: 0 <= k < |r.value.value.functions| ==>
        && r.value.value.functions[k].functionName == good[k].functionName
        && r.value.value.functions[k].ranges ==
          ResolveRanges(ext, ext.catFile(el.code).value, el.wrapperLength, good[k].ranges)
  {
    match ext.catFile(el.code)
    case None => Failure(CatFileFailed(el.code))
    case Some(code) =>
      Success(Some(Entry(source, el.code, test,
        ReportFunctions(ext, code, el.wrapperLength, BlockFunctions(el.result.functions)))))
  }

  /** What the inner loop of `main` yields for one source. */
  function SourceEntry(d: BySource, ext: Externals, source: string): Result<Option<Entry>, Error>
    requires source in d.values && d.values[source].Valid()
  {
    var inner := d.values[source];
    match FirstBlockSuite(inner, inner.keys)
    case None => Success(None)
    case Some(i) => SuiteEntry(ext, source, inner.keys[i], inner.values[inner.keys[i]])
  }

  /** The inner loop of `main` as a function of the source. */
  ghost function Step(d: BySource, ext: Externals): string --> Result<Option<Entry>, Error>
  {
    source requires source in d.values && d.values[source].Valid() => SourceEntry(d, ext, source)
  }

  /** The inner loop finds the first suite with block coverage and stops
      there. */
  lemma StepAt(d: BySource, ext: Externals, source: string, i: nat)
    requires source in d.values && d.values[source].Valid()
    requires ChosenSuite(d.values[source], d.values[source].keys, i)
    ensures var inner := d.values[source];
      Step(d, ext)(source) == SuiteEntry(ext, source, inner.keys[i], inner.values[inner.keys[i]])
  {
    var inner := d.values[source];
    var first := FirstBlockSuite(inner, inner.keys);
    assert first.Some?;
    assert !(first.value < i) && !(i < first.value);
  }

  /** The inner loop runs out of suites: the source yields nothing. */
  lemma StepNone(d: BySource, ext: Externals, source: string)
    requires source in d.values && d.values[source].Valid()
    requires forall k :: 0 <= k < |d.values[source].keys| ==>
      !HasBlockCoverage(d.values[source].values[d.values[source].keys[k]])
    ensures Step(d, ext)(source) == Success(None)
  {
  }

  /** For one source, `main` prints nothing exactly when no suite has a
      block-coverage function; otherwise it prints the first such suite, in
      key order, with its code hash and one line per block-coverage
      function, and it fails only when that suite's code blob cannot be read. */
  lemma SourceEntryChoosesFirstBlockSuite(d: BySource, ext: Externals, source: string)
    requires source in d.values && d.values[source].Valid()
    ensures var inner := d.values[source];
      SourceEntry(d, ext, source) == Success(None) <==>
        forall j :: 0 <= j < |inner.keys| ==> !HasBlockCoverage(inner.values[inner.keys[j]])
    ensures var inner := d.values[source]; var r := SourceEntry(d, ext, source);
      r.Success? && r.value.Some? ==>
        var e := r.value.value;
        && e.source == source
        && (exists i: nat :: ChosenSuite(inner, inner.keys, i) && inner.keys[i] == e.test)
        && e.code == inner.values[e.test].code
        && ext.catFile(e.code).Some?
        && |e.functions| == |BlockFunctions(inner.values[e.test].result.functions)|
        && var el := inner.values[e.test]; var good := BlockFunctions(el.result.functions);
          forall k :: 0 <= k < |e.functions| ==>
            && e.functions[k].functionName == good[k].functionName
            && e.functions[k].ranges ==
              ResolveRanges(ext, ext.catFile(e.code).value, el.wrapperLength, good[k].ranges)
    ensures var inner := d.values[source]; var r := SourceEntry(d, ext, source);
      r.Failure? ==>
        exists i: nat :: ChosenSuite(inner, inner.keys, i) &&
          r.error == CatFileFailed(inner.values[inner.keys[i]].code) &&
          ext.catFile(inner.values[inner.keys[i]].code).None?
  {
  }

  function Prefixed(entries: seq<Entry>, r: Result<seq<Entry>, Error>): Result<seq<Entry>, Error>
  {
    match r
    case Success(rest) => Success(entries + rest)
    case Failure(e) => Failure(e)
  }

  lemma PrefixedConcat(a: seq<Entry>, b: seq<Entry>, r: Result<seq<Entry>, Error>)
    ensures Prefixed(a, Prefixed(b, r)) == Prefixed(a + b, r)
  {
    if r.Success? {
      assert a + (b + r.value) == (a + b) + r.value;
    }
  }

  lemma PrefixedNothing(entries: seq<Entry>, r: Result<seq<Entry>, Error>)
    ensures Prefixed([], r) == r
    ensures Prefixed(entries, Success([])) == Success(entries)
  {
    if r.Success? {
      assert [] + r.value == r.value;
    }
    assert entries + [] == entries;
  }

  function AsSeq(e: Option<Entry>): seq<Entry>
  {
    match e
    case None => []
    case Some(x) => [x]
  }

  /** The outer loop of `main`: `step` runs on each source in order, the
      entries it yields are concatenated, and its first failure aborts the
      run. */
  ghost function Collect(sources: seq<string>, step: string --> Result<Option<Entry>, Error>): Result<seq<Entry>, Error>
    requires forall k :: 0 <= k < |sources| ==> step.requires(sources[k])
  {
    if sources == [] then Success([])
    else
      match step(sources[0])
      case Failure(e) => Failure(e)
      case Success(first) => Prefixed(AsSeq(first), Collect(sources[1..], step))
  }

  /** What `main` prints once all suites are in `bySource`. */
  ghost function ReportOf(d: BySource, ext: Externals): Result<seq<Entry>, Error>
    requires WellFormed(d)
  {
    Collect(d.keys, Step(d, ext))
  }

  /** The run fails exactly when some source's step fails, and then with
      the failure of the first such source in source order. */
  lemma {:induction false} CollectFailsOnFirstFailure(sources: seq<string>, step: string --> Result<Option<Entry>, Error>)
    requires forall k :: 0 <= k < |sources| ==> step.requires(sources[k])
    ensures Collect(sources, step).Failure? <==>
      exists i :: 0 <= i < |sources| && step(sources[i]).Failure?
    ensures Collect(sources, step).Failure? ==>
      exists i :: 0 <= i < |sources| && step(sources[i]) == Failure(Collect(sources, step).error) &&
        forall j :: 0 <= j < i ==> step(sources[j]).Success?
  {
    if sources != [] {
      var rest := sources[1..];
      CollectFailsOnFirstFailure(rest, step);
      if step(sources[0]).Success? {
        if exists i :: 0 <= i < |sources| && step(sources[i]).Failure? {
          var i :| 0 <= i < |sources| && step(sources[i]).Failure?;
          assert rest[i - 1] == sources[i];
        }
        if Collect(rest, step).Failure? {
          var i :| 0 <= i < |rest| && step(rest[i]) == Failure(Collect(rest, step).error) &&
            forall j :: 0 <= j < i ==> step(rest[j]).Success?;
          assert sources[i + 1] == rest[i];
          assert forall j :: 1 <= j <= i ==> sources[j] == rest[j - 1];
        } else {
          forall i | 0 <= i < |sources| ensures step(sources[i]).Success? {
            if i > 0 { assert sources[i] == rest[i - 1]; }
          }
        }
      }
    }
  }

  /** On success, each entry is what the step yields for its own source,
      and there are never more entries than sources. */
  lemma {:induction false} CollectEntriesBelongToSources(sources: seq<string>, step: string --> Result<Option<Entry>, Error>)
    requires forall k :: 0 <= k < |sources| ==> step.requires(sources[k])
    requires forall k :: 0 <= k < |sources| && step(sources[k]).Success? && step(sources[k]).value.Some? ==>
      step(sources[k]).value.value.source == sources[k]
    requires Collect(sources, step).Success?
    ensures var es := Collect(sources, step).value;
      && |es| <= |sources|
      && forall k :: 0 <= k < |es| ==> es[k].source in sources && step(es[k].source) == Success(Some(es[k]))
  {
    if sources != [] {
      var rest := sources[1..];
      CollectEntriesBelongToSources(rest, step);
      var tail := Collect(rest, step).value;
      var head := step(sources[0]).value;
      var es := AsSeq(head) + tail;
      assert Collect(sources, step).value == es;
      forall k | 0 <= k < |es| ensures es[k].source in sources && step(es[k].source) == Success(Some(es[k])) {
        if k >= |AsSeq(head)| {
          assert es[k] == tail[k - |AsSeq(head)|];
        }
      }
    }
  }

  /** On success, no source has two entries. */
  lemma {:induction false} CollectEntriesDistinct(sources: seq<string>, step: string --> Result<Option<Entry>, Error>)
    requires forall k :: 0 <= k < |sources| ==> step.requires(sources[k])
    requires forall k :: 0 <= k < |sources| && step(sources[k]).Success? && step(sources[k]).value.Some? ==>
      step(sources[k]).value.value.source == sources[k]
    requires forall i, j :: 0 <= i < j < |sources| ==> sources[i] != sources[j]
    requires Collect(sources, step).Success?
    ensures var es := Collect(sources, step).value;
      forall k, l :: 0 <= k < l < |es| ==> es[k].source != es[l].source
  {
    if sources != [] {
      var rest := sources[1..];
      CollectEntriesDistinct(rest, step);
      CollectEntriesBelongToSources(rest, step);
      var tail := Collect(rest, step).value;
      var head := step(sources[0]).value;
      assert Collect(sources, step).value == AsSeq(head) + tail;
      if head.Some? {
        forall k | 0 <= k < |tail| ensures tail[k].source != sources[0] {
          var j :| 0 <= j < |rest| && rest[j] == tail[k].source;
          assert sources[j + 1] == rest[j];
        }
      }
    }
  }

  /** On success, every source whose step yields an entry has it in the
      output. */
  lemma {:induction false} CollectEntriesComplete(sources: seq<string>, step: string --> Result<Option<Entry>, Error>)
    requires forall k :: 0 <= k < |sources| ==> step.requires(sources[k])
    requires forall k :: 0 <= k < |sources| && step(sources[k]).Success? && step(sources[k]).value.Some? ==>
      step(sources[k]).value.value.source == sources[k]
    requires Collect(sources, step).Success?
    ensures var es := Collect(sources, step).value;
      forall i :: 0 <= i < |sources| && step(sources[i]) != Success(None) ==>
        exists k :: 0 <= k < |es| && es[k].source == sources[i]
  {
    if sources != [] {
      var rest := sources[1..];
      CollectEntriesComplete(rest, step);
      var tail := Collect(rest, step).value;
      var head := step(sources[0]).value;
      var es := AsSeq(head) + tail;
      assert Collect(sources, step).value == es;
      forall i | 0 <= i < |sources| && step(sources[i]) != Success(None)
        ensures exists k :: 0 <= k < |es| && es[k].source == sources[i]
      {
        if i == 0 {
          assert es[0].source == sources[0];
        } else {
          assert sources[i] == rest[i - 1];
          var k :| 0 <= k < |tail| && tail[k].source == rest[i - 1];
          assert es[k + |AsSeq(head)|] == tail[k];
        }
      }
    }
  }

  /** Each source's step yields, if anything, an entry for that source. */
  lemma StepEntriesOwnSource(d: BySource, ext: Externals)
    requires WellFormed(d)
    ensures forall k :: 0 <= k < |d.keys| ==> Step(d, ext).requires(d.keys[k])
    ensures forall k :: 0 <= k < |d.keys| && Step(d, ext)(d.keys[k]).Success? && Step(d, ext)(d.keys[k]).value.Some? ==>
      Step(d, ext)(d.keys[k]).value.value.source == d.keys[k]
  {
    forall k | 0 <= k < |d.keys|
      ensures Step(d, ext).requires(d.keys[k])
      ensures Step(d, ext)(d.keys[k]).Success? && Step(d, ext)(d.keys[k]).value.Some? ==>
        Step(d, ext)(d.keys[k]).value.value.source == d.keys[k]
    {
      SourceEntryChoosesFirstBlockSuite(d, ext, d.keys[k]);
    }
  }

  /** What a successful run of `main` prints: at most one line per source,
      each being what the inner loop yields for that source, and a line for
      every source that some suite covers with a block-coverage function. */
  lemma ReportOfEntries(d: BySource, ext: Externals)
    requires WellFormed(d)
    requires ReportOf(d, ext).Success?
    ensures var es := ReportOf(d, ext).value;
      && |es| <= |d.keys|
      && (forall k :: 0 <= k < |es| ==>
            es[k].source in d.values && SourceEntry(d, ext, es[k].source) == Success(Some(es[k])))
      && (forall k, l :: 0 <= k < l < |es| ==> es[k].source != es[l].source)
      && (forall i, j ::
            (0 <= i < |d.keys| && 0 <= j < |d.values[d.keys[i]].keys| &&
             HasBlockCoverage(d.values[d.keys[i]].values[d.values[d.keys[i]].keys[j]])) ==>
            exists k :: 0 <= k < |es| && es[k].source == d.keys[i])
  {
    var step := Step(d, ext);
    StepEntriesOwnSource(d, ext);
    CollectEntriesBelongToSources(d.keys, step);
    CollectEntriesDistinct(d.keys, step);
    CollectEntriesComplete(d.keys, step);
    forall i | 0 <= i < |d.keys| ensures
      (exists j :: 0 <= j < |d.values[d.keys[i]].keys| &&
        HasBlockCoverage(d.values[d.keys[i]].values[d.values[d.keys[i]].keys[j]])) ==> step(d.keys[i]) != Success(None)
    {
      SourceEntryChoosesFirstBlockSuite(d, ext, d.keys[i]);
    }
  }

  /** A run of `main` fails exactly when reading the chosen code blob of
      some source fails, and then with the first such failure. */
  lemma ReportOfFailure(d: BySource, ext: Externals)
    requires WellFormed(d)
    ensures ReportOf(d, ext).Failure? <==>
      exists i :: 0 <= i < |d.keys| && SourceEntry(d, ext, d.keys[i]).Failure?
    ensures ReportOf(d, ext).Failure? ==>
      exists i :: 0 <= i < |d.keys| && SourceEntry(d, ext, d.keys[i]) == Failure(ReportOf(d, ext).error) &&
        forall j :: 0 <= j < i ==> SourceEntry(d, ext, d.keys[j]).Success?
  {
    StepEntriesOwnSource(d, ext);
    CollectFailsOnFirstFailure(d.keys, Step(d, ext));
  }

  /** One turn of the outer loop. */
  lemma CollectStep(sources: seq<string>, step: string --> Result<Option<Entry>, Error>, i: nat)
    requires i < |sources|
    requires forall k :: 0 <= k < |sources| ==> step.requires(sources[k])
    ensures Collect(sources[i..], step) ==
      match step(sources[i])
      case Failure(e) => Failure(e)
      case Success(first) => Prefixed(AsSeq(first), Collect(sources[i + 1..], step))
  {
    assert sources[i..][1..] == sources[i + 1..];
  }

  // ---------------------------------------------------------------------
  // The shared dictionary and the driver
  // ---------------------------------------------------------------------

  /** The `bySource` dictionary that `handle` fills and `main` reads. */
  class Collector {
    var bySource: BySource

    ghost predicate Valid()
      reads this
    {
      WellFormed(bySource)
    }

    constructor ()
      ensures Valid() && bySource == Empty()
    {
      bySource := Empty();
    }

    /** `handle` on an already decoded coverage file. */
    method Handle(body: CovDataFile)
      requires Valid()
      modifies this
      ensures Valid()
      ensures bySource == Ingest(old(bySource), body.testFilePath, body.sourceFilesCovered)
    {
      var suiteName := body.testFilePath;
      var els := body.sourceFilesCovered;
      ghost var start := bySource;
      for i := 0 to |els|
        invariant bySource == Ingest(start, suiteName, els[..i])
      {
        var el := els[i];
        var sourcePath := el.result.url;
        ghost var prev := bySource;
        StoreInTwoSteps(prev, suiteName, el);
        if sourcePath !in bySource.values {
          bySource := Put(bySource, sourcePath, Empty());
        }
        bySource := Put(bySource, sourcePath, Put(bySource.values[sourcePath], suiteName, el));
        IngestPrefixStep(start, suiteName, els, i);
      }
      assert els[..|els|] == els;
      IngestWellFormed(start, suiteName, els);
    }

    /** The inner loop of `main` for one source: skip the suites without a
        block-coverage function, read the first other suite's code and
        yield its resolved ranges; nothing when no suite qualifies. */
    method ReportSource(ext: Externals, source: string) returns (r: Result<Option<Entry>, Error>)
      requires Valid() && source in bySource.values
      ensures r == Step(bySource, ext)(source)
    {
      var wat := bySource.values[source];
      for j := 0 to |wat.keys|
        invariant forall k :: 0 <= k < j ==> !HasBlockCoverage(wat.values[wat.keys[k]])
      {
        var test := wat.keys[j];
        var el := wat.values[test];
        var good := BlockFunctions(el.result.functions);
        BlockFunctionsEmpty(el);
        if |good| == 0 {
          continue;
        }
        StepAt(bySource, ext, source, j);
        var code := ext.catFile(el.code);
        if code.None? {
          return Failure(CatFileFailed(el.code));
        }
        return Success(Some(Entry(source, el.code, test, ReportFunctions(ext, code.value, el.wrapperLength, good))));
      }
      StepNone(bySource, ext, source);
      return Success(None);
    }

    /** The printing loops of `main`: each source in key order yields the
        entry of its first suite with block coverage, if any; the first
        failure to read a code blob aborts the run. */
    method Report(ext: Externals) returns (r: Result<seq<Entry>, Error>)
      requires Valid()
      ensures r == ReportOf(bySource, ext)
    {
      var sources := bySource.keys;
      ghost var step := Step(bySource, ext);
      var entries: seq<Entry> := [];
      assert sources[0..] == sources;
      PrefixedNothing(entries, Collect(sources, step));
      for i := 0 to |sources|
        invariant ReportOf(bySource, ext) == Prefixed(entries, Collect(sources[i..], step))
      {
        var source := sources[i];
        CollectStep(sources, step, i);
        var printed := ReportSource(ext, source);
        match printed {
          case Failure(e) =>
            return Failure(e);
          case Success(entry) =>
            PrefixedConcat(entries, AsSeq(entry), Collect(sources[i + 1..], step));
            entries := entries + AsSeq(entry);
        }
      }
      assert sources[|sources|..] == [];
      PrefixedNothing(entries, Collect([], step));
      return Success(entries);
    }
  }

  /** The whole program on already decoded files: `handle` each file in
      turn, then report. */
  method Run(files: seq<CovDataFile>, ext: Externals) returns (r: Result<seq<Entry>, Error>)
    ensures r == ReportOf(IngestAll(files), ext)
  {
    var collector := new Collector();
    for i := 0 to |files|
      invariant collector.Valid()
      invariant collector.bySource == IngestAll(files[..i])
    {
      collector.Handle(files[i]);
      assert files[..i + 1][..i] == files[..i];
    }
    assert files[..|files|] == files;
    r := collector.Report(ext);
  }
}
