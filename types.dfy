/** The shapes of a coverage data file (src/types.ts) and of the parts of
    V8's `Profiler.ScriptCoverage` that the core reads. */
module Types {

  /** A content hash naming a blob in the object store. */
  type Hash = string

  /** One block of a function, in character offsets of the executed code. */
  datatype CoverageRange = CoverageRange(startOffset: nat, endOffset: nat, count: nat)

  datatype FunctionCoverage = FunctionCoverage(
    functionName: string,
    ranges: seq<CoverageRange>,
    isBlockCoverage: bool)

  datatype ScriptCoverage = ScriptCoverage(url: string, functions: seq<FunctionCoverage>)

  /** One covered script of one suite: its V8 result, the length of the module
      wrapper that precedes the transformed code, and the hashes of the
      transformed and original code. */
  datatype CovDataElement = CovDataElement(
    result: ScriptCoverage,
    wrapperLength: nat,
    code: Hash,
    originalCode: Hash)

  /** The decoded contents of one `.covdata.br` file: one suite's run. */
  datatype CovDataFile = CovDataFile(
    version: int,
    testFilePath: string,
    sourceFilesCovered: seq<CovDataElement>,
    duration: int)
}
