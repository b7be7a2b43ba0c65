/** The pure string handling of the Jest reporter (src/reporter.ts): path
    normalisation and the removal of a trailing source-map comment. */
module Reporter {

  import opened Wrappers

  /** Windows separators become forward slashes; every other character,
      and the length, are kept. */
  function Slash(path: string): (r: string)
    ensures |r| == |path|
    ensures forall i :: 0 <= i < |path| ==> r[i] == (if path[i] == '\\' then '/' else path[i])
  {
    if path == [] then []
    else [if path[0] == '\\' then '/' else path[0]] + Slash(path[1..])
  }

  predicate NoBackslash(s: string) {
    forall i :: 0 <= i < |s| ==> s[i] != '\\'
  }

  lemma SlashRemovesBackslashes(path: string)
    ensures NoBackslash(Slash(path))
  {
  }

  /** A string without backslashes is already normal. */
  lemma SlashFixesClean(path: string)
    requires NoBackslash(path)
    ensures Slash(path) == path
  {
  }

  lemma SlashIdempotent(path: string)
    ensures Slash(Slash(path)) == Slash(path)
  {
    SlashRemovesBackslashes(path);
    SlashFixesClean(Slash(path));
  }

  predicate StartsWith(s: string, prefix: string) {
    |prefix| <= |s| && s[..|prefix|] == prefix
  }

  predicate EndsWithSlash(s: string) {
    |s| > 0 && s[|s| - 1] == '/'
  }

  /** The root directory as `relativePath` compares against it: slashed, and
      given a trailing `/` only when it has none. */
  function NormalRoot(rootDir: string): (root: string)
    ensures EndsWithSlash(root)
    ensures NoBackslash(root)
    ensures EndsWithSlash(Slash(rootDir)) ==> root == Slash(rootDir)
    ensures !EndsWithSlash(Slash(rootDir)) ==> root == Slash(rootDir) + "/"
  {
    var root := Slash(rootDir);
    SlashRemovesBackslashes(rootDir);
    if EndsWithSlash(root) then root else root + "/"
  }

  /** The test file's path relative to the project root, with forward
      slashes; a path outside the root comes back slashed but whole. */
  function RelativePath(rootDir: string, testPath: string): (r: string)
    ensures NoBackslash(r)
    ensures StartsWith(Slash(testPath), NormalRoot(rootDir)) ==> NormalRoot(rootDir) + r == Slash(testPath)
    ensures !StartsWith(Slash(testPath), NormalRoot(rootDir)) ==> r == Slash(testPath)
  {
    var root := NormalRoot(rootDir);
    var path := Slash(testPath);
    SlashRemovesBackslashes(testPath);
    if StartsWith(path, root) then
      assert path == root + path[|root|..];
      path[|root|..]
    else
      path
  }

  /** Round trip: a clean path under any root directory, Windows-style or
      not, taken relative to that directory, gives back the part below the
      root. */
  lemma RelativePathUnderRoot(rootDir: string, rel: string)
    requires NoBackslash(rel)
    ensures RelativePath(rootDir, NormalRoot(rootDir) + rel) == rel
  {
    var root := NormalRoot(rootDir);
    var path := root + rel;
    assert NoBackslash(path) by {
      forall i | 0 <= i < |path| ensures path[i] != '\\' {
        if i >= |root| { assert path[i] == rel[i - |root|]; }
      }
    }
    SlashFixesClean(path);
    assert path[..|root|] == root;
  }

  /** The text that opens the source-map comment line. */
  const MappingMarker := "//# sourceMappingURL="

  predicate NoNewline(s: string) {
    forall i :: 0 <= i < |s| ==> s[i] != '\n'
  }

  /** The index of the last newline in `s`, if any. */
  function LastNewline(s: string): (r: Option<nat>)
    ensures r.Some? ==> r.value < |s| && s[r.value] == '\n' && NoNewline(s[r.value + 1..])
    ensures r.None? ==> NoNewline(s)
  {
    if s == [] then None
    else if s[|s| - 1] == '\n' then Some(|s| - 1)
    else
      var r := LastNewline(s[..|s| - 1]);
      assert r.Some? ==> s[r.value + 1..] == s[..|s| - 1][r.value + 1..] + [s[|s| - 1]];
      r
  }

  /** A newline followed by newline-free text is the last newline. */
  lemma {:induction false} LastNewlineAt(s: string, p: nat)
    requires p < |s| && s[p] == '\n' && NoNewline(s[p + 1..])
    ensures LastNewline(s) == Some(p)
    decreases |s|
  {
    if p != |s| - 1 {
      var init := s[..|s| - 1];
      assert s[|s| - 1] == s[p + 1..][|s| - 1 - (p + 1)];
      assert init[p + 1..] == s[p + 1..|s| - 1];
      var tail := init[p + 1..];
      assert NoNewline(tail) by {
        forall i | 0 <= i < |tail| ensures tail[i] != '\n' {
          assert tail[i] == s[p + 1..][i];
        }
      }
      LastNewlineAt(init, p);
    }
  }

  /** A final line that the source-map comment pattern accepts: the marker
      followed by at least one character. */
  predicate IsMappingLine(line: string) {
    |line| > |MappingMarker| && line[..|MappingMarker|] == MappingMarker
  }

  /** `code.replace(/\n\/\/# sourceMappingURL=[^\n]+$/, '')`. Without the
      multiline flag `$` matches only at the end of the text, and `[^\n]+`
      cannot cross a newline, so the only possible match starts at the last
      newline. The result is always a prefix of the code; when it is shorter,
      what was cut is exactly a newline and a source-map line. */
  function StripSourceMappingUrl(code: string): (r: string)
    ensures |r| <= |code| && code[..|r|] == r
    ensures r != code ==>
      |r| < |code| && code[|r|] == '\n' && IsMappingLine(code[|r| + 1..]) && NoNewline(code[|r| + 1..])
  {
    match LastNewline(code)
    case None => code
    case Some(i) => if IsMappingLine(code[i + 1..]) then code[..i] else code
  }

  /** Every code text that ends in a newline and a source-map line loses
      exactly that. */
  lemma StripRemovesMappingLine(body: string, url: string)
    requires |url| > 0 && NoNewline(url)
    ensures StripSourceMappingUrl(body + "\n" + MappingMarker + url) == body
  {
    var line := MappingMarker + url;
    var code := body + "\n" + line;
    assert body + "\n" + MappingMarker + url == code;
    assert code[|body|] == '\n';
    assert code[|body| + 1..] == line;
    assert NoNewline(line) by {
      forall i | 0 <= i < |line| ensures line[i] != '\n' {
        if i >= |MappingMarker| { assert line[i] == url[i - |MappingMarker|]; }
      }
    }
    LastNewlineAt(code, |body|);
    assert line[..|MappingMarker|] == MappingMarker;
    assert code[..|body|] == body;
  }

  /** Code whose last line is not a source-map line is left as it is. */
  lemma StripKeepsOtherCode(code: string)
    requires forall i :: 0 <= i < |code| && code[i] == '\n' ==> !(NoNewline(code[i + 1..]) && IsMappingLine(code[i + 1..]))
    ensures StripSourceMappingUrl(code) == code
  {
  }
}
