/** Recognising non-code files (lockfiles, CI configuration, build output, media)
    and removing their hunks from a unified diff, as
    github_tracker_bot/helpers/extract_unnecessary_diff.py does with regular expressions. */
module DiffFilter {
  import opened Wrappers
  import opened Text

  /** The shapes of regular expression that occur in the non-code list. */
  datatype Pattern =
    | Exact(name: string)              // ^name$
    | Prefix(dir: string)              // ^dir.*
    | SuffixOneOf(ends: seq<string>)   // .*(e1|e2|...)$
    | AnyCharThen(rest: string)        // ^.rest$  (an unescaped leading dot)

  /** The number of entries of `non_code_patterns`. */
  const PatternCount := 58

  /** Entry `i` of the list `non_code_patterns`, in its order (the last entry
      also answers every index past the end). The unescaped dot of
      `^.gitlab-ci\.yml$` is kept: it stands for any one character. The list
      is looked up in blocks of eight. */
  function PatternAt(i: nat): Pattern {
    if i < 8 then PatternBlock0(i)
    else if i < 16 then PatternBlock1(i - 8)
    else if i < 24 then PatternBlock2(i - 16)
    else if i < 32 then PatternBlock3(i - 24)
    else if i < 40 then PatternBlock4(i - 32)
    else if i < 48 then PatternBlock5(i - 40)
    else if i < 56 then PatternBlock6(i - 48)
    else PatternBlock7(i - 56)
  }

  function PatternBlock0(j: nat): Pattern {
    match j
    case 0 => Exact("yarn.lock")
    case 1 => Exact("package-lock.json")
    case 2 => Exact("pnpm-lock.yaml")
    case 3 => Exact("pipfile.lock")
    case 4 => Exact(".gitignore")
    case 5 => Exact(".editorconfig")
    case 6 => Exact(".eslintignore")
    case _ => Exact(".eslintrc.json")
  }

  function PatternBlock1(j: nat): Pattern {
    match j
    case 0 => Exact(".prettierrc")
    case 1 => Exact(".prettierrc.json")
    case 2 => Exact(".prettierrc.yaml")
    case 3 => Exact(".stylelintrc")
    case 4 => Exact(".stylelintrc.json")
    case 5 => Exact(".stylelintrc.yaml")
    case 6 => Exact(".browserslistrc")
    case _ => Exact(".npmrc")
  }

  function PatternBlock2(j: nat): Pattern {
    match j
    case 0 => Exact(".yarnrc")
    case 1 => Exact(".nvmrc")
    case 2 => Exact(".env")
    case 3 => Exact(".env.example")
    case 4 => Exact("CONTRIBUTING.md")
    case 5 => Exact("CHANGELOG.md")
    case 6 => Exact("Dockerfile")
    case _ => Exact("Jenkinsfile")
  }

  function PatternBlock3(j: nat): Pattern {
    match j
    case 0 => Exact(".travis.yml")
    case 1 => Exact(".circleci/config.yml")
    case 2 => Exact("Makefile")
    case 3 => SuffixOneOf([".png", ".jpg", ".gif", ".svg"])
    case 4 => SuffixOneOf([".pdf", ".docx"])
    case 5 => SuffixOneOf([".log"])
    case 6 => SuffixOneOf([".csv"])
    case _ => SuffixOneOf([".json"])
  }

  function PatternBlock4(j: nat): Pattern {
    match j
    case 0 => Prefix("node_modules/")
    case 1 => Prefix("vendor/")
    case 2 => Prefix("dist/")
    case 3 => Prefix("build/")
    case 4 => Prefix("target/")
    case 5 => Exact(".DS_Store")
    case 6 => Exact("thumbs.db")
    case _ => Prefix(".vscode/")
  }

  function PatternBlock5(j: nat): Pattern {
    match j
    case 0 => Prefix(".idea/")
    case 1 => Prefix(".github/workflows/")
    case 2 => Exact("azure-pipelines.yml")
    case 3 => Exact("bitbucket-pipelines.yml")
    case 4 => AnyCharThen("gitlab-ci.yml")
    case 5 => Exact("Cargo.toml")
    case 6 => Exact("Cargo.lock")
    case _ => Exact("tsconfig.json")
  }

  function PatternBlock6(j: nat): Pattern {
    match j
    case 0 => Exact("jsconfig.json")
    case 1 => Exact("tslint.json")
    case 2 => Exact("jest.config.js")
    case 3 => Exact("babel.config.js")
    case 4 => Exact("webpack.config.js")
    case 5 => Exact("rollup.config.js")
    case 6 => Exact("Pipfile")
    case _ => Exact("requirements.txt")
  }

  function PatternBlock7(j: nat): Pattern {
    match j
    case 0 => Exact("pyproject.toml")
    case _ => Exact("tox.ini")
  }

  predicate NoNewline(s: string) {
    forall i :: 0 <= i < |s| ==> s[i] != '\n'
  }

  predicate EndsWith(s: string, e: string) {
    |e| <= |s| && s[|s| - |e|..] == e
  }

  /** `s` is `x` followed by the end of the text, or by one final newline: where `$` matches. */
  predicate IsAtEnd(s: string, x: string) {
    StartsWith(s, x) && (|s| == |x| || (|s| == |x| + 1 && s[|x|] == '\n'))
  }

  lemma IsAtEndIff(s: string, x: string)
    ensures IsAtEnd(s, x) <==> s == x || s == x + "\n"
  {
    StartsWithIsPrefix(s, x);
    if |s| == |x| + 1 && x <= s {
      assert s == s[..|x|] + [s[|x|]];
    }
  }

  /** `re.match(p, s)`: the pattern matches at the start of `s`. `.` and `.*`
      never cross a newline, and `$` also matches before a final newline. */
  predicate Matches(p: Pattern, s: string) {
    match p
    case Exact(n) => IsAtEnd(s, n)
    case Prefix(d) => StartsWith(s, d)
    case SuffixOneOf(es) => exists k :: 0 <= k < |es| && SuffixHit(s, es[k])
    case AnyCharThen(r) => |s| >= 1 && s[0] != '\n' && IsAtEnd(s[1..], r)
  }

  /** `.*e$` matches `s` from its start: `s` ends with `e` (or `e` and a final newline)
      and no newline comes before. */
  predicate SuffixHit(s: string, e: string) {
    (EndsWith(s, e) && NoNewline(s[..|s| - |e|]))
    || (EndsWith(s, e + "\n") && NoNewline(s[..|s| - |e| - 1]))
  }

  /** `re.search(p, s)`: the pattern matches somewhere in `s`; `^` still anchors at 0. */
  predicate Searches(p: Pattern, s: string) {
    match p
    case SuffixOneOf(es) => exists k :: 0 <= k < |es| && (EndsWith(s, es[k]) || EndsWith(s, es[k] + "\n"))
    case _ => Matches(p, s)
  }

  /** Some listed pattern matches `path` from its start. */
  predicate NonCode(path: string) {
    exists i :: 0 <= i < PatternCount && Matches(PatternAt(i), path)
  }

  /** `combined_pattern.search(path)`, the alternation of every listed pattern. */
  predicate NonCodeSearch(path: string) {
    exists i :: 0 <= i < PatternCount && Searches(PatternAt(i), path)
  }

  /** For text without newlines (every path the diff regexes capture), searching and
      matching the pattern list agree. */
  lemma SearchIsMatchWithoutNewline(path: string)
    requires NoNewline(path)
    ensures NonCodeSearch(path) <==> NonCode(path)
  {
    forall i | 0 <= i < PatternCount ensures Searches(PatternAt(i), path) <==> Matches(PatternAt(i), path) {
      match PatternAt(i)
      case SuffixOneOf(es) =>
        forall k | 0 <= k < |es| && EndsWith(path, es[k]) ensures SuffixHit(path, es[k]) {
          assert NoNewline(path[..|path| - |es[k]|]);
        }
        forall k | 0 <= k < |es| ensures !EndsWith(path, es[k] + "\n") {
          assert |path| > 0 ==> path[|path| - 1] != '\n';
        }
      case _ =>
    }
  }

  /** `is_non_code_file`: tries the patterns in order and stops at the first match. */
  method IsNonCodeFile(path: string) returns (r: bool)
    ensures r <==> NonCode(path)
  {
    r := FirstMatch(PatternAt, PatternCount, path);
  }

  /** The loop of `is_non_code_file` over the first `n` entries of the list
      `patterns`: true at the first entry that matches. */
  method FirstMatch(patterns: nat -> Pattern, n: nat, path: string) returns (r: bool)
    ensures r <==> exists i :: 0 <= i < n && Matches(patterns(i), path)
  {
    for i := 0 to n
      invariant forall j :: 0 <= j < i ==> !Matches(patterns(j), path)
    {
      if MatchesPattern(patterns(i), path) {
        return true;
      }
    }
    return false;
  }

  /** A decision procedure for `Matches`. */
  function MatchesPattern(p: Pattern, s: string): (b: bool)
    ensures b <==> Matches(p, s)
  {
    match p
    case Exact(n) => IsAtEnd(s, n)
    case Prefix(d) => StartsWith(s, d)
    case SuffixOneOf(es) => SuffixMatchFrom(es, s, 0)
    case AnyCharThen(r) => |s| >= 1 && s[0] != '\n' && IsAtEnd(s[1..], r)
  }

  function SuffixMatchFrom(es: seq<string>, s: string, k: nat): (b: bool)
    requires k <= |es|
    decreases |es| - k
    ensures b <==> (exists j :: k <= j < |es| && SuffixHit(s, es[j]))
  {
    if k == |es| then false
    else
      var e := es[k];
      var here := (EndsWith(s, e) && HasNoNewline(s[..|s| - |e|]))
                  || (EndsWith(s, e + "\n") && HasNoNewline(s[..|s| - |e| - 1]));
      assert here <==> SuffixHit(s, e);
      here || SuffixMatchFrom(es, s, k + 1)
  }

  function HasNoNewline(s: string): (b: bool)
    ensures b <==> NoNewline(s)
  {
    forall i | 0 <= i < |s| :: s[i] != '\n'
  }

  const Header := "diff --git a/"

  /** The end of the line that contains position `k`: the first newline at or after `k`. */
  function LineEnd(s: string, k: nat): (e: Option<nat>)
    decreases |s| - k
    ensures e.Some? ==> k <= e.value < |s| && s[e.value] == '\n' && NoNewline(s[k..e.value])
    ensures e.None? ==> k >= |s| || NoNewline(s[k..])
  {
    if k >= |s| then None
    else if s[k] == '\n' then Some(k)
    else
      var e := LineEnd(s, k + 1);
      assert e.Some? ==> s[k..e.value] == [s[k]] + s[k + 1..e.value];
      assert e.None? ==> s[k..] == [s[k]] + s[k + 1..];
      e
  }

  /** `diff --git a\/(.+?) b\/(.+?)\n` matches at position `i` with a first group of
      length `j`: both groups are non-empty and newline-free, and the second ends at a newline. */
  ghost predicate HeaderAt(s: string, i: nat, j: nat) {
    var k := i + |Header|;
    OccursAt(s, Header, i) && j >= 1 && OccursAt(s, " b/", k + j)
    && exists e :: k + j + 3 < e < |s| && s[e] == '\n' && NoNewline(s[k..e])
  }

  /** A newline-free stretch from `k` that ends at a newline is the line `LineEnd` finds. */
  lemma LineUnique(s: string, k: nat, e: nat)
    requires k <= e < |s| && s[e] == '\n' && NoNewline(s[k..e])
    ensures LineEnd(s, k) == Some(e)
  {
    var l := LineEnd(s, k);
  }

  /** With the header text at `i` and its line ending at `e`, the regex matches
      with first-group length `j` exactly when ` b/` follows and leaves a non-empty second group. */
  lemma HeaderAtLine(s: string, i: nat, j: nat, e: nat)
    requires OccursAt(s, Header, i) && LineEnd(s, i + |Header|) == Some(e)
    ensures HeaderAt(s, i, j) <==> j >= 1 && OccursAt(s, " b/", i + |Header| + j) && i + |Header| + j + 3 < e
  {
    var k := i + |Header|;
    if HeaderAt(s, i, j) {
      var e' :| k + j + 3 < e' < |s| && s[e'] == '\n' && NoNewline(s[k..e']);
      LineUnique(s, k, e');
    }
  }

  /** Without a line end after the header text, there is no match there. */
  lemma NoHeaderWithoutLine(s: string, i: nat, j: nat)
    requires LineEnd(s, i + |Header|).None?
    ensures !HeaderAt(s, i, j)
  {
    var k := i + |Header|;
    if HeaderAt(s, i, j) {
      var e' :| k + j + 3 < e' < |s| && s[e'] == '\n' && NoNewline(s[k..e']);
      LineUnique(s, k, e');
    }
  }

  /** The shortest first group, from length `j` on, when the line ends at `e`. */
  function LazyGroup(s: string, k: nat, j: nat, e: nat): (r: Option<nat>)
    requires e <= |s|
    decreases e - j
    ensures r.Some? ==> j <= r.value && r.value >= 1 && k + r.value + 3 < e && OccursAt(s, " b/", k + r.value)
    ensures r.Some? ==> forall p :: k + j <= p < k + r.value && p > k ==> !OccursAt(s, " b/", p)
    ensures r.None? ==> forall p :: k + j <= p && p > k && p + 3 < e ==> !OccursAt(s, " b/", p)
  {
    if k + j + 3 >= e then None
    else if j >= 1 && s[k + j..k + j + 3] == " b/" then Some(j)
    else LazyGroup(s, k, j + 1, e)
  }

  /** The first header at or after position `i`. */
  function ExtractFrom(s: string, i: nat): (r: Option<(nat, nat)>)
    decreases |s| - i
    ensures r.Some? ==> i <= r.value.0 && HeaderAt(s, r.value.0, r.value.1)
    ensures r.Some? ==> forall j: nat :: 1 <= j < r.value.1 ==> !HeaderAt(s, r.value.0, j)
    ensures r.Some? ==> forall i': nat, j: nat :: i <= i' < r.value.0 ==> !HeaderAt(s, i', j)
    ensures r.None? ==> forall i': nat, j: nat :: i <= i' ==> !HeaderAt(s, i', j)
  {
    if i + |Header| > |s| then
      None
    else
      var k := i + |Header|;
      var line := LineEnd(s, k);
      var found :=
        if s[i..k] != Header || line.None? then None
        else LazyGroup(s, k, 1, line.value);
      if found.Some? then
        var j := found.value;
        HeaderAtLine(s, i, j, line.value);
        forall j' | 1 <= j' < j ensures !HeaderAt(s, i, j') {
          HeaderAtLine(s, i, j', line.value);
        }
        Some((i, j))
      else
        forall j: nat ensures !HeaderAt(s, i, j) {
          if line.None? { NoHeaderWithoutLine(s, i, j); }
          else if s[i..k] == Header { HeaderAtLine(s, i, j, line.value); }
        }
        ExtractFrom(s, i + 1)
  }

  /** `extract_file_path`: the `a/` path of the first `diff --git a/X b/Y\n` header. */
  function ExtractFilePath(diff: string): (r: Option<string>)
    ensures r.None? <==> forall i: nat, j: nat :: !HeaderAt(diff, i, j)
    ensures r.Some? ==> exists i: nat, j: nat :: HeaderAt(diff, i, j) && r.value == diff[i + |Header|..i + |Header| + j]
                                         && (forall i': nat, j': nat :: i' < i ==> !HeaderAt(diff, i', j'))
                                         && (forall j': nat :: 1 <= j' < j ==> !HeaderAt(diff, i, j'))
  {
    match ExtractFrom(diff, 0)
    case None => None
    case Some((i, j)) =>
      Some(diff[i + |Header|..i + |Header| + j])
  }

  /** `process_diff`: true (discard) when no path is found or the path is non-code. */
  method ProcessDiff(diff: string) returns (discard: bool)
    ensures ExtractFilePath(diff).None? ==> discard
    ensures ExtractFilePath(diff).Some? ==> (discard <==> NonCode(ExtractFilePath(diff).value))
  {
    var path := ExtractFilePath(diff);
    if path.Some? && path.value != "" {
      discard := IsNonCodeFile(path.value);
    } else {
      discard := true;
    }
  }

  /** `re.search(r'a/(.*) b/(.*)', chunk)`: from the leftmost `a/` whose line holds a
      later ` b/`, the greedy groups: up to the last ` b/` of that line, and the rest of the line. */
  ghost predicate PathsAt(c: string, i: nat, q: nat) {
    OccursAt(c, "a/", i) && i + 2 <= q && OccursAt(c, " b/", q) && NoNewline(c[i + 2..q + 3])
  }

  /** The end of the line holding position `k`, or the end of the text. */
  function LineStop(c: string, k: nat): (e: nat)
    ensures k <= |c| ==> k <= e <= |c|
    ensures k <= |c| ==> NoNewline(c[k..e]) && (e == |c| || c[e] == '\n')
  {
    if k > |c| then k else match LineEnd(c, k) case None => |c| case Some(e) => e
  }

  /** The last ` b/` that starts in `[k, q]` and ends by `e`. */
  function LastSep(c: string, k: nat, q: int, e: nat): (r: Option<nat>)
    requires k <= e <= |c|
    requires q + 3 <= e
    decreases q - k + 1
    ensures r.Some? ==> k <= r.value <= q && OccursAt(c, " b/", r.value)
    ensures r.Some? ==> forall q' :: r.value < q' <= q ==> !OccursAt(c, " b/", q')
    ensures r.None? ==> forall q' :: k <= q' <= q ==> !OccursAt(c, " b/", q')
  {
    if q < k then None
    else if c[q..q + 3] == " b/" then Some(q)
    else LastSep(c, k, q - 1, e)
  }

  /** With `a/` at `i`, a ` b/` at `q` is part of a match exactly when it lies on the same line. */
  lemma PathsAtLine(c: string, i: nat, q: nat)
    requires OccursAt(c, "a/", i)
    ensures PathsAt(c, i, q) <==> i + 2 <= q && q + 3 <= LineStop(c, i + 2) && OccursAt(c, " b/", q)
  {
    var k, e := i + 2, LineStop(c, i + 2);
    if i + 2 <= q && q + 3 <= e {
      assert c[k..q + 3] == c[k..e][..q + 3 - k];
    }
  }

  /** The match of `a/(.*) b/(.*)` found searching from position `i`: the position of
      its `a/` and of the ` b/` that ends its first group. */
  function GreedyPathsFrom(c: string, i: nat): (r: Option<(nat, nat)>)
    decreases |c| - i
    ensures r.Some? ==> i <= r.value.0 && PathsAt(c, r.value.0, r.value.1)
    ensures r.Some? ==> forall q: nat :: r.value.1 < q ==> !PathsAt(c, r.value.0, q)
    ensures r.Some? ==> forall i': nat, q: nat :: i <= i' < r.value.0 ==> !PathsAt(c, i', q)
    ensures r.None? ==> forall i': nat, q: nat :: i <= i' ==> !PathsAt(c, i', q)
  {
    if i + 2 > |c| then
      None
    else
      var k := i + 2;
      var e := LineStop(c, k);
      var sep := if c[i..k] != "a/" || k + 3 > e then None else LastSep(c, k, e - 3, e);
      if sep.Some? then
        var q := sep.value;
        PathsAtLine(c, i, q);
        forall q': nat | q < q' ensures !PathsAt(c, i, q') {
          PathsAtLine(c, i, q');
        }
        Some((i, q))
      else
        forall q: nat ensures !PathsAt(c, i, q) {
          if c[i..k] == "a/" { PathsAtLine(c, i, q); }
        }
        GreedyPathsFrom(c, i + 1)
  }

  /** `re.search(r'a/(.*) b/(.*)', chunk)` and its two groups: from the leftmost `a/` whose
      line holds a later ` b/`, the text up to the last ` b/` of that line, and the rest of the line. */
  function GreedyPaths(c: string): (r: Option<(string, string)>)
    ensures r.Some? ==> NoNewline(r.value.0) && NoNewline(r.value.1)
    ensures r.None? <==> forall i: nat, q: nat :: !PathsAt(c, i, q)
    ensures r.Some? ==> (exists i: nat, q: nat :: PathsAt(c, i, q)
                          && r.value == (c[i + 2..q], c[q + 3..LineStop(c, i + 2)])
                          && (forall i': nat, q': nat :: i' < i ==> !PathsAt(c, i', q'))
                          && (forall q': nat :: q < q' ==> !PathsAt(c, i, q')))
  {
    match GreedyPathsFrom(c, 0)
    case None => None
    case Some((i, q)) =>
      var e := LineStop(c, i + 2);
      PathsAtLine(c, i, q);
      assert c[i + 2..q] == c[i + 2..e][..q - i - 2];
      assert c[q + 3..e] == c[i + 2..e][q + 3 - i - 2..];
      Some((c[i + 2..q], c[q + 3..e]))
  }

  /** Whether `filter_diffs` keeps a chunk: it has content, the path regex finds both
      paths, and neither path is matched by the combined pattern. */
  predicate KeepChunk(c: string) {
    !AllSpace(c)
    && GreedyPaths(c).Some?
    && !NonCodeSearch(GreedyPaths(c).value.0)
    && !NonCodeSearch(GreedyPaths(c).value.1)
  }

  /** The chunks that `keep` accepts, each given back its `diff --git` prefix,
      in input order (`filter_diffs` keeps by `KeepChunk`). */
  function KeptHunks(chunks: seq<string>, keep: string -> bool): (r: seq<string>)
    ensures |r| <= |chunks|
  {
    if chunks == [] then []
    else KeptHunks(chunks[..|chunks| - 1], keep)
         + (if keep(chunks[|chunks| - 1]) then ["diff --git" + chunks[|chunks| - 1]] else [])
  }

  /** The chunks `filter_diffs` works on: the stripped text split at every `diff --git`. */
  function Chunks(text: string): seq<string> {
    Split(Strip(text), "diff --git")
  }

  /** What `filter_diffs` returns. */
  function FilteredText(text: string): string {
    Join(KeptHunks(Chunks(text), KeepChunk), "\n ")
  }

  /** `filter_diffs`. */
  method FilterDiffs(text: string) returns (r: string)
    ensures r == FilteredText(text)
  {
    var diffs := Chunks(text);
    var filtered: seq<string> := [];
    for n := 0 to |diffs|
      invariant filtered == KeptHunks(diffs[..n], KeepChunk)
    {
      var d := diffs[n];
      assert diffs[..n + 1] == diffs[..n] + [d];
      KeptHunksAppend(diffs[..n], d, KeepChunk);
      var keep := KeepsChunk(d);
      if keep {
        filtered := filtered + ["diff --git" + d];
      }
    }
    assert diffs[..|diffs|] == diffs;
    r := Join(filtered, "\n ");
  }

  /** The body of the loop of `filter_diffs`: whether chunk `d` is kept. */
  method KeepsChunk(d: string) returns (keep: bool)
    ensures keep == KeepChunk(d)
  {
    if AllSpace(d) {
      return false;
    }
    var paths := GreedyPaths(d);
    if paths.None? {
      return false;
    }
    var a := IsNonCodeSearch(paths.value.0);
    var b := IsNonCodeSearch(paths.value.1);
    keep := !(a || b);
  }

  /** `combined_pattern.search(path)` as a loop over the alternatives. */
  method IsNonCodeSearch(path: string) returns (r: bool)
    ensures r <==> NonCodeSearch(path)
  {
    r := AnySearch(PatternAt, PatternCount, path);
  }

  /** The alternation of the first `n` entries of `patterns`, searched in `path`. */
  method AnySearch(patterns: nat -> Pattern, n: nat, path: string) returns (r: bool)
    ensures r <==> exists i :: 0 <= i < n && Searches(patterns(i), path)
  {
    r := false;
    for i := 0 to n
      invariant r <==> exists j :: 0 <= j < i && Searches(patterns(j), path)
    {
      var hit := SearchesPattern(patterns(i), path);
      r := r || hit;
    }
  }

  function SearchesPattern(p: Pattern, s: string): (b: bool)
    ensures b <==> Searches(p, s)
  {
    match p
    case SuffixOneOf(es) => exists k | 0 <= k < |es| :: EndsWith(s, es[k]) || EndsWith(s, es[k] + "\n")
    case _ => MatchesPattern(p, s)
  }

  /** A chunk is in the output exactly when it is kept, and only with its prefix. */
  lemma {:induction false} KeptHunksMembers(chunks: seq<string>, keep: string -> bool, h: string)
    ensures h in KeptHunks(chunks, keep) <==> exists c :: c in chunks && keep(c) && h == "diff --git" + c
  {
    if chunks != [] {
      var init := chunks[..|chunks| - 1];
      KeptHunksMembers(init, keep, h);
      assert chunks == init + [chunks[|chunks| - 1]];
      forall c | c in chunks ensures c in init || c == chunks[|chunks| - 1] {}
    }
  }

  /** Kept hunks keep their input order: the output is the kept chunks, in sequence. */
  lemma {:induction false} KeptHunksAppend(chunks: seq<string>, c: string, keep: string -> bool)
    ensures KeptHunks(chunks + [c], keep) == KeptHunks(chunks, keep) + (if keep(c) then ["diff --git" + c] else [])
  {
    assert (chunks + [c])[..|chunks|] == chunks;
  }

  /** Whitespace-only chunks and chunks without an `a/... b/...` path are dropped. */
  lemma DroppedChunks(c: string)
    requires AllSpace(c) || GreedyPaths(c).None?
    ensures KeptHunks([c], KeepChunk) == []
  {
    assert [c][..0] == [];
  }

  /** A chunk whose old or new path is non-code (a rename to or from such a file
      included) is dropped. */
  lemma NonCodePathDropped(c: string)
    requires GreedyPaths(c).Some?
    requires NonCode(GreedyPaths(c).value.0) || NonCode(GreedyPaths(c).value.1)
    ensures KeptHunks([c], KeepChunk) == []
  {
    SearchIsMatchWithoutNewline(GreedyPaths(c).value.0);
    SearchIsMatchWithoutNewline(GreedyPaths(c).value.1);
    assert [c][..0] == [];
  }

  /** When no chunk survives, the result is the empty string. */
  lemma {:induction false} NothingKept(text: string)
    requires forall c :: c in Chunks(text) ==> !KeepChunk(c)
    ensures FilteredText(text) == ""
  {
    NoneKept(Chunks(text), KeepChunk);
  }

  lemma {:induction false} NoneKept(chunks: seq<string>, keep: string -> bool)
    requires forall c :: c in chunks ==> !keep(c)
    ensures KeptHunks(chunks, keep) == []
  {
    if chunks != [] {
      NoneKept(chunks[..|chunks| - 1], keep);
    }
  }

  /** Concrete behaviour: lockfiles and dependency folders are non-code, as are the
      lower-case `pipfile.lock`, `tsconfig.json`, and any one character before `gitlab-ci.yml`. */
  lemma NonCodeExamples()
    ensures NonCode("yarn.lock") && NonCode("package-lock.json") && NonCode("pipfile.lock")
    ensures NonCode("tsconfig.json")
  {
    ListedNameIsNonCode(0, "yarn.lock");
    ListedNameIsNonCode(1, "package-lock.json");
    ListedNameIsNonCode(3, "pipfile.lock");
    ListedNameIsNonCode(47, "tsconfig.json");
  }

  lemma NodeModulesIsNonCode()
    ensures NonCode("node_modules/package")
  {
    ListedFolderIsNonCode(32, "node_modules/", "package");
    assert "node_modules/" + "package" == "node_modules/package";
  }

  /** The unescaped dot of `^.gitlab-ci\.yml$` lets any first character through, not only `.`. */
  lemma GitlabDotIsAnyChar(c: char)
    requires c != '\n'
    ensures NonCode([c] + "gitlab-ci.yml")
  {
    ListedAnyCharIsNonCode(44, "gitlab-ci.yml", c);
  }

  lemma ListedAnyCharIsNonCode(i: nat, r: string, c: char)
    requires i < PatternCount && PatternAt(i) == AnyCharThen(r) && c != '\n'
    ensures NonCode([c] + r)
  {
    var s := [c] + r;
    assert s[1..] == r;
    IsAtEndIff(r, r);
    assert Matches(PatternAt(i), s);
  }

  /** Every name the list spells out in full is non-code. */
  lemma ListedNameIsNonCode(i: nat, n: string)
    requires i < PatternCount && PatternAt(i) == Exact(n)
    ensures NonCode(n)
  {
    IsAtEndIff(n, n);
    assert Matches(PatternAt(i), n);
  }

  /** Everything under a listed folder is non-code. */
  lemma ListedFolderIsNonCode(i: nat, d: string, rest: string)
    requires i < PatternCount && PatternAt(i) == Prefix(d)
    ensures NonCode(d + rest)
  {
    StartsWithIsPrefix(d + rest, d);
    assert Matches(PatternAt(i), d + rest);
  }

  /** Cheap necessary conditions for a pattern to match a newline-free text: its
      length, and its first or last character. */
  predicate Plausible(pat: Pattern, s: string) {
    match pat
    case Exact(n) => |s| == |n| && (n != [] ==> s[0] == n[0] && s[|s| - 1] == n[|n| - 1])
    case Prefix(d) => |d| <= |s| && (d != [] ==> s[0] == d[0])
    case SuffixOneOf(es) => exists k :: 0 <= k < |es| && |es[k]| <= |s| && (es[k] != [] ==> s[|s| - 1] == es[k][|es[k]| - 1])
    case AnyCharThen(r) => |s| == |r| + 1 && (r != [] ==> s[|s| - 1] == r[|r| - 1])
  }

  lemma MatchesPlausible(pat: Pattern, s: string)
    requires NoNewline(s) && Matches(pat, s)
    ensures Plausible(pat, s)
  {
    match pat
    case Exact(n) =>
      IsAtEndIff(s, n);
    case Prefix(d) =>
      StartsWithIsPrefix(s, d);
    case SuffixOneOf(es) =>
      var k :| 0 <= k < |es| && SuffixHit(s, es[k]);
      if es[k] != [] { assert s[|s| - |es[k]|..][|es[k]| - 1] == s[|s| - 1]; }
    case AnyCharThen(r) =>
      IsAtEndIff(s[1..], r);
  }

  /** Concrete behaviour: source files are code; the lockfile pattern is lower-case only,
      so `Pipfile.lock` is not caught. */
  lemma MainPyIsCode()
    ensures !NonCode("main.py")
  {
    var p := "main.py";
    assert NoNewline(p);
    forall i | 0 <= i < PatternCount ensures !Matches(PatternAt(i), p) {
      assert !Plausible(PatternAt(i), p);
      if Matches(PatternAt(i), p) { MatchesPlausible(PatternAt(i), p); }
    }
  }

  lemma MainCIsCode()
    ensures !NonCode("src/main.c")
  {
    var p := "src/main.c";
    assert NoNewline(p);
    forall i | 0 <= i < PatternCount ensures !Matches(PatternAt(i), p) {
      assert !Plausible(PatternAt(i), p);
      if Matches(PatternAt(i), p) { MatchesPlausible(PatternAt(i), p); }
    }
  }

  lemma PipfileLockIsCode()
    ensures !NonCode("Pipfile.lock")
  {
    var p := "Pipfile.lock";
    assert NoNewline(p);
    forall i | 0 <= i < PatternCount ensures !Matches(PatternAt(i), p) {
      assert !Plausible(PatternAt(i), p);
      if Matches(PatternAt(i), p) { MatchesPlausible(PatternAt(i), p); }
    }
  }

  /** Any path ending in one of the listed extensions is non-code, whatever its directory. */
  lemma ExtensionIsNonCode(path: string, ext: string)
    requires NoNewline(path)
    requires ext in [".png", ".jpg", ".gif", ".svg", ".pdf", ".docx", ".log", ".csv", ".json"]
    requires EndsWith(path, ext)
    ensures NonCode(path)
  {
    var ik :=
      if ext == ".png" then (27, 0) else if ext == ".jpg" then (27, 1)
      else if ext == ".gif" then (27, 2) else if ext == ".svg" then (27, 3)
      else if ext == ".pdf" then (28, 0) else if ext == ".docx" then (28, 1)
      else if ext == ".log" then (29, 0) else if ext == ".csv" then (30, 0) else (31, 0);
    var (i, k) := ik;
    assert PatternAt(i).SuffixOneOf? && PatternAt(i).ends[k] == ext;
    assert SuffixHit(path, PatternAt(i).ends[k]);
    assert Matches(PatternAt(i), path);
  }
}
