/** The Python string operations the modelled code relies on: whitespace stripping,
    `str.split`/`str.join` on a separator, substring search, code-point ordering of
    strings (as used by `sorted` and `min`), and decimal rendering of integers. */
module Text {
  import opened Wrappers

  /** Python's `str.isspace()` for one code point. */
  predicate IsSpace(c: char) {
    ('\U{0009}' <= c <= '\U{000D}') || ('\U{001C}' <= c <= '\U{0020}')
    || c == '\U{0085}' || c == '\U{00A0}' || c == '\U{1680}'
    || ('\U{2000}' <= c <= '\U{200A}') || c == '\U{2028}' || c == '\U{2029}'
    || c == '\U{202F}' || c == '\U{205F}' || c == '\U{3000}'
  }

  predicate AllSpace(s: string) {
    forall i :: 0 <= i < |s| ==> IsSpace(s[i])
  }

  /** Python's `s.lstrip()`. */
  function LStrip(s: string): (r: string)
    ensures |r| <= |s| && r == s[|s| - |r|..]
    ensures AllSpace(s[..|s| - |r|])
    ensures r != [] ==> !IsSpace(r[0])
  {
    if s != [] && IsSpace(s[0]) then LStrip(s[1..]) else s
  }

  /** Python's `s.rstrip()`. */
  function RStrip(s: string): (r: string)
    ensures |r| <= |s| && r == s[..|r|]
    ensures AllSpace(s[|r|..])
    ensures r != [] ==> !IsSpace(r[|r| - 1])
  {
    if s != [] && IsSpace(s[|s| - 1]) then RStrip(s[..|s| - 1]) else s
  }

  /** Python's `s.strip()`. */
  function Strip(s: string): (r: string)
    ensures r == LStrip(RStrip(s))
  {
    LStrip(RStrip(s))
  }

  /** Python's `s.rstrip(c)` for a single character `c`. */
  function RStripChar(s: string, c: char): (r: string)
    ensures |r| <= |s| && r == s[..|r|]
    ensures forall i :: |r| <= i < |s| ==> s[i] == c
    ensures r != [] ==> r[|r| - 1] != c
  {
    if s != [] && s[|s| - 1] == c then RStripChar(s[..|s| - 1], c) else s
  }

  /** `p` occurs in `s` at position `i`. */
  predicate OccursAt(s: string, p: string, i: nat) {
    i + |p| <= |s| && s[i..i + |p|] == p
  }

  /** `d` is a prefix of `s`, character by character. */
  predicate StartsWith(s: string, d: string)
    decreases |d|
  {
    d == [] || (s != [] && s[0] == d[0] && StartsWith(s[1..], d[1..]))
  }

  lemma {:induction false} StartsWithIsPrefix(s: string, d: string)
    decreases |d|
    ensures StartsWith(s, d) <==> d <= s
  {
    if d != [] && s != [] && s[0] == d[0] {
      StartsWithIsPrefix(s[1..], d[1..]);
      assert d <= s <==> d[1..] <= s[1..];
    }
  }

  /** The first position at or after `k` at which `p` occurs in `s`
      (Python's `s.find(p, k)`, with `None` for -1). */
  function FindFrom(s: string, p: string, k: nat): (r: Option<nat>)
    decreases |s| - k
    ensures r.Some? ==> k <= r.value && OccursAt(s, p, r.value)
    ensures r.Some? ==> forall j :: k <= j < r.value ==> !OccursAt(s, p, j)
    ensures r.None? ==> forall j :: k <= j ==> !OccursAt(s, p, j)
  {
    if k + |p| > |s| then None
    else if s[k..k + |p|] == p then Some(k)
    else FindFrom(s, p, k + 1)
  }

  function Find(s: string, p: string): (r: Option<nat>)
    ensures r == FindFrom(s, p, 0)
  {
    FindFrom(s, p, 0)
  }

  /** The first occurrence is at `k` when `p` occurs there and nowhere before. */
  lemma FindIsFirst(s: string, p: string, k: nat)
    requires OccursAt(s, p, k)
    requires forall j :: 0 <= j < k ==> !OccursAt(s, p, j)
    ensures Find(s, p) == Some(k)
  {
  }

  /** Python's `sep.join(parts)`. */
  function Join(parts: seq<string>, sep: string): string
  {
    if |parts| == 0 then ""
    else if |parts| == 1 then parts[0]
    else parts[0] + sep + Join(parts[1..], sep)
  }

  /** Python's `s.split(sep)` for a non-empty separator: the pieces between
      the non-overlapping occurrences of `sep`, found from the left. */
  function Split(s: string, sep: string): (r: seq<string>)
    requires sep != ""
    decreases |s|
    ensures |r| >= 1
  {
    match Find(s, sep)
    case None => [s]
    case Some(i) => [s[..i]] + Split(s[i + |sep|..], sep)
  }

  /** The first occurrence of the separator ends the first piece. */
  lemma SplitFirst(s: string, sep: string, i: nat)
    requires sep != "" && Find(s, sep) == Some(i)
    ensures i + |sep| <= |s| && Split(s, sep) == [s[..i]] + Split(s[i + |sep|..], sep)
  {
  }

  /** Splitting on a separator and joining with it again gives back the string. */
  lemma {:induction false} JoinSplit(s: string, sep: string)
    requires sep != ""
    decreases |s|
    ensures Join(Split(s, sep), sep) == s
  {
    match Find(s, sep)
    case None =>
    case Some(i) =>
      var rest := s[i + |sep|..];
      var parts := Split(rest, sep);
      JoinSplit(rest, sep);
      assert Split(s, sep) == [s[..i]] + parts;
      assert ([s[..i]] + parts)[1..] == parts;
      assert Join([s[..i]] + parts, sep) == s[..i] + sep + rest;
      assert s == s[..i] + s[i..i + |sep|] + rest;
  }

  /** Joining never loses a part: each part is a slice of the joined string. */
  lemma {:induction false} JoinAppend(parts: seq<string>, x: string, sep: string)
    requires |parts| >= 1
    ensures Join(parts + [x], sep) == Join(parts, sep) + sep + x
  {
    if |parts| == 1 {
      assert parts + [x] == [parts[0], x];
    } else {
      assert (parts + [x])[1..] == parts[1..] + [x];
      JoinAppend(parts[1..], x, sep);
    }
  }

  /** Python's `<` on `str`: code-point lexicographic order. */
  predicate Less(a: string, b: string)
    decreases |a|
  {
    if |a| == 0 then |b| > 0
    else if |b| == 0 then false
    else if a[0] < b[0] then true
    else if a[0] == b[0] then Less(a[1..], b[1..])
    else false
  }

  predicate LessEq(a: string, b: string) {
    a == b || Less(a, b)
  }

  lemma {:induction false} LessIrreflexive(a: string)
    decreases |a|
    ensures !Less(a, a)
  {
    if |a| > 0 { LessIrreflexive(a[1..]); }
  }

  lemma {:induction false} LessTransitive(a: string, b: string, c: string)
    requires Less(a, b) && Less(b, c)
    decreases |a|
    ensures Less(a, c)
  {
    if |a| > 0 && a[0] == b[0] && b[0] == c[0] {
      LessTransitive(a[1..], b[1..], c[1..]);
    }
  }

  lemma {:induction false} LessTotal(a: string, b: string)
    decreases |a|
    ensures a == b || Less(a, b) || Less(b, a)
  {
    if |a| > 0 && |b| > 0 && a[0] == b[0] {
      LessTotal(a[1..], b[1..]);
      if a[1..] == b[1..] {
        assert a == [a[0]] + a[1..] && b == [b[0]] + b[1..];
      }
    }
  }

  lemma LessAsymmetric(a: string, b: string)
    requires Less(a, b)
    ensures !Less(b, a)
  {
    if Less(b, a) {
      LessTransitive(a, b, a);
      LessIrreflexive(a);
    }
  }

  /** Strictly increasing in code-point order, hence also free of duplicates. */
  predicate StrictlySorted(r: seq<string>) {
    forall i, j :: 0 <= i < j < |r| ==> Less(r[i], r[j])
  }

  /** Inserts `x` into a strictly sorted list unless it is already there. */
  function InsertSorted(x: string, r: seq<string>): (t: seq<string>)
    requires StrictlySorted(r)
    ensures StrictlySorted(t)
    ensures forall y :: y in t <==> y == x || y in r
  {
    if r == [] then [x]
    else if x == r[0] then r
    else if Less(x, r[0]) then
      assert forall j :: 0 <= j < |r| ==> Less(x, r[j]) by {
        forall j | 0 <= j < |r| ensures Less(x, r[j]) {
          if j > 0 { LessTransitive(x, r[0], r[j]); }
        }
      }
      [x] + r
    else
      LessTotal(x, r[0]);
      var t' := InsertSorted(x, r[1..]);
      assert forall j :: 0 <= j < |t'| ==> Less(r[0], t'[j]) by {
        forall j | 0 <= j < |t'| ensures Less(r[0], t'[j]) {
          assert t'[j] in t';
          if t'[j] != x { var k :| 0 <= k < |r[1..]| && r[1..][k] == t'[j]; assert r[k + 1] == t'[j]; }
        }
      }
      [r[0]] + t'
  }

  /** `sorted(set(xs))`: the distinct elements of `xs` in increasing order. */
  function SortedDistinct(xs: seq<string>): (r: seq<string>)
    ensures StrictlySorted(r)
    ensures forall y :: y in r <==> y in xs
  {
    if xs == [] then [] else InsertSorted(xs[|xs| - 1], SortedDistinct(xs[..|xs| - 1]))
  }

  /** A strictly sorted list has no repeated element. */
  lemma StrictlySortedDistinct(r: seq<string>)
    requires StrictlySorted(r)
    ensures forall i, j :: 0 <= i < j < |r| ==> r[i] != r[j]
  {
    forall i, j | 0 <= i < j < |r| ensures r[i] != r[j] {
      if r[i] == r[j] { LessIrreflexive(r[i]); }
    }
  }

  /** `m` is the least element of `s`. */
  predicate IsLeast(m: string, s: set<string>) {
    m in s && forall y :: y in s ==> LessEq(m, y)
  }

  lemma {:induction false} LeastExists(s: set<string>)
    requires s != {}
    decreases |s|
    ensures exists m :: IsLeast(m, s)
  {
    var x :| x in s;
    if s != {x} {
      LeastExists(s - {x});
      var m :| IsLeast(m, s - {x});
      LessTotal(x, m);
      if Less(x, m) {
        forall y | y in s ensures LessEq(x, y) {
          if y != x && y != m { assert y in s - {x}; LessTransitive(x, m, y); }
        }
        assert IsLeast(x, s);
      } else {
        forall y | y in s ensures LessEq(m, y) {
          if y != x { assert y in s - {x}; }
        }
        assert IsLeast(m, s);
      }
    } else {
      assert IsLeast(x, s);
    }
  }

  lemma LeastUnique(s: set<string>)
    ensures forall a, b :: IsLeast(a, s) && IsLeast(b, s) ==> a == b
  {
    forall a, b | IsLeast(a, s) && IsLeast(b, s) ensures a == b {
      if a != b { LessAsymmetric(a, b); }
    }
  }

  /** The elements of a set of strings listed in increasing code-point order: one
      fixed order for `list(s)`, whose order Python leaves unspecified. */
  function SortedElements(s: set<string>): (r: seq<string>)
    decreases |s|
    ensures StrictlySorted(r)
    ensures forall y :: y in r <==> y in s
  {
    if s == {} then []
    else
      LeastExists(s);
      LeastUnique(s);
      var m :| IsLeast(m, s);
      var r' := SortedElements(s - {m});
      assert forall j :: 0 <= j < |r'| ==> Less(m, r'[j]) by {
        forall j | 0 <= j < |r'| ensures Less(m, r'[j]) {
          assert r'[j] in s - {m};
        }
      }
      [m] + r'
  }

  /** `len(sorted(s)) == len(s)`. */
  lemma {:induction false} SortedElementsCard(s: set<string>)
    decreases |s|
    ensures |SortedElements(s)| == |s|
  {
    if s != {} {
      LeastExists(s);
      LeastUnique(s);
      var m :| IsLeast(m, s);
      SortedElementsCard(s - {m});
    }
  }

  /** Python's `min(xs)` over strings. */
  function Min(xs: seq<string>): (m: string)
    requires xs != []
    ensures m in xs && forall y :: y in xs ==> LessEq(m, y)
  {
    if |xs| == 1 then xs[0]
    else
      var m' := Min(xs[1..]);
      LessTotal(xs[0], m');
      if Less(xs[0], m') then
        assert forall y :: y in xs[1..] ==> LessEq(xs[0], y) by {
          forall y | y in xs[1..] ensures LessEq(xs[0], y) {
            if y != m' { LessTransitive(xs[0], m', y); }
          }
        }
        xs[0]
      else m'
  }

  /** The decimal digits of a natural number (Python's `str(n)`). */
  function NatToString(n: nat): (r: string)
    decreases n
    ensures |r| >= 1
    ensures forall i :: 0 <= i < |r| ==> '0' <= r[i] <= '9'
  {
    var d := [('0' as int + n % 10) as char];
    if n < 10 then d else NatToString(n / 10) + d
  }

  /** Python's `str(i)` for an int. */
  function IntToString(i: int): string {
    if i < 0 then "-" + NatToString(-i) else NatToString(i)
  }

  /** The value of a string of decimal digits. */
  function DigitsValue(s: string): nat
    requires forall i :: 0 <= i < |s| ==> '0' <= s[i] <= '9'
    decreases |s|
  {
    if s == [] then 0
    else DigitsValue(s[..|s| - 1]) * 10 + (s[|s| - 1] as int - '0' as int)
  }

  lemma {:induction false} DigitsValueOfNatToString(n: nat)
    decreases n
    ensures DigitsValue(NatToString(n)) == n
  {
    var d := [('0' as int + n % 10) as char];
    if n >= 10 {
      DigitsValueOfNatToString(n / 10);
      var r := NatToString(n / 10) + d;
      assert r[..|r| - 1] == NatToString(n / 10);
    }
  }

  /** Python's `s.zfill(w)`: pads on the left with '0' up to width `w`,
      putting the zeros after a leading sign character. */
  function ZFill(s: string, w: nat): (r: string)
    ensures |r| == if |s| >= w then |s| else w
    ensures |s| >= w ==> r == s
    ensures |s| < w && (s == [] || (s[0] != '+' && s[0] != '-')) ==>
              r == seq(w - |s|, _ => '0') + s
  {
    if |s| >= w then s
    else if s != [] && (s[0] == '+' || s[0] == '-') then [s[0]] + seq(w - |s|, _ => '0') + s[1..]
    else seq(w - |s|, _ => '0') + s
  }

  predicate AllDigits(s: string) {
    forall i :: 0 <= i < |s| ==> '0' <= s[i] <= '9'
  }

  /** Python's `int(s)` for an optionally signed run of ASCII digits with
      surrounding whitespace. */
  function ParseInt(s: string): (r: Result<int>)
  {
    var t := Strip(s);
    var body := if t != [] && (t[0] == '-' || t[0] == '+') then t[1..] else t;
    if body != [] && AllDigits(body) then
      var v: int := DigitsValue(body);
      Ok(if t[0] == '-' then -v else v)
    else Err(ValueError("invalid literal for int() with base 10: '" + s + "'"))
  }

  /** An optionally signed run of digits without surrounding whitespace parses to its value. */
  lemma ParseIntUnpadded(s: string, neg: bool, body: string)
    requires body != [] && AllDigits(body) && s == (if neg then "-" else "") + body && Strip(s) == s
    ensures var v: int := DigitsValue(body); ParseInt(s) == Ok(if neg then -v else v)
  {
    if neg {
      assert s[1..] == body;
    } else {
      assert s[0] != '-' && s[0] != '+';
    }
  }
}
