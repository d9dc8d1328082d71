/** github_tracker_bot/process_commits.py without the network: the diffs that
    `fetch_diff` would download are an input sequence. */
module ProcessCommits {
  import opened Wrappers
  import opened Text
  import opened Commits
  import opened TokenBudget
  import opened ExceedHandler
  import DiffFilter
  import Calendar

  /** A scraped commit-information dict: string keys to string values. */
  type CommitInfo = map<string, string>

  /** The keys `concatenate_diff_to_commit_info` reads, in the order it reads them. */
  const InfoKeys: seq<string> := ["repo", "author", "username", "date", "message", "sha", "branch"]

  /** The first key of `keys` missing from `info`. */
  function FirstMissing(info: CommitInfo, keys: seq<string>): (r: Option<string>)
    ensures r.None? <==> forall k :: k in keys ==> k in info
    ensures r.Some? ==> r.value in keys && r.value !in info
    ensures r.Some? ==> exists j :: 0 <= j < |keys| && keys[j] == r.value && forall i :: 0 <= i < j ==> keys[i] in info
  {
    if keys == [] then None
    else if keys[0] !in info then Some(keys[0])
    else FirstMissing(info, keys[1..])
  }

  /** `concatenate_diff_to_commit_info(commit_info, diff)`. */
  function ConcatenateDiffToCommitInfo(info: CommitInfo, diff: Option<string>): (r: Result<Commit>)
    ensures r.Err? <==> exists k :: k in InfoKeys && k !in info
    ensures r.Err? ==> r.error.KeyError? && r.error.key in InfoKeys && r.error.key !in info
    ensures r.Ok? ==> (r.value.repo == info["repo"] && r.value.author == info["author"]
                       && r.value.username == info["username"] && r.value.date == info["date"]
                       && r.value.message == info["message"] && r.value.sha == info["sha"]
                       && r.value.branch == info["branch"])
    ensures r.Ok? ==> r.value.diff == match diff case None => "" case Some(d) => DiffFilter.FilteredText(d)
  {
    match FirstMissing(info, InfoKeys)
    case Some(k) => Err(KeyError(k))
    case None =>
      assert "repo" in InfoKeys && "author" in InfoKeys && "username" in InfoKeys && "date" in InfoKeys;
      assert "message" in InfoKeys && "sha" in InfoKeys && "branch" in InfoKeys;
      Ok(Commit(info["repo"], info["author"], info["username"], info["date"],
                info["message"], info["sha"], info["branch"],
                match diff case None => "" case Some(d) => DiffFilter.FilteredText(d)))
  }

  /** `commit["date"][:10]`, the day a commit is grouped under. */
  function Day(c: Commit): string {
    if |c.date| <= 10 then c.date else c.date[..10]
  }

  /** A dict of day groups in insertion order: (day, commits) pairs. */
  type Groups = seq<(string, seq<Commit>)>

  predicate KeysDistinct(gs: Groups) {
    forall i, j :: 0 <= i < j < |gs| ==> gs[i].0 != gs[j].0
  }

  /** The commits of `cs` whose day is `d`, in input order. */
  function OnDay(cs: seq<Commit>, d: string): (r: seq<Commit>)
    ensures |r| <= |cs|
    ensures forall c :: c in r <==> c in cs && Day(c) == d
  {
    if cs == [] then []
    else OnDay(cs[..|cs| - 1], d) + (if Day(cs[|cs| - 1]) == d then [cs[|cs| - 1]] else [])
  }

  /** The position of day `d` among the keys, if present. */
  function KeyIndex(gs: Groups, d: string): (r: Option<nat>)
    ensures r.Some? ==> r.value < |gs| && gs[r.value].0 == d
    ensures r.None? ==> forall i :: 0 <= i < |gs| ==> gs[i].0 != d
  {
    if gs == [] then None
    else if gs[|gs| - 1].0 == d then Some(|gs| - 1)
    else KeyIndex(gs[..|gs| - 1], d)
  }

  /** One step of the grouping loop: append `c` to its day's list, creating the key
      on the day's first commit. */
  function AddToGroup(gs: Groups, c: Commit): Groups {
    match KeyIndex(gs, Day(c))
    case None => gs + [(Day(c), [c])]
    case Some(i) => gs[i := (gs[i].0, gs[i].1 + [c])]
  }

  /** The groups after the first loop of `group_and_sort_commits`. */
  function GroupByDay(cs: seq<Commit>): Groups {
    if cs == [] then [] else AddToGroup(GroupByDay(cs[..|cs| - 1]), cs[|cs| - 1])
  }

  /** The keys of a grouping, in order. */
  function Keys(gs: Groups): (r: seq<string>)
    ensures |r| == |gs| && forall i :: 0 <= i < |gs| ==> r[i] == gs[i].0
  {
    seq(|gs|, i requires 0 <= i < |gs| => gs[i].0)
  }

  /** The days of the commits, in order. */
  function Days(cs: seq<Commit>): (r: seq<string>)
    ensures |r| == |cs| && forall i :: 0 <= i < |cs| ==> r[i] == Day(cs[i])
  {
    seq(|cs|, i requires 0 <= i < |cs| => Day(cs[i]))
  }

  /** No day is a key twice. */
  lemma {:induction false} GroupKeysDistinct(cs: seq<Commit>)
    ensures KeysDistinct(GroupByDay(cs))
  {
    if cs != [] {
      GroupKeysDistinct(cs[..|cs| - 1]);
    }
  }

  /** The keys are exactly the days that occur in the input. */
  lemma {:induction false} GroupKeysAreDays(cs: seq<Commit>)
    ensures forall d :: d in Keys(GroupByDay(cs)) <==> d in Days(cs)
  {
    if cs != [] {
      var init, c := cs[..|cs| - 1], cs[|cs| - 1];
      GroupKeysAreDays(init);
      assert Days(cs) == Days(init) + [Day(c)];
      var gs := GroupByDay(init);
      match KeyIndex(gs, Day(c))
      case None =>
        assert Keys(gs + [(Day(c), [c])]) == Keys(gs) + [Day(c)];
      case Some(k) =>
        assert Keys(gs[k := (gs[k].0, gs[k].1 + [c])]) == Keys(gs);
        assert Day(c) in Keys(gs);
    }
  }

  lemma {:induction false} OnDayAppend(cs: seq<Commit>, c: Commit, d: string)
    ensures OnDay(cs + [c], d) == OnDay(cs, d) + (if Day(c) == d then [c] else [])
  {
    assert (cs + [c])[..|cs|] == cs;
  }

  /** A day absent from the keys has no commits so far. */
  lemma OnDayAbsent(cs: seq<Commit>, d: string)
    requires d !in Days(cs)
    ensures OnDay(cs, d) == []
  {
  }

  /** The list under each day is that day's commits, in input order. */
  lemma {:induction false} GroupContents(cs: seq<Commit>)
    ensures forall i :: 0 <= i < |GroupByDay(cs)| ==> GroupByDay(cs)[i].1 == OnDay(cs, GroupByDay(cs)[i].0)
  {
    if cs != [] {
      var init, c := cs[..|cs| - 1], cs[|cs| - 1];
      GroupContents(init);
      assert cs == init + [c];
      var gs := GroupByDay(init);
      var gs' := GroupByDay(cs);
      assert gs' == AddToGroup(gs, c);
      GroupKeysDistinct(init);
      forall i | 0 <= i < |gs'| ensures gs'[i].1 == OnDay(cs, gs'[i].0) {
        OnDayAppend(init, c, gs'[i].0);
        match KeyIndex(gs, Day(c))
        case None =>
          if i == |gs| {
            GroupKeysAreDays(init);
            assert Day(c) !in Keys(gs);
            OnDayAbsent(init, Day(c));
          } else {
            assert gs'[i] == gs[i];
          }
        case Some(k) =>
          if i != k {
            assert gs'[i] == gs[i] && gs[i].0 != Day(c);
          }
      }
    }
  }

  /** Each commit is placed in exactly one group: the sizes of the groups add up to the
      number of commits. */
  function TotalSize(gs: Groups): nat {
    if gs == [] then 0 else TotalSize(gs[..|gs| - 1]) + |gs[|gs| - 1].1|
  }

  lemma {:induction false} TotalSizeUpdate(gs: Groups, i: nat, l: seq<Commit>)
    requires i < |gs|
    ensures TotalSize(gs[i := (gs[i].0, l)]) == TotalSize(gs) - |gs[i].1| + |l|
    decreases |gs|
  {
    var gs' := gs[i := (gs[i].0, l)];
    if i < |gs| - 1 {
      assert gs'[..|gs'| - 1] == gs[..|gs| - 1][i := (gs[i].0, l)];
      TotalSizeUpdate(gs[..|gs| - 1], i, l);
    } else {
      assert gs'[..|gs'| - 1] == gs[..|gs| - 1];
    }
  }

  lemma {:induction false} GroupSizesSum(cs: seq<Commit>)
    ensures TotalSize(GroupByDay(cs)) == |cs|
  {
    if cs != [] {
      var init, c := cs[..|cs| - 1], cs[|cs| - 1];
      GroupSizesSum(init);
      var gs := GroupByDay(init);
      match KeyIndex(gs, Day(c))
      case None =>
        assert (gs + [(Day(c), [c])])[..|gs|] == gs;
      case Some(k) =>
        TotalSizeUpdate(gs, k, gs[k].1 + [c]);
    }
  }

  /** Two commits in the order `sort(key=isoparse(date))` accepts: dates non-decreasing. */
  predicate DateOrdered(a: Commit, b: Commit) {
    LessEq(a.date, b.date)
  }

  predicate SortedByDate(cs: seq<Commit>) {
    forall i, j :: 0 <= i < j < |cs| ==> DateOrdered(cs[i], cs[j])
  }

  /** The commits of `cs` with exactly the date `t`, in order. */
  function WithDate(cs: seq<Commit>, t: string): (r: seq<Commit>)
    ensures |r| <= |cs|
  {
    if cs == [] then []
    else (if cs[0].date == t then [cs[0]] else []) + WithDate(cs[1..], t)
  }

  /** Inserts `c` after every commit not later than it. */
  function InsertByDate(c: Commit, s: seq<Commit>): (r: seq<Commit>)
    requires SortedByDate(s)
    ensures SortedByDate(r)
    ensures forall x :: x in r <==> x == c || x in s
    decreases |s|
  {
    if s == [] then [c]
    else if Less(c.date, s[0].date) then
      assert forall j :: 0 <= j < |s| ==> DateOrdered(c, s[j]) by {
        forall j | 0 <= j < |s| ensures DateOrdered(c, s[j]) {
          if j > 0 && s[0].date != s[j].date { LessTransitive(c.date, s[0].date, s[j].date); }
        }
      }
      [c] + s
    else
      LessTotal(c.date, s[0].date);
      var r' := InsertByDate(c, s[1..]);
      assert forall j :: 0 <= j < |r'| ==> DateOrdered(s[0], r'[j]) by {
        forall j | 0 <= j < |r'| ensures DateOrdered(s[0], r'[j]) {
          assert r'[j] in r';
          if r'[j] != c {
            var k :| 0 <= k < |s[1..]| && s[1..][k] == r'[j];
            assert s[k + 1] == r'[j];
          }
        }
      }
      [s[0]] + r'
  }

  /** Inserting keeps every commit and adds `c`. */
  lemma {:induction false} InsertByDatePerm(c: Commit, s: seq<Commit>)
    requires SortedByDate(s)
    ensures multiset(InsertByDate(c, s)) == multiset(s) + multiset{c}
    decreases |s|
  {
    if s != [] && !Less(c.date, s[0].date) {
      InsertByDatePerm(c, s[1..]);
      assert s == [s[0]] + s[1..];
    }
  }

  lemma WithDateCons(x: Commit, s: seq<Commit>, t: string)
    ensures WithDate([x] + s, t) == (if x.date == t then [x] else []) + WithDate(s, t)
  {
    assert ([x] + s)[1..] == s;
  }

  /** Among the commits with `c`'s date, the inserted `c` comes last. */
  lemma {:induction false} InsertByDateStable(c: Commit, s: seq<Commit>, t: string)
    requires SortedByDate(s)
    ensures WithDate(InsertByDate(c, s), t) == WithDate(s, t) + (if c.date == t then [c] else [])
    decreases |s|
  {
    var e := if c.date == t then [c] else [];
    if s == [] {
      WithDateCons(c, [], t);
      assert [c] + [] == [c];
      assert e + [] == [] + e;
    } else if Less(c.date, s[0].date) {
      WithDateCons(c, s, t);
      if c.date == t {
        NoneWithDate(s, t);
        assert [c] + [] == [] + [c];
      } else {
        assert [] + WithDate(s, t) == WithDate(s, t) + [];
      }
    } else {
      var h := if s[0].date == t then [s[0]] else [];
      var s' := s[1..];
      assert SortedByDate(s') by {
        forall i, j | 0 <= i < j < |s'| ensures DateOrdered(s'[i], s'[j]) {
          assert s'[i] == s[i + 1] && s'[j] == s[j + 1];
        }
      }
      InsertByDateStable(c, s', t);
      var r' := InsertByDate(c, s');
      assert InsertByDate(c, s) == [s[0]] + r';
      WithDateCons(s[0], r', t);
      assert s == [s[0]] + s';
      WithDateCons(s[0], s', t);
      assert h + (WithDate(s', t) + e) == (h + WithDate(s', t)) + e;
    }
  }

  /** In a sorted list whose first date is later than `t`, no commit has date `t`. */
  lemma {:induction false} NoneWithDate(s: seq<Commit>, t: string)
    requires SortedByDate(s) && s != [] && Less(t, s[0].date)
    ensures WithDate(s, t) == []
    decreases |s|
  {
    if |s| > 1 {
      if s[1].date != s[0].date { LessTransitive(t, s[0].date, s[1].date); }
      NoneWithDate(s[1..], t);
    }
    if s[0].date == t { LessIrreflexive(t); }
  }

  /** `list.sort(key=lambda x: parser.isoparse(x["date"]))`: a stable sort by date. */
  function SortByDate(cs: seq<Commit>): (r: seq<Commit>)
    ensures SortedByDate(r)
  {
    if cs == [] then [] else InsertByDate(cs[|cs| - 1], SortByDate(cs[..|cs| - 1]))
  }

  /** The sort is a permutation, and stable: for every date, the commits with that
      date keep their input order. */
  lemma {:induction false} SortByDateStable(cs: seq<Commit>)
    ensures multiset(SortByDate(cs)) == multiset(cs)
    ensures forall t :: WithDate(SortByDate(cs), t) == WithDate(cs, t)
  {
    if cs != [] {
      var init, c := cs[..|cs| - 1], cs[|cs| - 1];
      SortByDateStable(init);
      assert cs == init + [c];
      InsertByDatePerm(c, SortByDate(init));
      forall t ensures WithDate(SortByDate(cs), t) == WithDate(cs, t) {
        InsertByDateStable(c, SortByDate(init), t);
        WithDateAppend(init, c, t);
      }
    }
  }

  lemma {:induction false} WithDateAppend(s: seq<Commit>, c: Commit, t: string)
    ensures WithDate(s + [c], t) == WithDate(s, t) + (if c.date == t then [c] else [])
    decreases |s|
  {
    var e := if c.date == t then [c] else [];
    if s == [] {
      assert [] + [c] == [c] + [];
      WithDateCons(c, [], t);
      assert e + [] == [] + e;
    } else {
      var h := if s[0].date == t then [s[0]] else [];
      var s' := s[1..];
      assert s + [c] == [s[0]] + (s' + [c]);
      WithDateCons(s[0], s' + [c], t);
      WithDateAppend(s', c, t);
      assert s == [s[0]] + s';
      WithDateCons(s[0], s', t);
      assert h + (WithDate(s', t) + e) == (h + WithDate(s', t)) + e;
    }
  }

  /** The groups after the second loop: every day's list sorted by date. */
  function SortGroups(gs: Groups): (r: Groups)
    ensures |r| == |gs|
    ensures forall i :: 0 <= i < |r| ==> r[i] == (gs[i].0, SortByDate(gs[i].1))
  {
    seq(|gs|, i requires 0 <= i < |gs| => (gs[i].0, SortByDate(gs[i].1)))
  }

  /** The position of the first date in `cs` that `isoparse` rejects. */
  function FirstUnparsable(cs: seq<Commit>): (r: Option<nat>)
    ensures r.None? <==> forall i :: 0 <= i < |cs| ==> Calendar.IsoParse(cs[i].date).Ok?
    ensures r.Some? ==> r.value < |cs| && Calendar.IsoParse(cs[r.value].date).Err?
                        && forall j :: 0 <= j < r.value ==> Calendar.IsoParse(cs[j].date).Ok?
  {
    if cs == [] then None
    else if Calendar.IsoParse(cs[0].date).Err? then Some(0)
    else
      match FirstUnparsable(cs[1..])
      case None =>
        assert forall i :: 1 <= i < |cs| ==> cs[i] == cs[1..][i - 1];
        None
      case Some(k) =>
        assert forall j :: 1 <= j < k + 1 ==> cs[j] == cs[1..][j - 1];
        Some(k + 1)
  }

  /** A stamp `isoparse` reads without an offset, giving a naive datetime. */
  predicate HasNaive(cs: seq<Commit>) {
    exists i :: 0 <= i < |cs| && |cs[i].date| <= 19
  }

  /** A stamp `isoparse` reads with an offset, giving an aware datetime. */
  predicate HasAware(cs: seq<Commit>) {
    exists i :: 0 <= i < |cs| && |cs[i].date| > 19
  }

  /** What `list.sort(key=lambda x: parser.isoparse(x["date"]))` raises on one day's
      list, if anything. Every key is computed first, in list order, so the first
      date `isoparse` rejects raises its `ValueError`. Once all keys exist, a list
      holding both a naive and an aware datetime raises `TypeError`: a sort has to
      compare some naive key with some aware one, and that comparison raises. */
  function SortKeyError(cs: seq<Commit>): (r: Option<Error>)
    ensures r.None? <==> (forall i :: 0 <= i < |cs| ==> Calendar.IsoParse(cs[i].date).Ok?) && !(HasNaive(cs) && HasAware(cs))
    ensures forall i :: 0 <= i < |cs| && Calendar.IsoParse(cs[i].date).Err? ==> r.Some? && r.value.ValueError?
  {
    match FirstUnparsable(cs)
    case Some(i) => Some(Calendar.IsoParse(cs[i].date).error)
    case None =>
      if HasNaive(cs) && HasAware(cs) then Some(TypeError("can't compare offset-naive and offset-aware datetimes"))
      else None
  }

  /** The sort error of the list under key `d`, if `d` is a key. */
  function DaySortError(gs: Groups, d: string): Option<Error> {
    match KeyIndex(gs, d)
    case None => None
    case Some(i) => SortKeyError(gs[i].1)
  }

  /** `sorted(grouped_commits.keys())`. */
  function SortedKeys(gs: Groups): (r: seq<string>)
    ensures Text.StrictlySorted(r)
    ensures forall d :: d in r <==> d in Keys(gs)
  {
    SortedElements(set d | d in Keys(gs))
  }

  /** The first present value of `xs`: the exception of the first loop turn that
      raises. */
  function FirstSome<T>(xs: seq<Option<T>>): (r: Option<T>)
    ensures r.None? <==> forall n :: 0 <= n < |xs| ==> xs[n].None?
    ensures r.Some? ==> exists n :: 0 <= n < |xs| && xs[n] == r && forall m :: 0 <= m < n ==> xs[m].None?
  {
    if xs == [] then None
    else
      var init := xs[..|xs| - 1];
      assert forall n :: 0 <= n < |init| ==> init[n] == xs[n];
      match FirstSome(init)
      case Some(e) => Some(e)
      case None => xs[|xs| - 1]
  }

  /** A present value within a prefix is the first present value of the whole. */
  lemma {:induction false} FirstSomePrefix<T>(xs: seq<Option<T>>, n: nat)
    requires n <= |xs| && FirstSome(xs[..n]).Some?
    ensures FirstSome(xs) == FirstSome(xs[..n])
    decreases |xs| - n
  {
    if n < |xs| {
      assert xs[..n + 1][..n] == xs[..n];
      FirstSomePrefix(xs, n + 1);
    } else {
      assert xs[..n] == xs;
    }
  }

  /** One more turn of the loop raises what that turn raises, if the earlier
      turns did not. */
  lemma FirstSomeSnoc<T>(xs: seq<Option<T>>, n: nat)
    requires n < |xs| && FirstSome(xs[..n]).None?
    ensures FirstSome(xs[..n + 1]) == xs[n]
  {
    assert xs[..n + 1][..n] == xs[..n];
  }

  /** The sort error of each day of `order`, in that order. */
  function DayErrors(gs: Groups, order: seq<string>): (r: seq<Option<Error>>)
    ensures |r| == |order| && forall n :: 0 <= n < |order| ==> r[n] == DaySortError(gs, order[n])
  {
    seq(|order|, n requires 0 <= n < |order| => DaySortError(gs, order[n]))
  }

  /** What the loop over `order` raises: the sort error of the first day in `order`
      whose list cannot be sorted. */
  function SortError(gs: Groups, order: seq<string>): (r: Option<Error>)
    ensures r.None? <==> forall n :: 0 <= n < |order| ==> DaySortError(gs, order[n]).None?
    ensures r.Some? ==> exists n :: 0 <= n < |order| && DaySortError(gs, order[n]) == r
                                    && forall m :: 0 <= m < n ==> DaySortError(gs, order[m]).None?
  {
    FirstSome(DayErrors(gs, order))
  }

  /** A failing loop over `order` fails on some day of `order`. */
  lemma FailingDay(gs: Groups, order: seq<string>) returns (n: nat)
    requires SortError(gs, order).Some?
    ensures n < |order| && DaySortError(gs, order[n]).Some?
  {
    n :| 0 <= n < |order| && DaySortError(gs, order[n]).Some?;
  }

  /** What the second loop of `group_and_sort_commits` raises, if anything. */
  function GroupAndSortError(cs: seq<Commit>): Option<Error> {
    SortError(GroupByDay(cs), SortedKeys(GroupByDay(cs)))
  }

  /** A day of the input is visited by the second loop, and its sort error is
      that of its commits. */
  lemma DaySortErrorOfDay(cs: seq<Commit>, d: string)
    requires d in Days(cs)
    ensures DaySortError(GroupByDay(cs), d) == SortKeyError(OnDay(cs, d))
    ensures d in SortedKeys(GroupByDay(cs))
  {
    var gs := GroupByDay(cs);
    GroupContents(cs);
    GroupKeysAreDays(cs);
    var k := KeyIndex(gs, d);
    assert k.Some? by {
      var j :| 0 <= j < |gs| && Keys(gs)[j] == d;
    }
  }

  /** The sort stage fails exactly when some day's commits cannot be sorted. */
  lemma GroupAndSortErrorMeaning(cs: seq<Commit>)
    ensures GroupAndSortError(cs).None? <==> forall d :: d in Days(cs) ==> SortKeyError(OnDay(cs, d)).None?
  {
    if GroupAndSortError(cs).None? {
      forall d | d in Days(cs) ensures SortKeyError(OnDay(cs, d)).None? {
        NoSortErrorOnDay(cs, d);
      }
    } else {
      SortErrorHasDay(cs);
    }
  }

  /** When the sort stage passes, no day's commits raise. */
  lemma NoSortErrorOnDay(cs: seq<Commit>, d: string)
    requires GroupAndSortError(cs).None? && d in Days(cs)
    ensures SortKeyError(OnDay(cs, d)).None?
  {
    DaySortErrorOfDay(cs, d);
    var order := SortedKeys(GroupByDay(cs));
    var n :| 0 <= n < |order| && order[n] == d;
    assert DaySortError(GroupByDay(cs), order[n]).None?;
  }

  /** When the sort stage fails, the error comes from the commits of some day. */
  lemma SortErrorHasDay(cs: seq<Commit>)
    requires GroupAndSortError(cs).Some?
    ensures exists d :: d in Days(cs) && SortKeyError(OnDay(cs, d)).Some?
  {
    var gs := GroupByDay(cs);
    var order := SortedKeys(gs);
    var n := FailingDay(gs, order);
    var d := order[n];
    assert d in Keys(gs);
    GroupKeysAreDays(cs);
    assert d in Days(cs);
    DaySortErrorOfDay(cs, d);
    assert SortKeyError(OnDay(cs, d)).Some?;
  }

  /** A commit date that `isoparse` rejects always makes the sort stage fail. */
  lemma UnparsableDateRaises(cs: seq<Commit>, i: nat)
    requires i < |cs| && Calendar.IsoParse(cs[i].date).Err?
    ensures GroupAndSortError(cs).Some?
  {
    var d := Day(cs[i]);
    assert Days(cs)[i] == d;
    var l := OnDay(cs, d);
    assert cs[i] in l;
    var j :| 0 <= j < |l| && l[j] == cs[i];
    assert SortKeyError(l).Some?;
    DaySortErrorOfDay(cs, d);
    var order := SortedKeys(GroupByDay(cs));
    var n :| 0 <= n < |order| && order[n] == d;
    assert DaySortError(GroupByDay(cs), order[n]).Some?;
  }

  /** A day holding a stamp `isoparse` rejects raises its `ValueError`. */
  lemma UnparsableStampRaises(c: Commit)
    requires c.date == "05/01/2024 10:00"
    ensures SortKeyError([c]).Some? && SortKeyError([c]).value.ValueError?
  {
    assert !Calendar.IsCanonicalYmd(c.date[..10]) by { assert c.date[..10][2] == '/'; }
    assert Calendar.IsoParse([c][0].date).Err?;
  }

  /** A day mixing a naive stamp with one carrying an offset raises `TypeError`. */
  lemma MixedStampsRaise(c: Commit)
    ensures SortKeyError([c.(date := "2024-05-01T10:00:00"), c.(date := "2024-05-01T11:00:00Z")])
         == Some(TypeError("can't compare offset-naive and offset-aware datetimes"))
  {
    var a, b := c.(date := "2024-05-01T10:00:00"), c.(date := "2024-05-01T11:00:00Z");
    StampParses(a.date);
    StampParses(b.date);
    var cs := [a, b];
    assert forall i :: 0 <= i < |cs| ==> Calendar.IsoParse(cs[i].date).Ok? by {
      assert cs[0] == a && cs[1] == b;
    }
    assert HasNaive(cs) by { assert |cs[0].date| <= 19; }
    assert HasAware(cs) by { assert |cs[1].date| > 19; }
    MixedStampsTypeError(cs);
  }

  /** Parsable stamps of both kinds on one day raise `TypeError`. */
  lemma MixedStampsTypeError(cs: seq<Commit>)
    requires forall i :: 0 <= i < |cs| ==> Calendar.IsoParse(cs[i].date).Ok?
    requires HasNaive(cs) && HasAware(cs)
    ensures SortKeyError(cs) == Some(TypeError("can't compare offset-naive and offset-aware datetimes"))
  {
  }

  /** The naive stamp `2024-05-01T10:00:00` and the UTC stamp `2024-05-01T11:00:00Z`
      both parse. */
  lemma StampParses(s: string)
    requires s == "2024-05-01T10:00:00" || s == "2024-05-01T11:00:00Z"
    ensures Calendar.IsoParse(s).Ok?
  {
    var time, tail := if |s| == 19 then "10:00:00" else "11:00:00", if |s| == 19 then "" else "Z";
    assert s[..10] == "2024-05-01" && s[11..19] == time && s[19..] == tail;
    assert Calendar.IsCanonicalYmd(s[..10]) && Calendar.CanonicalDate(s[..10]) == Calendar.Date(2024, 5, 1);
    assert Calendar.Digits2(time, 0) < 24;
    assert Calendar.IsTimeOfDay(time);
    assert Calendar.IsOffsetOrNothing(tail);
  }

  /** `group_and_sort_commits(processed_commits)`: the day groups in first-seen
      order, each sorted; or the exception of the first day, in sorted key order,
      whose list cannot be sorted. */
  method GroupAndSortCommits(cs: seq<Commit>) returns (r: Result<Groups>)
    ensures GroupAndSortError(cs).Some? ==> r == Err(GroupAndSortError(cs).value)
    ensures GroupAndSortError(cs).None? ==> r == Ok(SortGroups(GroupByDay(cs)))
  {
    var groups := [];
    for n := 0 to |cs|
      invariant groups == GroupByDay(cs[..n])
    {
      assert cs[..n + 1][..n] == cs[..n];
      var c := cs[n];
      var d := Day(c);
      ghost var before := groups;
      var k := KeyIndex(groups, d);
      var i: nat;
      if k.None? {
        groups := groups + [(d, [])];
        i := |groups| - 1;
        assert groups[i].1 + [c] == [c];
      } else {
        i := k.value;
      }
      groups := groups[i := (groups[i].0, groups[i].1 + [c])];
      if k.None? {
        assert groups == before + [(d, [c])];
      }
    }
    assert cs[..|cs|] == cs;
    GroupKeysDistinct(cs);
    r := SortDays(groups);
  }

  /** The second loop of `group_and_sort_commits`: `for date in
      sorted(grouped_commits.keys())`, sorting each day's list in turn. */
  method SortDays(groups: Groups) returns (r: Result<Groups>)
    requires KeysDistinct(groups)
    ensures SortError(groups, SortedKeys(groups)).Some? ==> r == Err(SortError(groups, SortedKeys(groups)).value)
    ensures SortError(groups, SortedKeys(groups)).None? ==> r == Ok(SortGroups(groups))
  {
    var order := SortedKeys(groups);
    var errs := DayErrors(groups, order);
    var sorted := groups;
    for n := 0 to |order|
      invariant FirstSome(errs[..n]).None?
      invariant SortedThrough(groups, order, n, sorted)
    {
      FirstSomeSnoc(errs, n);
      var k := KeyIndex(groups, order[n]);
      assert k.Some? by {
        assert order[n] in Keys(groups);
        var j :| 0 <= j < |groups| && Keys(groups)[j] == order[n];
      }
      var i := k.value;
      var e := SortKeyError(groups[i].1);
      assert errs[n] == e;
      if e.Some? {
        FirstSomePrefix(errs, n + 1);
        return Err(e.value);
      }
      SortDayStep(groups, order, n, sorted, i);
      sorted := sorted[i := (groups[i].0, SortByDate(groups[i].1))];
    }
    assert errs[..|order|] == errs;
    SortDaysDone(groups, sorted);
    r := Ok(sorted);
  }

  /** The lists of the days in `order[..n]` are sorted and the others untouched. */
  ghost predicate SortedThrough(groups: Groups, order: seq<string>, n: nat, sorted: Groups)
    requires n <= |order|
  {
    |sorted| == |groups|
    && forall j :: 0 <= j < |groups| ==>
         sorted[j] == (groups[j].0, if groups[j].0 in order[..n] then SortByDate(groups[j].1) else groups[j].1)
  }

  lemma SortDayStep(groups: Groups, order: seq<string>, n: nat, sorted: Groups, i: nat)
    requires KeysDistinct(groups) && n < |order| && i < |groups| && groups[i].0 == order[n]
    requires Text.StrictlySorted(order) && SortedThrough(groups, order, n, sorted)
    ensures SortedThrough(groups, order, n + 1, sorted[i := (groups[i].0, SortByDate(groups[i].1))])
  {
    var next := sorted[i := (groups[i].0, SortByDate(groups[i].1))];
    assert order[..n + 1] == order[..n] + [order[n]];
    forall j | 0 <= j < |groups|
      ensures next[j] == (groups[j].0, if groups[j].0 in order[..n + 1] then SortByDate(groups[j].1) else groups[j].1)
    {
      if j != i {
        assert groups[j].0 != groups[i].0;
      }
    }
  }

  lemma SortDaysDone(groups: Groups, sorted: Groups)
    requires SortedThrough(groups, SortedKeys(groups), |SortedKeys(groups)|, sorted)
    ensures sorted == SortGroups(groups)
  {
    var order := SortedKeys(groups);
    assert order[..|order|] == order;
    forall j | 0 <= j < |groups| ensures groups[j].0 in order {
      assert Keys(groups)[j] == groups[j].0;
    }
  }

  /** The group keys are exactly the distinct days of the input, and the group sizes
      add up to the input length, so each commit is in exactly one group. */
  lemma GroupAndSortKeys(cs: seq<Commit>)
    ensures KeysDistinct(SortGroups(GroupByDay(cs)))
    ensures forall d :: d in Keys(SortGroups(GroupByDay(cs))) <==> d in Days(cs)
    ensures TotalSize(SortGroups(GroupByDay(cs))) == |cs|
  {
    GroupKeysDistinct(cs);
    GroupKeysAreDays(cs);
    assert Keys(SortGroups(GroupByDay(cs))) == Keys(GroupByDay(cs));
    GroupSizesSum(cs);
    SortedSize(GroupByDay(cs));
  }

  /** Each group is its day's commits sorted ascending by date, commits with equal
      dates in input order. */
  lemma GroupAndSortLists(cs: seq<Commit>, i: nat)
    requires i < |GroupByDay(cs)|
    ensures var (d, l) := SortGroups(GroupByDay(cs))[i];
            SortedByDate(l) && multiset(l) == multiset(OnDay(cs, d))
            && forall t :: WithDate(l, t) == WithDate(OnDay(cs, d), t)
  {
    GroupContents(cs);
    SortByDateStable(GroupByDay(cs)[i].1);
  }

  lemma {:induction false} SortedSize(gs: Groups)
    ensures TotalSize(SortGroups(gs)) == TotalSize(gs)
  {
    if gs != [] {
      SortedSize(gs[..|gs| - 1]);
      assert SortGroups(gs)[..|gs| - 1] == SortGroups(gs[..|gs| - 1]);
      SortByDateStable(gs[|gs| - 1].1);
      assert |SortByDate(gs[|gs| - 1].1)| == |multiset(SortByDate(gs[|gs| - 1].1))|;
    }
  }

  /** The commits paired with their diffs, as `zip` does: up to the shorter length. */
  function Processed(infos: seq<CommitInfo>, diffs: seq<Option<string>>): (r: Result<seq<Commit>>)
    ensures r.Ok? ==> |r.value| == if |infos| < |diffs| then |infos| else |diffs|
    ensures r.Ok? ==> forall i :: 0 <= i < |r.value| ==> ConcatenateDiffToCommitInfo(infos[i], diffs[i]) == Ok(r.value[i])
    ensures r.Err? ==> exists i :: 0 <= i < |infos| && i < |diffs| && ConcatenateDiffToCommitInfo(infos[i], diffs[i]) == Err(r.error)
                                 && forall j :: 0 <= j < i ==> ConcatenateDiffToCommitInfo(infos[j], diffs[j]).Ok?
  {
    Collect(Pairs(infos, diffs))
  }

  /** `concatenate_diff_to_commit_info` applied to each pair of `zip(infos, diffs)`. */
  function Pairs(infos: seq<CommitInfo>, diffs: seq<Option<string>>): (r: seq<Result<Commit>>)
    ensures |r| == if |infos| < |diffs| then |infos| else |diffs|
    ensures forall i :: 0 <= i < |r| ==> r[i] == ConcatenateDiffToCommitInfo(infos[i], diffs[i])
  {
    var n := if |infos| < |diffs| then |infos| else |diffs|;
    seq(n, i requires 0 <= i < n => ConcatenateDiffToCommitInfo(infos[i], diffs[i]))
  }

  /** A list comprehension whose elements may raise, evaluated left to right: the
      exception of the first element that raises, or every value. */
  function Collect<T>(rs: seq<Result<T>>): (r: Result<seq<T>>)
    ensures r.Ok? <==> forall i :: 0 <= i < |rs| ==> rs[i].Ok?
    ensures r.Ok? ==> |r.value| == |rs| && forall i :: 0 <= i < |rs| ==> rs[i] == Ok(r.value[i])
    ensures r.Err? ==> exists i :: 0 <= i < |rs| && rs[i] == Err(r.error) && forall j :: 0 <= j < i ==> rs[j].Ok?
  {
    if rs == [] then Ok([])
    else
      match rs[0]
      case Err(e) => Err(e)
      case Ok(c) =>
        assert forall k :: 0 <= k < |rs| - 1 ==> rs[1..][k] == rs[k + 1];
        match Collect(rs[1..])
        case Err(e) => Err(e)
        case Ok(rest) => Ok([c] + rest)
  }

  /** `process_commits(commit_infos)` with the downloaded diffs given: the processed
      commits grouped by day and sorted, then every group passed through the exceed
      handler in place. */
  method ProcessCommitsWithDiffs(t: Tokenizer, r: Renderer, infos: seq<CommitInfo>, diffs: seq<Option<string>>)
    returns (result: Result<Groups>)
    ensures Processed(infos, diffs).Err? ==> result == Err(Processed(infos, diffs).error)
    ensures Processed(infos, diffs).Ok? && GroupAndSortError(Processed(infos, diffs).value).Some? ==>
              result == Err(GroupAndSortError(Processed(infos, diffs).value).value)
    ensures result.Ok? <==> Processed(infos, diffs).Ok? && GroupAndSortError(Processed(infos, diffs).value).None?
    ensures result.Ok? ==> |result.value| == |GroupByDay(Processed(infos, diffs).value)|
    ensures result.Ok? ==> forall i :: 0 <= i < |result.value| ==>
              result.value[i] == (SortGroups(GroupByDay(Processed(infos, diffs).value))[i].0,
                                  Handled(t, r, SortGroups(GroupByDay(Processed(infos, diffs).value))[i].1))
  {
    var processed := Processed(infos, diffs);
    if processed.Err? {
      return Err(processed.error);
    }
    var sortedGroups := GroupAndSortCommits(processed.value);
    if sortedGroups.Err? {
      return Err(sortedGroups.error);
    }
    var handled := HandleGroups(t, r, sortedGroups.value);
    return Ok(handled);
  }

  /** The loop over the sorted groups: each day's commits pass through the exceed
      handler, and the day keys stay as they are. */
  method HandleGroups(t: Tokenizer, r: Renderer, grouped: Groups) returns (out: Groups)
    ensures |out| == |grouped|
    ensures forall i :: 0 <= i < |out| ==> out[i] == (grouped[i].0, Handled(t, r, grouped[i].1))
  {
    out := grouped;
    for i := 0 to |grouped|
      invariant |out| == |grouped|
      invariant forall j :: 0 <= j < i ==> out[j] == (grouped[j].0, Handled(t, r, grouped[j].1))
      invariant forall j :: i <= j < |grouped| ==> out[j] == grouped[j]
    {
      var batch := new Commit[|grouped[i].1|](k requires 0 <= k < |grouped[i].1| => grouped[i].1[k]);
      assert batch[..] == grouped[i].1;
      var _ := HandleDailyExceedData(t, r, batch);
      out := out[i := (grouped[i].0, batch[..])];
    }
  }
}
