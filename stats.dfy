/** The contribution statistics of helpers/helper_functions.py: how many distinct days
    carry a decision (and a qualified one), the same restricted to a time window, the
    number of qualified days in each month, and the longest streak of consecutive days. */
module Stats {
  import opened Wrappers
  import Text
  import Calendar
  import opened MongoStore

  // ------------------------------------------------------------ days of decisions

  /** The dates of the decisions in `ds`. */
  function Days(ds: seq<AIDecision>): set<string> {
    set i | 0 <= i < |ds| :: ds[i].date
  }

  /** The dates of the qualified decisions in `ds`. */
  function QualifiedDays(ds: seq<AIDecision>): set<string> {
    set i | 0 <= i < |ds| && ds[i].response.isQualified :: ds[i].date
  }

  lemma DaysSnoc(ds: seq<AIDecision>, x: AIDecision)
    ensures Days(ds + [x]) == Days(ds) + {x.date}
    ensures QualifiedDays(ds + [x]) == QualifiedDays(ds) + (if x.response.isQualified then {x.date} else {})
  {
    var e := ds + [x];
    assert forall i :: 0 <= i < |ds| ==> e[i] == ds[i];
    assert e[|ds|] == x;
  }

  lemma ConcatSnoc(gs: seq<seq<AIDecision>>, i: nat)
    requires i < |gs|
    ensures Concat(gs[..i + 1]) == Concat(gs[..i]) + gs[i]
  {
    assert gs[..i + 1][..i] == gs[..i];
  }

  lemma {:induction false} ConcatAppend(a: seq<seq<AIDecision>>, b: seq<seq<AIDecision>>)
    decreases |b|
    ensures Concat(a + b) == Concat(a) + Concat(b)
  {
    if b == [] {
      assert a + b == a;
    } else {
      var n := |b| - 1;
      assert (a + b)[..|a + b| - 1] == a + b[..n];
      assert b[..|b| - 1] == b[..n];
      ConcatAppend(a, b[..n]);
    }
  }

  /** The flattened groups split just after the `j`-th decision of the `i`-th group. */
  lemma ConcatAt(gs: seq<seq<AIDecision>>, i: nat, j: nat)
    requires i < |gs| && j < |gs[i]|
    ensures Concat(gs) == Concat(gs[..i]) + gs[i][..j + 1] + (gs[i][j + 1..] + Concat(gs[i + 1..]))
  {
    assert gs == gs[..i + 1] + gs[i + 1..];
    ConcatAppend(gs[..i + 1], gs[i + 1..]);
    ConcatSnoc(gs, i);
    assert gs[i] == gs[i][..j + 1] + gs[i][j + 1..];
  }

  /** A decision is in the flattened groups exactly when some group holds it. */
  lemma {:induction false} ConcatMember(gs: seq<seq<AIDecision>>, x: AIDecision)
    decreases |gs|
    ensures x in Concat(gs) <==> exists k :: 0 <= k < |gs| && x in gs[k]
  {
    if gs != [] {
      var n := |gs| - 1;
      ConcatMember(gs[..n], x);
      if x in Concat(gs[..n]) {
        var k :| 0 <= k < n && x in gs[..n][k];
        assert x in gs[k];
      }
      if exists k :: 0 <= k < |gs| && x in gs[k] {
        var k :| 0 <= k < |gs| && x in gs[k];
        if k < n { assert x in gs[..n][k]; }
      }
    }
  }

  /** The qualified days of the decision groups are the dates of their qualified decisions. */
  lemma QualifiedDaysOfGroups(gs: seq<seq<AIDecision>>, y: string)
    ensures y in QualifiedDays(Concat(gs)) <==>
      exists k, j :: 0 <= k < |gs| && 0 <= j < |gs[k]| && gs[k][j].date == y && gs[k][j].response.isQualified
  {
    var flat := Concat(gs);
    if y in QualifiedDays(flat) {
      var i :| 0 <= i < |flat| && flat[i].response.isQualified && flat[i].date == y;
      ConcatMember(gs, flat[i]);
      var k :| 0 <= k < |gs| && flat[i] in gs[k];
      var j :| 0 <= j < |gs[k]| && gs[k][j] == flat[i];
    }
    if exists k, j :: 0 <= k < |gs| && 0 <= j < |gs[k]| && gs[k][j].date == y && gs[k][j].response.isQualified {
      var k, j :| 0 <= k < |gs| && 0 <= j < |gs[k]| && gs[k][j].date == y && gs[k][j].response.isQualified;
      assert gs[k][j] in gs[k];
      ConcatMember(gs, gs[k][j]);
      var i :| 0 <= i < |flat| && flat[i] == gs[k][j];
    }
  }

  /** Every qualified day is a day, so there are never more qualified days than days. */
  lemma QualifiedWithinTotal(ds: seq<AIDecision>)
    ensures QualifiedDays(ds) <= Days(ds)
    ensures |QualifiedDays(ds)| <= |Days(ds)|
  {
    var q, d := QualifiedDays(ds), Days(ds);
    assert q <= d;
    assert d == q + (d - q);
  }

  /** The dictionary `count_all_contribution_data` returns. */
  datatype ContributionData = ContributionData(
    totalDailyContributionNumber: nat,
    totalQualifiedDailyContributionNumber: nat,
    qualifiedDailyContributionDates: seq<string>)

  /** `count_all_contribution_data`: the number of distinct dates over all decisions,
      the number of distinct qualified dates, and the qualified dates in sorted order. */
  method CountAllContributionData(fullResult: seq<seq<AIDecision>>) returns (r: ContributionData)
    ensures r.totalDailyContributionNumber == |Days(Concat(fullResult))|
    ensures r.totalQualifiedDailyContributionNumber == |QualifiedDays(Concat(fullResult))|
    ensures r.qualifiedDailyContributionDates == Text.SortedElements(QualifiedDays(Concat(fullResult)))
  {
    var totalDays: set<string> := {};
    var qualifiedDays: set<string> := {};
    for i := 0 to |fullResult|
      invariant totalDays == Days(Concat(fullResult[..i]))
      invariant qualifiedDays == QualifiedDays(Concat(fullResult[..i]))
    {
      var decisionList := fullResult[i];
      ghost var before := Concat(fullResult[..i]);
      assert before + decisionList[..0] == before;
      for j := 0 to |decisionList|
        invariant totalDays == Days(before + decisionList[..j])
        invariant qualifiedDays == QualifiedDays(before + decisionList[..j])
      {
        var decision := decisionList[j];
        DaysSnoc(before + decisionList[..j], decision);
        assert before + decisionList[..j + 1] == before + decisionList[..j] + [decision];
        totalDays := totalDays + {decision.date};
        if decision.response.isQualified {
          qualifiedDays := qualifiedDays + {decision.date};
        }
      }
      assert decisionList[..|decisionList|] == decisionList;
      ConcatSnoc(fullResult, i);
    }
    assert fullResult[..|fullResult|] == fullResult;
    var sortedTotal := Text.SortedElements(totalDays);
    var sortedQualified := Text.SortedElements(qualifiedDays);
    Text.SortedElementsCard(totalDays);
    Text.SortedElementsCard(qualifiedDays);
    r := ContributionData(|sortedTotal|, |sortedQualified|, sortedQualified);
  }

  // ------------------------------------------------------------ days in a window

  /** A parsed decision time: its instant in seconds, and its calendar day written
      `%Y-%m-%d`. */
  datatype Stamp = Stamp(seconds: int, day: string)

  /** `parser.isoparse(s).replace(tzinfo=None)`, kept as the instant and the day. */
  function IsoStamp(s: string): (r: Result<Stamp>)
    ensures r.Ok? <==> Calendar.IsoParse(s).Ok?
    ensures r.Ok? ==> Calendar.IsCanonicalYmd(r.value.day)
  {
    var t :- Calendar.IsoParse(s);
    Calendar.FormatThenParse(t.date);
    Ok(Stamp(Calendar.Seconds(t), Calendar.FormatYmd(t.date)))
  }

  /** `since_date <= decision_date <= until_date`. */
  predicate Inside(x: AIDecision, stamp: string -> Result<Stamp>, lo: int, hi: int) {
    stamp(x.date).Ok? && lo <= stamp(x.date).value.seconds <= hi
  }

  /** The two sets the loop of `count_qualified_contributions_by_date` fills. */
  datatype DaySets = DaySets(total: set<string>, qualified: set<string>)

  /** The days of the decisions inside the window, all and qualified; the first date
      that does not parse raises. The parser is a parameter (`IsoStamp` in the model). */
  function WindowDays(ds: seq<AIDecision>, stamp: string -> Result<Stamp>, lo: int, hi: int): (r: Result<DaySets>)
    decreases |ds|
  {
    if ds == [] then Ok(DaySets({}, {}))
    else
      var acc :- WindowDays(ds[..|ds| - 1], stamp, lo, hi);
      var x := ds[|ds| - 1];
      var t :- stamp(x.date);
      if lo <= t.seconds <= hi then
        Ok(DaySets(acc.total + {t.day}, if x.response.isQualified then acc.qualified + {t.day} else acc.qualified))
      else Ok(acc)
  }

  lemma WindowDaysSnoc(ds: seq<AIDecision>, x: AIDecision, stamp: string -> Result<Stamp>, lo: int, hi: int)
    ensures WindowDays(ds + [x], stamp, lo, hi) ==
      if WindowDays(ds, stamp, lo, hi).Err? then WindowDays(ds, stamp, lo, hi)
      else if stamp(x.date).Err? then Err(stamp(x.date).error)
      else
        var acc, t := WindowDays(ds, stamp, lo, hi).value, stamp(x.date).value;
        if lo <= t.seconds <= hi then
          Ok(DaySets(acc.total + {t.day}, if x.response.isQualified then acc.qualified + {t.day} else acc.qualified))
        else Ok(acc)
  {
    assert (ds + [x])[..|ds + [x]| - 1] == ds;
  }

  /** Once a prefix has raised, the rest is never looked at. */
  lemma {:induction false} WindowDaysStopsAtError(a: seq<AIDecision>, b: seq<AIDecision>, stamp: string -> Result<Stamp>, lo: int, hi: int)
    requires WindowDays(a, stamp, lo, hi).Err?
    decreases |b|
    ensures WindowDays(a + b, stamp, lo, hi) == WindowDays(a, stamp, lo, hi)
  {
    if b == [] {
      assert a + b == a;
    } else {
      var n := |b| - 1;
      WindowDaysStopsAtError(a, b[..n], stamp, lo, hi);
      assert a + b == (a + b[..n]) + [b[n]];
      WindowDaysSnoc(a + b[..n], b[n], stamp, lo, hi);
    }
  }

  /** The window's days described without the loop: the call succeeds exactly when
      every date parses, and then the days are those of the decisions inside the
      window, each qualified day being the day of a qualified decision. */
  lemma WindowDaysMeaning(ds: seq<AIDecision>, stamp: string -> Result<Stamp>, lo: int, hi: int)
    ensures WindowDays(ds, stamp, lo, hi).Ok? <==> forall i :: 0 <= i < |ds| ==> stamp(ds[i].date).Ok?
    ensures WindowDays(ds, stamp, lo, hi).Ok? ==>
      var w := WindowDays(ds, stamp, lo, hi).value;
      (forall y :: y in w.total <==> exists i :: 0 <= i < |ds| && Inside(ds[i], stamp, lo, hi) && stamp(ds[i].date).value.day == y)
      && (forall y :: y in w.qualified <==>
            exists i :: 0 <= i < |ds| && Inside(ds[i], stamp, lo, hi) && ds[i].response.isQualified && stamp(ds[i].date).value.day == y)
  {
    WindowDaysOk(ds, stamp, lo, hi);
    if WindowDays(ds, stamp, lo, hi).Ok? {
      WindowTotalDays(ds, stamp, lo, hi);
      WindowQualifiedDays(ds, stamp, lo, hi);
    }
  }

  lemma {:induction false} WindowDaysOk(ds: seq<AIDecision>, stamp: string -> Result<Stamp>, lo: int, hi: int)
    decreases |ds|
    ensures WindowDays(ds, stamp, lo, hi).Ok? <==> forall i :: 0 <= i < |ds| ==> stamp(ds[i].date).Ok?
  {
    if ds != [] {
      var n := |ds| - 1;
      var p := ds[..n];
      assert ds == p + [ds[n]];
      WindowDaysOk(p, stamp, lo, hi);
      WindowDaysSnoc(p, ds[n], stamp, lo, hi);
      assert forall i :: 0 <= i < n ==> ds[i] == p[i];
    }
  }

  lemma {:induction false} WindowTotalDays(ds: seq<AIDecision>, stamp: string -> Result<Stamp>, lo: int, hi: int)
    requires WindowDays(ds, stamp, lo, hi).Ok?
    decreases |ds|
    ensures forall y :: y in WindowDays(ds, stamp, lo, hi).value.total <==>
      exists i :: 0 <= i < |ds| && Inside(ds[i], stamp, lo, hi) && stamp(ds[i].date).value.day == y
  {
    if ds != [] {
      var n := |ds| - 1;
      var p := ds[..n];
      assert ds == p + [ds[n]];
      WindowDaysSnoc(p, ds[n], stamp, lo, hi);
      WindowTotalDays(p, stamp, lo, hi);
      var w := WindowDays(ds, stamp, lo, hi).value;
      var v := WindowDays(p, stamp, lo, hi).value;
      forall y ensures y in w.total <==> exists i :: 0 <= i < |ds| && Inside(ds[i], stamp, lo, hi) && stamp(ds[i].date).value.day == y {
        if exists i :: 0 <= i < |ds| && Inside(ds[i], stamp, lo, hi) && stamp(ds[i].date).value.day == y {
          var i :| 0 <= i < |ds| && Inside(ds[i], stamp, lo, hi) && stamp(ds[i].date).value.day == y;
          if i < n { assert ds[i] == p[i]; }
        }
        if y in v.total {
          var i :| 0 <= i < n && Inside(p[i], stamp, lo, hi) && stamp(p[i].date).value.day == y;
          assert ds[i] == p[i];
        }
      }
    }
  }

  lemma {:induction false} WindowQualifiedDays(ds: seq<AIDecision>, stamp: string -> Result<Stamp>, lo: int, hi: int)
    requires WindowDays(ds, stamp, lo, hi).Ok?
    decreases |ds|
    ensures forall y :: y in WindowDays(ds, stamp, lo, hi).value.qualified <==>
      exists i :: 0 <= i < |ds| && Inside(ds[i], stamp, lo, hi) && ds[i].response.isQualified && stamp(ds[i].date).value.day == y
  {
    if ds != [] {
      var n := |ds| - 1;
      var p := ds[..n];
      assert ds == p + [ds[n]];
      WindowDaysSnoc(p, ds[n], stamp, lo, hi);
      WindowQualifiedDays(p, stamp, lo, hi);
      var w := WindowDays(ds, stamp, lo, hi).value;
      var v := WindowDays(p, stamp, lo, hi).value;
      forall y ensures y in w.qualified <==>
        exists i :: 0 <= i < |ds| && Inside(ds[i], stamp, lo, hi) && ds[i].response.isQualified && stamp(ds[i].date).value.day == y
      {
        if exists i :: 0 <= i < |ds| && Inside(ds[i], stamp, lo, hi) && ds[i].response.isQualified && stamp(ds[i].date).value.day == y {
          var i :| 0 <= i < |ds| && Inside(ds[i], stamp, lo, hi) && ds[i].response.isQualified && stamp(ds[i].date).value.day == y;
          if i < n { assert ds[i] == p[i]; }
        }
        if y in v.qualified {
          var i :| 0 <= i < n && Inside(p[i], stamp, lo, hi) && p[i].response.isQualified && stamp(p[i].date).value.day == y;
          assert ds[i] == p[i];
        }
      }
    }
  }

  /** The same over the decision groups: a day is a qualified day of the window
      exactly when some group holds a qualified decision inside the window on it. */
  lemma WindowQualifiedOfGroups(gs: seq<seq<AIDecision>>, stamp: string -> Result<Stamp>, lo: int, hi: int, y: string)
    requires WindowDays(Concat(gs), stamp, lo, hi).Ok?
    ensures y in WindowDays(Concat(gs), stamp, lo, hi).value.qualified <==>
      exists k, j :: 0 <= k < |gs| && 0 <= j < |gs[k]| && Inside(gs[k][j], stamp, lo, hi)
        && gs[k][j].response.isQualified && stamp(gs[k][j].date).value.day == y
  {
    var flat := Concat(gs);
    var w := WindowDays(flat, stamp, lo, hi).value;
    WindowDaysMeaning(flat, stamp, lo, hi);
    if y in w.qualified {
      var i :| 0 <= i < |flat| && Inside(flat[i], stamp, lo, hi) && flat[i].response.isQualified
               && stamp(flat[i].date).value.day == y;
      ConcatMember(gs, flat[i]);
      var k :| 0 <= k < |gs| && flat[i] in gs[k];
      var j :| 0 <= j < |gs[k]| && gs[k][j] == flat[i];
    }
    if exists k, j :: 0 <= k < |gs| && 0 <= j < |gs[k]| && Inside(gs[k][j], stamp, lo, hi)
         && gs[k][j].response.isQualified && stamp(gs[k][j].date).value.day == y {
      var k, j :| 0 <= k < |gs| && 0 <= j < |gs[k]| && Inside(gs[k][j], stamp, lo, hi)
         && gs[k][j].response.isQualified && stamp(gs[k][j].date).value.day == y;
      var x := gs[k][j];
      assert x in gs[k];
      ConcatMember(gs, x);
      var i :| 0 <= i < |flat| && flat[i] == x;
    }
  }

  /** Every qualified day in the window is a day in the window. */
  lemma {:induction false} WindowQualifiedWithinTotal(ds: seq<AIDecision>, stamp: string -> Result<Stamp>, lo: int, hi: int)
    requires WindowDays(ds, stamp, lo, hi).Ok?
    ensures WindowDays(ds, stamp, lo, hi).value.qualified <= WindowDays(ds, stamp, lo, hi).value.total
  {
    WindowDaysMeaning(ds, stamp, lo, hi);
  }

  /** The dictionary `count_qualified_contributions_by_date` returns. */
  datatype WindowCounts = WindowCounts(
    qualifiedDays: seq<string>,
    qualifiedDaysCount: nat,
    totalDays: seq<string>,
    totalDaysCount: nat)

  /** What `count_qualified_contributions_by_date` computes: both bounds parsed first,
      then the days of the flattened decision groups inside the inclusive window. */
  function ByDateCounts(fullResult: seq<seq<AIDecision>>, since: string, until: string): Result<WindowCounts> {
    var lo :- IsoStamp(since);
    var hi :- IsoStamp(until);
    var w :- WindowDays(Concat(fullResult), IsoStamp, lo.seconds, hi.seconds);
    Ok(WindowCounts(Text.SortedElements(w.qualified), |w.qualified|, Text.SortedElements(w.total), |w.total|))
  }

  /** The counts are the sizes of the day lists, and there are no more qualified days
      than days. */
  lemma ByDateCountsSizes(fullResult: seq<seq<AIDecision>>, since: string, until: string)
    requires ByDateCounts(fullResult, since, until).Ok?
    ensures var c := ByDateCounts(fullResult, since, until).value;
      c.qualifiedDaysCount == |c.qualifiedDays| && c.totalDaysCount == |c.totalDays|
      && c.qualifiedDaysCount <= c.totalDaysCount
      && forall y :: y in c.qualifiedDays ==> y in c.totalDays
  {
    var lo := IsoStamp(since).value;
    var hi := IsoStamp(until).value;
    var w := WindowDays(Concat(fullResult), IsoStamp, lo.seconds, hi.seconds).value;
    Text.SortedElementsCard(w.qualified);
    Text.SortedElementsCard(w.total);
    WindowQualifiedWithinTotal(Concat(fullResult), IsoStamp, lo.seconds, hi.seconds);
    var d := w.total - w.qualified;
    assert w.total == w.qualified + d;
  }

  /** `count_qualified_contributions_by_date`. */
  method CountQualifiedContributionsByDate(fullResult: seq<seq<AIDecision>>, since: string, until: string)
    returns (r: Result<WindowCounts>)
    ensures r == ByDateCounts(fullResult, since, until)
  {
    var sinceStamp := IsoStamp(since);
    if sinceStamp.Err? {
      return Err(sinceStamp.error);
    }
    var untilStamp := IsoStamp(until);
    if untilStamp.Err? {
      return Err(untilStamp.error);
    }
    var lo, hi := sinceStamp.value.seconds, untilStamp.value.seconds;
    var sets := CollectWindowDays(fullResult, IsoStamp, lo, hi);
    if sets.Err? {
      return Err(sets.error);
    }
    var w := sets.value;
    var sortedQualified := Text.SortedElements(w.qualified);
    var sortedTotal := Text.SortedElements(w.total);
    Text.SortedElementsCard(w.qualified);
    Text.SortedElementsCard(w.total);
    r := Ok(WindowCounts(sortedQualified, |sortedQualified|, sortedTotal, |sortedTotal|));
  }

  /** The nested loop of `count_qualified_contributions_by_date`. */
  method CollectWindowDays(fullResult: seq<seq<AIDecision>>, stamp: string -> Result<Stamp>, lo: int, hi: int)
    returns (r: Result<DaySets>)
    ensures r == WindowDays(Concat(fullResult), stamp, lo, hi)
  {
    var totalDays: set<string> := {};
    var qualifiedDays: set<string> := {};
    for i := 0 to |fullResult|
      invariant WindowDays(Concat(fullResult[..i]), stamp, lo, hi) == Ok(DaySets(totalDays, qualifiedDays))
    {
      var decisionList := fullResult[i];
      ghost var before := Concat(fullResult[..i]);
      assert before + decisionList[..0] == before;
      for j := 0 to |decisionList|
        invariant WindowDays(before + decisionList[..j], stamp, lo, hi) == Ok(DaySets(totalDays, qualifiedDays))
      {
        var decision := decisionList[j];
        WindowDaysSnoc(before + decisionList[..j], decision, stamp, lo, hi);
        assert before + decisionList[..j + 1] == before + decisionList[..j] + [decision];
        var t := stamp(decision.date);
        if t.Err? {
          ConcatAt(fullResult, i, j);
          WindowDaysStopsAtError(before + decisionList[..j + 1], decisionList[j + 1..] + Concat(fullResult[i + 1..]), stamp, lo, hi);
          return Err(t.error);
        }
        if lo <= t.value.seconds <= hi {
          totalDays := totalDays + {t.value.day};
          if decision.response.isQualified {
            qualifiedDays := qualifiedDays + {t.value.day};
          }
        }
      }
      assert decisionList[..|decisionList|] == decisionList;
      ConcatSnoc(fullResult, i);
    }
    assert fullResult[..|fullResult|] == fullResult;
    r := Ok(DaySets(totalDays, qualifiedDays));
  }

  // ------------------------------------------------------------ dates by month

  /** `[datetime.strptime(date, "%Y-%m-%d") for date in dates]`: the first date that
      does not parse raises its error. */
  function ParseAll(dates: seq<string>): (r: Result<seq<Calendar.Date>>)
    ensures r.Ok? <==> forall i :: 0 <= i < |dates| ==> Calendar.ParseYmd(dates[i]).Ok?
    ensures r.Ok? ==> |r.value| == |dates|
    ensures r.Ok? ==> forall i :: 0 <= i < |dates| ==> r.value[i] == Calendar.ParseYmd(dates[i]).value && Calendar.ValidDate(r.value[i])
  {
    if dates == [] then Ok([])
    else
      var d :- Calendar.ParseYmd(dates[0]);
      var rest :- ParseAll(dates[1..]);
      Ok([d] + rest)
  }

  /** `date.strftime("%Y-%m")`. */
  function MonthKeyOf(d: Calendar.Date): (k: string)
    requires Calendar.ValidDate(d)
    ensures |k| == 7 && k[4] == '-'
  {
    Calendar.Pad4(d.year) + "-" + Calendar.Pad2(d.month)
  }

  /** For a date written `YYYY-MM-DD` the month key is its first seven characters. */
  lemma MonthKeyIsPrefix(s: string)
    requires Calendar.IsCanonicalYmd(s) && Calendar.ParseYmd(s).Ok?
    ensures MonthKeyOf(Calendar.ParseYmd(s).value) == s[..7]
  {
    var d := Calendar.ParseYmd(s).value;
    Calendar.ParseThenFormat(s);
    assert Calendar.FormatYmd(d)[..7] == MonthKeyOf(d);
  }

  function MonthKeys(ds: seq<Calendar.Date>): (keys: seq<string>)
    requires forall i :: 0 <= i < |ds| ==> Calendar.ValidDate(ds[i])
    ensures |keys| == |ds| && forall i :: 0 <= i < |ds| ==> keys[i] == MonthKeyOf(ds[i])
  {
    seq(|ds|, i requires 0 <= i < |ds| => MonthKeyOf(ds[i]))
  }

  /** The histogram of `keys`: each key that occurs, mapped to its number of occurrences. */
  function Tally(keys: seq<string>): map<string, int> {
    map k | k in keys :: multiset(keys)[k]
  }

  /** Every month listed has at least one date, and the counts add up key by key. */
  lemma TallyCounts(keys: seq<string>, k: string)
    ensures k in Tally(keys) <==> k in keys
    ensures k in Tally(keys) ==> Tally(keys)[k] == multiset(keys)[k] >= 1
  {
  }

  /** The sum of the values of a map, taken in an arbitrary order of its keys. */
  ghost function MapSum(m: map<string, int>): int
    decreases m.Keys
  {
    if m == map[] then 0
    else
      var k := PickKey(m);
      m[k] + MapSum(m - {k})
  }

  ghost function PickKey(m: map<string, int>): (k: string)
    requires m != map[]
    ensures k in m
  {
    var k :| k in m; k
  }

  /** The sum does not depend on the key taken first. */
  lemma MapSumRemove(m: map<string, int>, k: string)
    requires k in m
    decreases m.Keys
    ensures MapSum(m) == m[k] + MapSum(m - {k})
  {
    var j := PickKey(m);
    if j != k {
      MapSumRemove(m - {j}, k);
      MapSumRemove(m - {k}, j);
      assert m - {j} - {k} == m - {k} - {j};
    }
  }

  lemma MapSumUpdate(m: map<string, int>, k: string, v: int)
    ensures MapSum(m[k := v]) == (if k in m then MapSum(m) - m[k] else MapSum(m)) + v
  {
    MapSumRemove(m[k := v], k);
    assert m[k := v] - {k} == m - {k};
    if k in m {
      MapSumRemove(m, k);
    } else {
      assert m - {k} == m;
    }
  }

  /** The counts of the histogram add up to the number of keys counted. */
  lemma {:induction false} TallySum(keys: seq<string>)
    ensures MapSum(Tally(keys)) == |keys|
  {
    if keys == [] {
      assert Tally(keys) == map[];
    } else {
      var init, k := keys[..|keys| - 1], keys[|keys| - 1];
      assert keys == init + [k];
      TallySum(init);
      TallySnoc(init, k);
      var t := Tally(init);
      MapSumUpdate(t, k, (if k in t then t[k] else 0) + 1);
    }
  }

  /** `get_qualified_daily_contribution_number_by_month`: every date parsed first, then
      one count per `YYYY-MM` month key. */
  function MonthlyCounts(dates: seq<string>): Result<map<string, int>> {
    var ds :- ParseAll(dates);
    Ok(Tally(MonthKeys(ds)))
  }

  /** The seven-character `YYYY-MM` prefixes of the dates. */
  function MonthPrefixes(dates: seq<string>): (ps: seq<string>)
    requires forall i :: 0 <= i < |dates| ==> 7 <= |dates[i]|
    ensures |ps| == |dates| && forall i :: 0 <= i < |dates| ==> ps[i] == dates[i][..7]
  {
    seq(|dates|, i requires 0 <= i < |dates| => dates[i][..7])
  }

  /** For well-formed `YYYY-MM-DD` dates, the monthly counts are the number of dates
      carrying each seven-character month prefix. */
  lemma MonthlyCountsOfCanonical(dates: seq<string>)
    requires forall i :: 0 <= i < |dates| ==> Calendar.IsCanonicalYmd(dates[i]) && Calendar.ParseYmd(dates[i]).Ok?
    ensures forall i :: 0 <= i < |dates| ==> 7 <= |dates[i]|
    ensures MonthlyCounts(dates) == Ok(Tally(MonthPrefixes(dates)))
  {
    var ds := ParseAll(dates).value;
    var keys := MonthKeys(ds);
    var prefixes := MonthPrefixes(dates);
    forall i | 0 <= i < |dates| ensures keys[i] == prefixes[i] {
      MonthKeyIsPrefix(dates[i]);
    }
    assert keys == prefixes;
  }

  /** Every key of the histogram is the `YYYY-MM` key of one of the dates, and the
      counts add up to the number of dates. */
  lemma MonthlyCountsShape(dates: seq<string>)
    requires MonthlyCounts(dates).Ok?
    ensures MapSum(MonthlyCounts(dates).value) == |dates|
    ensures forall k :: k in MonthlyCounts(dates).value ==>
      |k| == 7 && k[4] == '-' && exists i :: 0 <= i < |dates| && k == MonthKeyOf(Calendar.ParseYmd(dates[i]).value)
  {
    var ds := ParseAll(dates).value;
    TallySum(MonthKeys(ds));
  }

  method GetQualifiedDailyContributionNumberByMonth(dates: seq<string>) returns (r: Result<map<string, int>>)
    ensures r == MonthlyCounts(dates)
  {
    var parsed := ParseAll(dates);
    if parsed.Err? {
      return Err(parsed.error);
    }
    var monthly := CountByMonth(parsed.value);
    r := Ok(monthly);
  }

  /** Counting one more key: the `defaultdict(int)` update `monthly[k] += 1`. */
  lemma TallySnoc(keys: seq<string>, k: string)
    ensures Tally(keys + [k]) == Tally(keys)[k := (if k in Tally(keys) then Tally(keys)[k] else 0) + 1]
  {
    var t, u := Tally(keys), Tally(keys + [k]);
    var v := t[k := (if k in t then t[k] else 0) + 1];
    assert multiset(keys + [k]) == multiset(keys) + multiset{k};
    forall x ensures x in u <==> x in v {
      assert x in keys + [k] <==> x in keys || x == k;
    }
    forall x | x in u ensures u[x] == v[x] {
      assert x in keys + [k] <==> x in keys || x == k;
    }
    assert u == v;
  }

  /** The `defaultdict(int)` loop over the parsed dates. */
  method CountByMonth(dateObjects: seq<Calendar.Date>) returns (monthly: map<string, int>)
    requires forall i :: 0 <= i < |dateObjects| ==> Calendar.ValidDate(dateObjects[i])
    ensures monthly == Tally(MonthKeys(dateObjects))
  {
    ghost var keys := MonthKeys(dateObjects);
    monthly := map[];
    assert keys[..0] == [];
    for i := 0 to |dateObjects|
      invariant monthly == Tally(keys[..i])
    {
      var monthKey := MonthKeyOf(dateObjects[i]);
      assert keys[..i + 1] == keys[..i] + [monthKey];
      TallySnoc(keys[..i], monthKey);
      monthly := monthly[monthKey := (if monthKey in monthly then monthly[monthKey] else 0) + 1];
    }
    assert keys[..|dateObjects|] == keys;
  }

  // ------------------------------------------------------------ streak

  predicate NonDecreasing(xs: seq<int>) {
    forall i, j :: 0 <= i < j < |xs| ==> xs[i] <= xs[j]
  }

  /** A lower bound of `ys` and of `x` bounds every element of a permutation of `ys + [x]`. */
  lemma PermutationBound(b: int, ys: seq<int>, x: int, t: seq<int>)
    requires forall j :: 0 <= j < |ys| ==> b <= ys[j]
    requires b <= x && multiset(t) == multiset(ys) + multiset{x}
    ensures forall j :: 0 <= j < |t| ==> b <= t[j]
  {
    forall j | 0 <= j < |t| ensures b <= t[j] {
      assert t[j] in multiset(t);
      if t[j] != x {
        assert t[j] in multiset(ys);
        var k :| 0 <= k < |ys| && ys[k] == t[j];
      }
    }
  }

  function InsertInt(x: int, xs: seq<int>): (r: seq<int>)
    requires NonDecreasing(xs)
    ensures NonDecreasing(r) && multiset(r) == multiset(xs) + multiset{x}
  {
    if xs == [] || x <= xs[0] then [x] + xs
    else
      var ys := xs[1..];
      assert NonDecreasing(ys);
      var t := InsertInt(x, ys);
      assert xs == [xs[0]] + ys;
      PermutationBound(xs[0], ys, x, t);
      [xs[0]] + t
  }

  /** `list.sort()` on the day numbers: sorted and a permutation of the input. */
  function SortInts(xs: seq<int>): (r: seq<int>)
    ensures NonDecreasing(r) && multiset(r) == multiset(xs)
  {
    if xs == [] then []
    else
      assert xs == xs[..|xs| - 1] + [xs[|xs| - 1]];
      InsertInt(xs[|xs| - 1], SortInts(xs[..|xs| - 1]))
  }

  /** The proleptic day numbers of parsed dates. Comparing `d2 == d1 + timedelta(days=1)`
      is comparing these numbers (`Calendar.NextDayOrdinal`). */
  function Ordinals(ds: seq<Calendar.Date>): (xs: seq<int>)
    requires forall i :: 0 <= i < |ds| ==> Calendar.ValidDate(ds[i])
    ensures |xs| == |ds| && forall i :: 0 <= i < |ds| ==> xs[i] == Calendar.Ordinal(ds[i])
  {
    seq(|ds|, i requires 0 <= i < |ds| => Calendar.Ordinal(ds[i]))
  }

  /** The length of the run of consecutive day numbers that ends at position `i`. */
  function RunEndingAt(xs: seq<int>, i: nat): (n: nat)
    requires i < |xs|
    ensures 1 <= n <= i + 1
  {
    if i > 0 && xs[i] == xs[i - 1] + 1 then RunEndingAt(xs, i - 1) + 1 else 1
  }

  function Max(a: int, b: int): int {
    if a >= b then a else b
  }

  /** The longest of the runs that end before position `k`. */
  function LongestRunBefore(xs: seq<int>, k: nat): (n: nat)
    requires k <= |xs|
    ensures n <= k && (k > 0 ==> 1 <= n)
  {
    if k == 0 then 0 else Max(LongestRunBefore(xs, k - 1), RunEndingAt(xs, k - 1))
  }

  /** The streak `calculate_streak` reports for sorted day numbers: 1 when there are none. */
  function Streak(xs: seq<int>): nat {
    if xs == [] then 1 else LongestRunBefore(xs, |xs|)
  }

  /** Positions `a .. b - 1` hold consecutive day numbers. */
  predicate Consecutive(xs: seq<int>, a: nat, b: nat) {
    a < b <= |xs| && forall k :: a < k < b ==> xs[k] == xs[k - 1] + 1
  }

  lemma {:induction false} RunIsConsecutive(xs: seq<int>, i: nat)
    requires i < |xs|
    ensures Consecutive(xs, i + 1 - RunEndingAt(xs, i), i + 1)
  {
    if i > 0 && xs[i] == xs[i - 1] + 1 {
      RunIsConsecutive(xs, i - 1);
    }
  }

  lemma {:induction false} RunIsMaximal(xs: seq<int>, a: nat, i: nat)
    requires Consecutive(xs, a, i + 1)
    ensures i + 1 - a <= RunEndingAt(xs, i)
  {
    if a < i {
      assert xs[i] == xs[i - 1] + 1;
      RunIsMaximal(xs, a, i - 1);
    }
  }

  lemma {:induction false} LongestRunBeforeIsLongest(xs: seq<int>, k: nat)
    requires 0 < k <= |xs|
    ensures exists a: nat, b: nat :: b <= k && Consecutive(xs, a, b) && b - a == LongestRunBefore(xs, k)
    ensures forall a: nat, b: nat :: b <= k && Consecutive(xs, a, b) ==> b - a <= LongestRunBefore(xs, k)
  {
    var run := RunEndingAt(xs, k - 1);
    RunIsConsecutive(xs, k - 1);
    forall a | Consecutive(xs, a, k) ensures k - a <= run {
      RunIsMaximal(xs, a, k - 1);
    }
    if k > 1 {
      LongestRunBeforeIsLongest(xs, k - 1);
      forall a: nat, b: nat | b <= k && Consecutive(xs, a, b) ensures b - a <= LongestRunBefore(xs, k) {
        if b < k {
          assert b <= k - 1;
        } else {
          RunIsMaximal(xs, a, k - 1);
        }
      }
      if LongestRunBefore(xs, k - 1) >= run {
        var a: nat, b: nat :| b <= k - 1 && Consecutive(xs, a, b) && b - a == LongestRunBefore(xs, k - 1);
        assert b <= k;
      } else {
        assert Consecutive(xs, k - run, k);
      }
    } else {
      assert Consecutive(xs, k - run, k);
      forall a: nat, b: nat | b <= k && Consecutive(xs, a, b) ensures b - a <= LongestRunBefore(xs, k) {
        RunIsMaximal(xs, a, k - 1);
      }
    }
  }

  /** The streak is the length of a longest block of consecutive day numbers, and lies
      between 1 and the number of dates. */
  lemma StreakIsLongestRun(xs: seq<int>)
    requires xs != []
    ensures 1 <= Streak(xs) <= |xs|
    ensures exists a: nat, b: nat :: Consecutive(xs, a, b) && b - a == Streak(xs)
    ensures forall a: nat, b: nat :: Consecutive(xs, a, b) ==> b - a <= Streak(xs)
  {
    LongestRunBeforeIsLongest(xs, |xs|);
  }

  /** A repeated date breaks a run: `d == d + timedelta(days=1)` never holds. */
  lemma RepeatBreaksRun(xs: seq<int>, i: nat)
    requires 0 < i < |xs| && xs[i] == xs[i - 1]
    ensures RunEndingAt(xs, i) == 1
  {
  }

  const OutOfRange := OverflowError("date value out of range")

  /** The loop of `calculate_streak` over sorted day numbers. Adding a day to
      9999-12-31 raises, which the loop does whenever that date is not the last one. */
  function SortedStreak(xs: seq<int>): Result<int> {
    if exists i :: 0 <= i < |xs| - 1 && xs[i] == Calendar.MaxOrdinal then Err(OutOfRange)
    else Ok(Streak(xs))
  }

  /** `calculate_streak`: every date parsed, the dates sorted, then the longest run of
      consecutive days. */
  function StreakOf(dates: seq<string>): Result<int> {
    var ds :- ParseAll(dates);
    SortedStreak(SortInts(Ordinals(ds)))
  }

  /** No dates give a streak of 1, and a streak never exceeds the number of dates. */
  lemma StreakOfBounds(dates: seq<string>)
    requires StreakOf(dates).Ok?
    ensures dates == [] ==> StreakOf(dates).value == 1
    ensures dates != [] ==> 1 <= StreakOf(dates).value <= |dates|
  {
    if dates != [] {
      var xs := SortInts(Ordinals(ParseAll(dates).value));
      assert |xs| == |multiset(xs)| == |dates|;
      StreakIsLongestRun(xs);
    }
  }

  method CalculateStreak(dates: seq<string>) returns (r: Result<int>)
    ensures r == StreakOf(dates)
  {
    var parsed := ParseAll(dates);
    if parsed.Err? {
      return Err(parsed.error);
    }
    var dateObjects := SortInts(Ordinals(parsed.value));
    r := LongestStreak(dateObjects);
  }

  /** The counting loop of `calculate_streak`. */
  method LongestStreak(dateObjects: seq<int>) returns (r: Result<int>)
    ensures r == SortedStreak(dateObjects)
  {
    var longestStreak := 0;
    var currentStreak := 1;
    var i := 1;
    while i < |dateObjects|
      invariant 1 <= i && (dateObjects != [] ==> i <= |dateObjects|)
      invariant forall k :: 0 <= k < i - 1 && k < |dateObjects| - 1 ==> dateObjects[k] != Calendar.MaxOrdinal
      invariant dateObjects == [] ==> longestStreak == 0 && currentStreak == 1
      invariant dateObjects != [] ==> currentStreak == RunEndingAt(dateObjects, i - 1)
      invariant dateObjects != [] ==> Max(longestStreak, currentStreak) == LongestRunBefore(dateObjects, i)
    {
      if dateObjects[i - 1] == Calendar.MaxOrdinal {
        return Err(OutOfRange);
      }
      if dateObjects[i] == dateObjects[i - 1] + 1 {
        currentStreak := currentStreak + 1;
      } else {
        if currentStreak > longestStreak {
          longestStreak := currentStreak;
        }
        currentStreak := 1;
      }
      i := i + 1;
    }
    if currentStreak > longestStreak {
      longestStreak := currentStreak;
    }
    return Ok(longestStreak);
  }
}
