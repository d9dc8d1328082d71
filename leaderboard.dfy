/** leader_bot/leaderboard_functions.py: the monthly leaderboard, the splitting of
    long chat messages, and the leaderboard and streak messages. The user dicts,
    the clock and the Discord id lookup are parameters. */
module Leaderboard {
  import opened Wrappers
  import Text
  import Calendar
  import MongoStore

  // ------------------------------------------------------------ stable descending sort

  /** `key` never increases along `s`. */
  predicate NonIncreasing<T>(s: seq<T>, key: T -> int) {
    forall i, j :: 0 <= i < j < |s| ==> key(s[j]) <= key(s[i])
  }

  /** The elements of `s` whose key is `c`, in order. */
  function WithKey<T>(s: seq<T>, key: T -> int, c: int): seq<T> {
    if s == [] then []
    else (if key(s[0]) == c then [s[0]] else []) + WithKey(s[1..], key, c)
  }

  /** Places `x` before the first element whose key is not larger. */
  function InsertDesc<T>(x: T, s: seq<T>, key: T -> int): seq<T> {
    if s == [] || key(x) >= key(s[0]) then [x] + s else [s[0]] + InsertDesc(x, s[1..], key)
  }

  /** `sorted(s, key=key, reverse=True)`: Python's sort is stable, also in reverse. */
  function SortDesc<T>(s: seq<T>, key: T -> int): seq<T> {
    if s == [] then [] else InsertDesc(s[0], SortDesc(s[1..], key), key)
  }

  lemma {:induction false} InsertDescSorted<T>(x: T, s: seq<T>, key: T -> int)
    requires NonIncreasing(s, key)
    ensures NonIncreasing(InsertDesc(x, s, key), key)
    ensures InsertDesc(x, s, key)[0] == x || InsertDesc(x, s, key)[0] == s[0]
  {
    if s != [] && key(x) < key(s[0]) {
      var t := InsertDesc(x, s[1..], key);
      InsertDescSorted(x, s[1..], key);
      assert InsertDesc(x, s, key) == [s[0]] + t;
      assert forall j :: 0 <= j < |t| ==> key(t[j]) <= key(t[0]);
      assert key(t[0]) <= key(s[0]);
    }
  }

  lemma {:induction false} InsertDescPermutes<T>(x: T, s: seq<T>, key: T -> int)
    ensures multiset(InsertDesc(x, s, key)) == multiset{x} + multiset(s)
  {
    if s != [] && key(x) < key(s[0]) {
      InsertDescPermutes(x, s[1..], key);
      assert s == [s[0]] + s[1..];
    }
  }

  lemma {:induction false} InsertDescWithKey<T>(x: T, s: seq<T>, key: T -> int, c: int)
    requires NonIncreasing(s, key)
    ensures WithKey(InsertDesc(x, s, key), key, c) == (if key(x) == c then [x] else []) + WithKey(s, key, c)
  {
    var r := InsertDesc(x, s, key);
    if s == [] || key(x) >= key(s[0]) {
      assert r[1..] == s;
    } else {
      InsertDescWithKey(x, s[1..], key, c);
      assert r[1..] == InsertDesc(x, s[1..], key);
    }
  }

  /** The sort is non-increasing, a permutation, and keeps elements with equal keys in
      their input order. */
  lemma {:induction false} SortDescProperties<T>(s: seq<T>, key: T -> int)
    ensures NonIncreasing(SortDesc(s, key), key)
    ensures multiset(SortDesc(s, key)) == multiset(s)
    ensures forall c :: WithKey(SortDesc(s, key), key, c) == WithKey(s, key, c)
  {
    if s != [] {
      SortDescProperties(s[1..], key);
      var t := SortDesc(s[1..], key);
      InsertDescSorted(s[0], t, key);
      InsertDescPermutes(s[0], t, key);
      forall c ensures WithKey(SortDesc(s, key), key, c) == WithKey(s, key, c) {
        InsertDescWithKey(s[0], t, key, c);
      }
      assert s == [s[0]] + s[1..];
    }
  }

  // ------------------------------------------------------------ split_message

  /** `message.rfind("\n", 0, limit)`. */
  function LastNewlineBefore(s: string, limit: nat): (r: int)
    requires limit <= |s|
    ensures -1 <= r < limit
    ensures r >= 0 ==> s[r] == '\n' && forall k :: r < k < limit ==> s[k] != '\n'
    ensures r == -1 ==> forall k :: 0 <= k < limit ==> s[k] != '\n'
  {
    if limit == 0 then -1 else if s[limit - 1] == '\n' then limit - 1 else LastNewlineBefore(s, limit - 1)
  }

  /** Where `split_message` cuts a message longer than `limit`. */
  function CutPosition(message: string, limit: nat): nat
    requires limit < |message|
  {
    var p := LastNewlineBefore(message, limit);
    if p == -1 then limit else p
  }

  /** `split_message(message, limit)`. */
  function SplitMessage(message: string, limit: nat): seq<string>
    requires limit >= 1
    decreases |message|
  {
    if |message| <= limit then [message]
    else
      var pos := CutPosition(message, limit);
      [message[..pos]] + SplitMessage(Text.LStrip(message[pos..]), limit)
  }

  function Concat(parts: seq<string>): string {
    if parts == [] then [] else parts[0] + Concat(parts[1..])
  }

  /** The characters of `s` that are not whitespace, in order. */
  function Visible(s: string): string {
    if s == [] then [] else (if Text.IsSpace(s[0]) then [] else [s[0]]) + Visible(s[1..])
  }

  lemma {:induction false} VisibleAppend(a: string, b: string)
    ensures Visible(a + b) == Visible(a) + Visible(b)
  {
    if a == [] {
      assert a + b == b;
    } else {
      var head := if Text.IsSpace(a[0]) then [] else [a[0]];
      assert (a + b)[0] == a[0];
      assert (a + b)[1..] == a[1..] + b;
      assert Visible(a + b) == head + Visible(a[1..] + b);
      VisibleAppend(a[1..], b);
      assert Visible(a) == head + Visible(a[1..]);
      assert head + (Visible(a[1..]) + Visible(b)) == (head + Visible(a[1..])) + Visible(b);
    }
  }

  lemma {:induction false} VisibleLStrip(s: string)
    ensures Visible(Text.LStrip(s)) == Visible(s)
  {
    if s != [] && Text.IsSpace(s[0]) {
      VisibleLStrip(s[1..]);
    }
  }

  /** Every chunk fits the limit. */
  lemma {:induction false} SplitMessageFits(message: string, limit: nat)
    requires limit >= 1
    decreases |message|
    ensures forall i :: 0 <= i < |SplitMessage(message, limit)| ==> |SplitMessage(message, limit)[i]| <= limit
  {
    if |message| > limit {
      var rest := Text.LStrip(message[CutPosition(message, limit)..]);
      SplitMessageFits(rest, limit);
      assert SplitMessage(message, limit)[1..] == SplitMessage(rest, limit);
    }
  }

  /** Cutting at `pos` and stripping the rest's leading whitespace keeps the visible text. */
  lemma VisibleCut(message: string, pos: nat, tail: string)
    requires pos <= |message| && Visible(tail) == Visible(Text.LStrip(message[pos..]))
    ensures Visible(message[..pos] + tail) == Visible(message)
  {
    VisibleAppend(message[..pos], tail);
    VisibleLStrip(message[pos..]);
    VisibleAppend(message[..pos], message[pos..]);
    assert message[..pos] + message[pos..] == message;
  }

  /** The chunks together hold all of the message's visible characters in order:
      only whitespace at the cuts is dropped. */
  lemma {:induction false} SplitMessageKeepsText(message: string, limit: nat)
    requires limit >= 1
    decreases |message|
    ensures Visible(Concat(SplitMessage(message, limit))) == Visible(message)
  {
    if |message| > limit {
      var pos := CutPosition(message, limit);
      var rest := Text.LStrip(message[pos..]);
      var tail := Concat(SplitMessage(rest, limit));
      assert Concat(SplitMessage(message, limit)) == message[..pos] + tail by {
        var r := SplitMessage(message, limit);
        assert r == [message[..pos]] + SplitMessage(rest, limit);
        assert r[1..] == SplitMessage(rest, limit);
      }
      SplitMessageKeepsText(rest, limit);
      VisibleCut(message, pos, tail);
    } else {
      var r := SplitMessage(message, limit);
      assert r == [message];
      assert r[1..] == [];
      assert Concat(r) == message + Concat([]);
      assert message + [] == message;
    }
  }

  /** A message that fits is one chunk; a longer one is cut at its last newline before
      `limit`, or at `limit` when there is none, and the rest loses its leading whitespace. */
  lemma SplitMessageCut(message: string, limit: nat)
    requires limit >= 1
    ensures |message| <= limit ==> SplitMessage(message, limit) == [message]
    ensures |message| > limit ==>
      var c := SplitMessage(message, limit)[0];
      c <= message
      && ((|c| < limit && message[|c|] == '\n' && forall k :: |c| < k < limit ==> message[k] != '\n')
          || (|c| == limit && forall k :: 0 <= k < limit ==> message[k] != '\n'))
      && SplitMessage(message, limit)[1..] == SplitMessage(Text.LStrip(message[|c|..]), limit)
  {
    if |message| > limit {
      var pos := CutPosition(message, limit);
      SplitMessageStep(message, limit);
      var r := SplitMessage(message, limit);
      assert r[0] == message[..pos] && |r[0]| == pos;
      assert r[1..] == SplitMessage(Text.LStrip(message[pos..]), limit);
      CutPositionMeaning(message, limit);
    }
  }

  lemma CutPositionMeaning(message: string, limit: nat)
    requires limit < |message|
    ensures var pos := CutPosition(message, limit);
            (pos < limit && message[pos] == '\n' && forall k :: pos < k < limit ==> message[k] != '\n')
            || (pos == limit && forall k :: 0 <= k < limit ==> message[k] != '\n')
  {
  }

  /** `split_message` as written: a loop that cuts chunks off the front. */
  method SplitMessageLoop(message: string, limit: nat) returns (chunks: seq<string>)
    requires limit >= 1
    ensures chunks == SplitMessage(message, limit)
  {
    chunks := [];
    var rest := message;
    while |rest| > limit
      invariant chunks + SplitMessage(rest, limit) == SplitMessage(message, limit)
      decreases |rest|
    {
      var splitPos := LastNewlineBefore(rest, limit);
      if splitPos == -1 {
        splitPos := limit;
      }
      SplitMessageStep(rest, limit);
      ghost var old_chunks := chunks;
      chunks := chunks + [rest[..splitPos]];
      ghost var old_rest := rest;
      rest := Text.LStrip(rest[splitPos..]);
      assert old_chunks + SplitMessage(old_rest, limit) == chunks + SplitMessage(rest, limit);
    }
    chunks := chunks + [rest];
  }

  /** One turn of the loop: the first chunk, then the split of the rest. */
  lemma SplitMessageStep(message: string, limit: nat)
    requires limit >= 1 && |message| > limit
    ensures var pos := CutPosition(message, limit);
            SplitMessage(message, limit) == [message[..pos]] + SplitMessage(Text.LStrip(message[pos..]), limit)
  {
  }

  // ------------------------------------------------------------ create_leaderboard_by_month

  /** One `(user_handle, contributions, days_since_first_contribution)` tuple. */
  datatype Standing = Standing(userHandle: string, contributions: int, daysSinceFirst: int)

  function Contributions(s: Standing): int {
    s.contributions
  }

  /** A row of the returned list: the header row, then `[rank, user_handle,
      contributions, days_since_first_contribution]`. */
  datatype Row = Header | Ranked(rank: int, userHandle: string, contributions: int, daysSinceFirst: int)

  const HeaderCells: seq<string> := ["Rank", "User Handle", "Contributions", "Days Since First Contribution"]

  /** `(datetime(next_year, next_month, 1) - timedelta(days=1)).day`, with the
      December rollover to January of the next year. */
  function LastDayOfMonth(year: int, month: int): Result<int> {
    var (nextYear, nextMonth) := if month == 12 then (year + 1, 1) else (year, month + 1);
    var first :- Calendar.MakeDate(nextYear, nextMonth, 1);
    var last := Calendar.PrevDay(first);
    if last.year < Calendar.MinYear then Err(OverflowError("date value out of range")) else Ok(last.day)
  }

  /** For a real month the result is its number of days, the day before the first of
      the next month; December 9999 fails, as does any month outside 0..12. */
  lemma LastDayOfMonthMeaning(year: int, month: int)
    ensures LastDayOfMonth(year, month).Ok? <==>
      (1 <= month <= 11 && Calendar.MinYear <= year <= Calendar.MaxYear)
      || (month == 12 && Calendar.MinYear <= year < Calendar.MaxYear)
      || (month == 0 && Calendar.MinYear < year <= Calendar.MaxYear)
    ensures 1 <= month <= 12 && LastDayOfMonth(year, month).Ok? ==>
      var d := Calendar.Date(year, month, LastDayOfMonth(year, month).value);
      LastDayOfMonth(year, month).value == Calendar.DaysInMonth(year, month)
      && Calendar.ValidDate(d)
      && Calendar.NextDay(d) == (if month == 12 then Calendar.Date(year + 1, 1, 1) else Calendar.Date(year, month + 1, 1))
  {
  }

  /** The month being ranked and the fixed inputs of the loop over users. */
  datatype Window = Window(target: string, year: int, month: int, lastDay: int, now: Calendar.DateTime, commitFilter: int)

  /** The user's qualified dates that start with the month key. */
  function MonthDatesOf(dates: set<string>, target: string): set<string> {
    set d | d in dates && Text.StartsWith(d, target)
  }

  /** `min([...], default=None)` over the in-month dates. */
  function FirstDate(dates: set<string>, target: string): Option<string> {
    var inMonth := Text.SortedElements(MonthDatesOf(dates, target));
    if inMonth == [] then None else Some(Text.Min(inMonth))
  }

  /** `min(a, b)` of naive datetimes. */
  function Earlier(a: Calendar.DateTime, b: Calendar.DateTime): Calendar.DateTime
    requires Calendar.ValidDate(a.date) && Calendar.ValidDate(b.date)
  {
    if Calendar.DateTimeLessEq(a, b) then a else b
  }

  /** The loop body for one item of `data.items()`: the user's tuple, or none when
      they do not qualify. */
  function UserStanding(handle: string, contributions: map<string, int>, qualifiedDates: map<string, set<string>>, w: Window): Result<Option<Standing>>
    requires Calendar.ValidDateTime(w.now)
  {
    if w.target !in contributions then Ok(None)
    else if handle !in qualifiedDates then Err(KeyError(handle))
    else
      var firstDateStr := FirstDate(qualifiedDates[handle], w.target);
      if firstDateStr.None? || firstDateStr.value == "" then Ok(None)
      else
        var firstDate :- Calendar.ParseYmd(firstDateStr.value);
        var lastDate :- Calendar.MakeDate(w.year, w.month, w.lastDay);
        var days :=
          if Calendar.DateTimeLessEq(Calendar.Midnight(lastDate), w.now)
          then Calendar.DaysBetween(Calendar.Midnight(lastDate), Calendar.Midnight(firstDate)) + 1
          else Calendar.DaysBetween(w.now, Calendar.Midnight(firstDate)) + 1;
        if contributions[w.target] >= w.commitFilter then Ok(Some(Standing(handle, contributions[w.target], days)))
        else Ok(None)
  }

  /** The first date is the least in-month date, present exactly when there is one,
      and never empty. */
  lemma FirstDateMeaning(dates: set<string>, target: string)
    requires target != ""
    ensures FirstDate(dates, target).Some? <==> MonthDatesOf(dates, target) != {}
    ensures FirstDate(dates, target).Some? ==>
      FirstDate(dates, target).value != "" && Text.IsLeast(FirstDate(dates, target).value, MonthDatesOf(dates, target))
  {
    var m := MonthDatesOf(dates, target);
    if m != {} {
      var y :| y in m;
      assert y in Text.SortedElements(m);
      var first := FirstDate(dates, target).value;
      assert first in m;
      Text.StartsWithIsPrefix(first, target);
    }
  }

  /** A user is ranked exactly when they have the month key, an in-month qualified
      date and at least `commit_filter` contributions; the days are counted from the
      earliest in-month date up to the earlier of now and the month's last day. */
  lemma UserStandingMeaning(handle: string, contributions: map<string, int>, qualifiedDates: map<string, set<string>>, w: Window)
    requires Calendar.ValidDateTime(w.now) && w.target != ""
    requires UserStanding(handle, contributions, qualifiedDates, w).Ok?
    ensures UserStanding(handle, contributions, qualifiedDates, w).value.Some? <==>
      w.target in contributions && handle in qualifiedDates && MonthDatesOf(qualifiedDates[handle], w.target) != {}
      && contributions[w.target] >= w.commitFilter
    ensures UserStanding(handle, contributions, qualifiedDates, w).value.Some? ==>
      var s := UserStanding(handle, contributions, qualifiedDates, w).value.value;
      var first := FirstDate(qualifiedDates[handle], w.target).value;
      s.userHandle == handle && s.contributions == contributions[w.target]
      && Text.IsLeast(first, MonthDatesOf(qualifiedDates[handle], w.target))
      && Calendar.ParseYmd(first).Ok? && Calendar.MakeDate(w.year, w.month, w.lastDay).Ok?
      && var last := Calendar.Midnight(Calendar.Date(w.year, w.month, w.lastDay));
      s.daysSinceFirst == Calendar.DaysBetween(Earlier(w.now, last), Calendar.Midnight(Calendar.ParseYmd(first).value)) + 1
  {
    if w.target in contributions && handle in qualifiedDates {
      var m := MonthDatesOf(qualifiedDates[handle], w.target);
      FirstDateMeaning(qualifiedDates[handle], w.target);
    }
  }

  /** One item of `data.items()`: a handle and its monthly counts. */
  type Item = (string, map<string, int>)

  /** The loop body for one item. */
  type ItemStanding = Item -> Result<Option<Standing>>

  /** `UserStanding` for fixed dates and window, as a function of one item of `data.items()`. */
  function StandingFor(qualifiedDates: map<string, set<string>>, w: Window): ItemStanding
    requires Calendar.ValidDateTime(w.now)
  {
    (item: Item) => UserStanding(item.0, item.1, qualifiedDates, w)
  }

  /** The `leaderboard` list after the given items of `data.items()`, in that order,
      where `standing` is the loop body for one item. */
  function Standings(data: seq<Item>, standing: ItemStanding): Result<seq<Standing>> {
    if data == [] then Ok([])
    else
      var prev :- Standings(data[..|data| - 1], standing);
      var s :- standing(data[|data| - 1]);
      Ok(if s.Some? then prev + [s.value] else prev)
  }

  /** Once the items before position `k` raise, so does the whole loop. */
  lemma {:induction false} StandingsStopAtError(data: seq<Item>, standing: ItemStanding, k: nat)
    requires k <= |data| && Standings(data[..k], standing).Err?
    decreases |data| - k
    ensures Standings(data, standing) == Standings(data[..k], standing)
  {
    if k < |data| {
      assert data[..k + 1][..k] == data[..k];
      StandingsStopAtError(data, standing, k + 1);
    } else {
      assert data[..k] == data;
    }
  }

  /** Item `k` of `data` yields a tuple. */
  predicate Qualifies(data: seq<Item>, standing: ItemStanding, k: int) {
    0 <= k < |data| && standing(data[k]).Ok? && standing(data[k]).value.Some?
  }

  /** The tuples are those of the qualifying items: every tuple comes from an item and
      every qualifying item gives its tuple. */
  lemma {:induction false} StandingsMembers(data: seq<Item>, standing: ItemStanding)
    requires Standings(data, standing).Ok?
    decreases |data|
    ensures forall k :: 0 <= k < |data| ==> standing(data[k]).Ok?
    ensures forall s :: s in Standings(data, standing).value <==>
      exists k :: Qualifies(data, standing, k) && standing(data[k]).value == Some(s)
  {
    if data != [] {
      var n := |data| - 1;
      var p := data[..n];
      StandingsMembers(p, standing);
      assert forall k :: 0 <= k < n ==> data[k] == p[k];
      forall s ensures s in Standings(data, standing).value <==>
        exists k :: Qualifies(data, standing, k) && standing(data[k]).value == Some(s)
      {
        if s in Standings(p, standing).value {
          var k :| Qualifies(p, standing, k) && standing(p[k]).value == Some(s);
          assert Qualifies(data, standing, k);
        }
        if exists k :: Qualifies(data, standing, k) && standing(data[k]).value == Some(s) {
          var k :| Qualifies(data, standing, k) && standing(data[k]).value == Some(s);
          if k < n {
            assert Qualifies(p, standing, k);
          }
        }
      }
    }
  }

  /** The tuples keep the order of the items they come from. */
  lemma {:induction false} StandingsInOrder(data: seq<Item>, standing: ItemStanding, k: nat)
    requires Standings(data, standing).Ok? && k <= |data|
    decreases |data| - k
    ensures Standings(data[..k], standing).Ok? && Standings(data[..k], standing).value <= Standings(data, standing).value
  {
    if k < |data| {
      StandingsInOrder(data, standing, k + 1);
      assert data[..k + 1][..k] == data[..k];
    } else {
      assert data[..k] == data;
    }
  }

  /** The loop over `data.items()`. */
  method CollectStandings(data: seq<Item>, standing: ItemStanding) returns (r: Result<seq<Standing>>)
    ensures r == Standings(data, standing)
  {
    var leaderboard: seq<Standing> := [];
    for k := 0 to |data|
      invariant Standings(data[..k], standing) == Ok(leaderboard)
    {
      assert data[..k + 1][..k] == data[..k];
      var s := standing(data[k]);
      if s.Err? {
        StandingsStopAtError(data, standing, k + 1);
        return Err(s.error);
      }
      if s.value.Some? {
        leaderboard := leaderboard + [s.value.value];
      }
    }
    assert data[..|data|] == data;
    r := Ok(leaderboard);
  }

  /** The ranked rows `[rank, ...]` for the sorted tuples, ranks counted from 1. */
  function RankedRows(s: seq<Standing>): (r: seq<Row>)
    ensures |r| == |s|
  {
    if s == [] then []
    else
      var t := s[|s| - 1];
      RankedRows(s[..|s| - 1]) + [Ranked(|s|, t.userHandle, t.contributions, t.daysSinceFirst)]
  }

  lemma {:induction false} RankedRowsAt(s: seq<Standing>, i: nat)
    requires i < |s|
    decreases |s|
    ensures RankedRows(s)[i] == Ranked(i + 1, s[i].userHandle, s[i].contributions, s[i].daysSinceFirst)
  {
    if i < |s| - 1 {
      RankedRowsAt(s[..|s| - 1], i);
    }
  }

  /** The month key, the parsed year and month and the month's last day: the part of
      `create_leaderboard_by_month` before the loop. */
  function LeaderboardWindow(year: string, month: string, commitFilter: int, now: Calendar.DateTime): Result<Window> {
    var targetDate := MongoStore.MonthKey(year, month);
    var m :- Text.ParseInt(month);
    var y :- Text.ParseInt(year);
    var lastDay :- LastDayOfMonth(y, m);
    Ok(Window(targetDate, y, m, lastDay, now, commitFilter))
  }

  /** `create_leaderboard_by_month(year, month, commit_filter)` over the given
      `data` (handle to monthly counts, in dict order) and `qualified_dates`, at time `now`. */
  function LeaderboardOf(year: string, month: string, commitFilter: int, data: seq<Item>,
                         qualifiedDates: map<string, set<string>>, now: Calendar.DateTime): Result<seq<Row>>
    requires Calendar.ValidDateTime(now)
  {
    var w :- LeaderboardWindow(year, month, commitFilter, now);
    var standings :- Standings(data, StandingFor(qualifiedDates, w));
    Ok([Header] + RankedRows(SortDesc(standings, Contributions)))
  }

  /** The `enumerate(leaderboard, start=1)` loop. */
  method NumberRows(sorted: seq<Standing>) returns (formatted: seq<Row>)
    ensures formatted == [Header] + RankedRows(sorted)
  {
    formatted := [Header];
    for i := 0 to |sorted|
      invariant formatted == [Header] + RankedRows(sorted[..i])
    {
      assert sorted[..i + 1][..i] == sorted[..i];
      formatted := formatted + [Ranked(i + 1, sorted[i].userHandle, sorted[i].contributions, sorted[i].daysSinceFirst)];
    }
    assert sorted[..|sorted|] == sorted;
  }

  /** `create_leaderboard_by_month`: collects the tuples in a loop, sorts them by
      contributions (stable, descending) and numbers them from 1 under the header. */
  method CreateLeaderboardByMonth(year: string, month: string, commitFilter: int, data: seq<Item>,
                                  qualifiedDates: map<string, set<string>>, now: Calendar.DateTime) returns (r: Result<seq<Row>>)
    requires Calendar.ValidDateTime(now)
    ensures r == LeaderboardOf(year, month, commitFilter, data, qualifiedDates, now)
  {
    var w :- LeaderboardWindow(year, month, commitFilter, now);
    var leaderboard :- CollectStandings(data, StandingFor(qualifiedDates, w));
    var formatted := NumberRows(SortDesc(leaderboard, Contributions));
    r := Ok(formatted);
  }

  /** The tuple a ranked row shows. */
  function StandingOf(row: Row): Standing
    requires row.Ranked?
  {
    Standing(row.userHandle, row.contributions, row.daysSinceFirst)
  }

  /** Numbered rows of tuples sorted by contributions: the header, then ranks 1, 2, ...
      with non-increasing contributions. */
  lemma NumberedRowsShape(sorted: seq<Standing>)
    requires NonIncreasing(sorted, Contributions)
    ensures var rows := [Header] + RankedRows(sorted);
      (forall i :: 1 <= i < |rows| ==> rows[i] == Ranked(i, sorted[i - 1].userHandle, sorted[i - 1].contributions, sorted[i - 1].daysSinceFirst))
      && (forall i, j :: 1 <= i < j < |rows| ==> rows[j].contributions <= rows[i].contributions)
  {
    var rows := [Header] + RankedRows(sorted);
    forall i | 1 <= i < |rows| ensures rows[i] == Ranked(i, sorted[i - 1].userHandle, sorted[i - 1].contributions, sorted[i - 1].daysSinceFirst) {
      RankedRowsAt(sorted, i - 1);
    }
    assert forall i :: 0 <= i < |sorted| ==> Contributions(sorted[i]) == sorted[i].contributions;
  }

  /** The ranking of a list of tuples: the header, then the tuples ranked 1, 2, ... in
      order of non-increasing contributions, each tuple once, equal counts keeping
      their order in the list. */
  ghost predicate IsRanking(rows: seq<Row>, st: seq<Standing>) {
    |rows| == |st| + 1 && rows[0] == Header
    && (forall i :: 1 <= i < |rows| ==> rows[i].Ranked? && rows[i].rank == i)
    && (forall i, j :: 1 <= i < j < |rows| ==> rows[j].contributions <= rows[i].contributions)
    && exists sorted: seq<Standing> ::
         rows == [Header] + RankedRows(sorted) && multiset(sorted) == multiset(st)
         && forall c :: WithKey(sorted, Contributions, c) == WithKey(st, Contributions, c)
  }

  lemma RankingOfSorted(st: seq<Standing>)
    ensures IsRanking([Header] + RankedRows(SortDesc(st, Contributions)), st)
  {
    var sorted := SortDesc(st, Contributions);
    SortDescProperties(st, Contributions);
    NumberedRowsShape(sorted);
    assert |sorted| == |st| by {
      assert |multiset(sorted)| == |multiset(st)|;
    }
  }

  /** The leaderboard ranks the tuples the loop collected. */
  lemma LeaderboardShape(year: string, month: string, commitFilter: int, data: seq<Item>,
                         qualifiedDates: map<string, set<string>>, now: Calendar.DateTime)
    requires Calendar.ValidDateTime(now)
    requires LeaderboardOf(year, month, commitFilter, data, qualifiedDates, now).Ok?
    ensures LeaderboardWindow(year, month, commitFilter, now).Ok?
    ensures var st := Standings(data, StandingFor(qualifiedDates, LeaderboardWindow(year, month, commitFilter, now).value));
      st.Ok? && IsRanking(LeaderboardOf(year, month, commitFilter, data, qualifiedDates, now).value, st.value)
  {
    var w := LeaderboardWindow(year, month, commitFilter, now).value;
    RankingOfSorted(Standings(data, StandingFor(qualifiedDates, w)).value);
  }

  /** A ranking shows exactly the tuples of its list. */
  lemma RankingMembers(rows: seq<Row>, st: seq<Standing>, s: Standing)
    requires IsRanking(rows, st)
    ensures (exists i :: 1 <= i < |rows| && rows[i].Ranked? && StandingOf(rows[i]) == s) <==> s in st
  {
    var sorted :| rows == [Header] + RankedRows(sorted) && multiset(sorted) == multiset(st)
                  && forall c :: WithKey(sorted, Contributions, c) == WithKey(st, Contributions, c);
    assert s in sorted <==> s in multiset(st);
    if s in sorted {
      var j :| 0 <= j < |sorted| && sorted[j] == s;
      RankedRowsAt(sorted, j);
      assert rows[j + 1] == RankedRows(sorted)[j];
    }
    if exists i :: 1 <= i < |rows| && rows[i].Ranked? && StandingOf(rows[i]) == s {
      var i :| 1 <= i < |rows| && rows[i].Ranked? && StandingOf(rows[i]) == s;
      RankedRowsAt(sorted, i - 1);
      assert rows[i] == RankedRows(sorted)[i - 1];
    }
  }

  /** Item `k` is user `h` with the month key, an in-month qualified date and at least
      `commit_filter` contributions in the month. */
  predicate QualifyingUser(data: seq<Item>, qualifiedDates: map<string, set<string>>, w: Window, h: string, k: int) {
    0 <= k < |data| && data[k].0 == h && w.target in data[k].1 && h in qualifiedDates
    && MonthDatesOf(qualifiedDates[h], w.target) != {} && data[k].1[w.target] >= w.commitFilter
  }

  /** An item yields a tuple exactly when its user qualifies, and the tuple carries
      the user's handle and contributions. */
  lemma QualifiesMeaning(data: seq<Item>, qualifiedDates: map<string, set<string>>, w: Window)
    requires Calendar.ValidDateTime(w.now) && w.target != ""
    requires forall k | 0 <= k < |data| :: StandingFor(qualifiedDates, w)(data[k]).Ok?
    ensures forall k | 0 <= k < |data| ::
      Qualifies(data, StandingFor(qualifiedDates, w), k) <==> QualifyingUser(data, qualifiedDates, w, data[k].0, k)
    ensures forall k | 0 <= k < |data| :: Qualifies(data, StandingFor(qualifiedDates, w), k) ==>
      StandingFor(qualifiedDates, w)(data[k]).value.value.userHandle == data[k].0
      && StandingFor(qualifiedDates, w)(data[k]).value.value.contributions == data[k].1[w.target]
  {
    var f := StandingFor(qualifiedDates, w);
    forall k | 0 <= k < |data|
      ensures Qualifies(data, f, k) <==> QualifyingUser(data, qualifiedDates, w, data[k].0, k)
      ensures Qualifies(data, f, k) ==>
        f(data[k]).value.value.userHandle == data[k].0 && f(data[k]).value.value.contributions == data[k].1[w.target]
    {
      assert f(data[k]) == UserStanding(data[k].0, data[k].1, qualifiedDates, w);
      UserStandingMeaning(data[k].0, data[k].1, qualifiedDates, w);
    }
  }

  /** A user is on the leaderboard exactly when they qualify for the month, and then
      with their contributions in that month. */
  lemma LeaderboardMembers(year: string, month: string, commitFilter: int, data: seq<Item>,
                           qualifiedDates: map<string, set<string>>, now: Calendar.DateTime, h: string)
    requires Calendar.ValidDateTime(now)
    requires LeaderboardOf(year, month, commitFilter, data, qualifiedDates, now).Ok?
    ensures LeaderboardWindow(year, month, commitFilter, now).Ok?
    ensures var rows := LeaderboardOf(year, month, commitFilter, data, qualifiedDates, now).value;
      var w := LeaderboardWindow(year, month, commitFilter, now).value;
      (exists i :: 1 <= i < |rows| && rows[i].Ranked? && rows[i].userHandle == h) <==> exists k :: QualifyingUser(data, qualifiedDates, w, h, k)
    ensures var rows := LeaderboardOf(year, month, commitFilter, data, qualifiedDates, now).value;
      var w := LeaderboardWindow(year, month, commitFilter, now).value;
      forall i :: 1 <= i < |rows| && rows[i].Ranked? && rows[i].userHandle == h ==>
        exists k :: QualifyingUser(data, qualifiedDates, w, h, k) && rows[i].contributions == data[k].1[w.target]
  {
    var rows := LeaderboardOf(year, month, commitFilter, data, qualifiedDates, now).value;
    var w := LeaderboardWindow(year, month, commitFilter, now).value;
    var f := StandingFor(qualifiedDates, w);
    LeaderboardShape(year, month, commitFilter, data, qualifiedDates, now);
    var st := Standings(data, f).value;
    StandingsMembers(data, f);
    assert w.target != "";
    QualifiesMeaning(data, qualifiedDates, w);
    forall i | 1 <= i < |rows| && rows[i].Ranked? && rows[i].userHandle == h
      ensures exists k :: QualifyingUser(data, qualifiedDates, w, h, k) && rows[i].contributions == data[k].1[w.target]
    {
      RankingMembers(rows, st, StandingOf(rows[i]));
      var k :| Qualifies(data, f, k) && f(data[k]).value == Some(StandingOf(rows[i]));
      assert QualifyingUser(data, qualifiedDates, w, h, k);
    }
    if exists k :: QualifyingUser(data, qualifiedDates, w, h, k) {
      var k :| QualifyingUser(data, qualifiedDates, w, h, k);
      assert Qualifies(data, f, k);
      var s := f(data[k]).value.value;
      RankingMembers(rows, st, s);
    }
  }

  // ------------------------------------------------------------ chat messages

  const Trophies: seq<string> := ["\U{1F947}", "\U{1F948}", "\U{1F949}"]

  /** Discord's message length limit, `split_message`'s default. */
  const MessageLimit := 2000

  /** `rank_str`: `trophy_emojis[rank - 1]` for ranks up to 3 (a negative position
      counts from the end, as in Python), `f"{rank}. "` above. */
  function RankText(rank: int): Result<string> {
    if rank <= |Trophies| then
      var i := rank - 1;
      if i >= 0 then Ok(Trophies[i])
      else if i >= -|Trophies| then Ok(Trophies[i + |Trophies|])
      else Err(IndexError)
    else Ok(Text.IntToString(rank) + ". ")
  }

  /** Ranks 1 to 3 get the three medals; a higher rank is written in decimal followed by
      `". "`; only ranks below -2 raise. */
  lemma RankTextMeaning(rank: int)
    ensures RankText(rank).Ok? <==> rank >= -2
    ensures 1 <= rank <= 3 ==> RankText(rank) == Ok(Trophies[rank - 1])
    ensures rank > 3 ==>
      var t := RankText(rank).value;
      |t| >= 3 && t[|t| - 2..] == ". " && Text.AllDigits(t[..|t| - 2]) && Text.DigitsValue(t[..|t| - 2]) == rank
  {
    if rank > 3 {
      var d := Text.NatToString(rank);
      var t := d + ". ";
      assert t[..|t| - 2] == d;
      Text.DigitsValueOfNatToString(rank);
    }
  }

  /** `get_discord_user_id(user_handle)`: the Discord id stored for a handle, if any. */
  type IdLookup = string -> Option<string>

  /** `<@id>` when the handle has an id, else the handle itself. */
  function Mention(handle: string, discordId: Option<string>): string {
    if discordId.Some? && discordId.value != "" then "<@" + discordId.value + ">" else handle
  }

  /** The first line of the leaderboard message: the requested date for a month
      closure, else today as `strftime("%B %d, %Y")`. */
  function LeaderboardTitle(reqDate: Option<string>, isMonthClosure: bool, today: Calendar.Date): string
    requires Calendar.ValidDate(today)
  {
    var shown := if isMonthClosure && reqDate.Some? && reqDate.value != "" then reqDate.value else Calendar.FormatLong(today);
    "\U{1F3C6} **Leaderboard | " + shown + "** \U{1F3C6}\n\n"
  }

  /** The message line for one entry of `leaderboard[1:]`; the header row's "Rank"
      cannot be compared with 3. */
  function LeaderboardLine(row: Row, lookup: IdLookup): Result<string> {
    match row
    case Header => Err(TypeError("'<=' not supported between instances of 'str' and 'int'"))
    case Ranked(rank, handle, contributions, days) =>
      var rankStr :- RankText(rank);
      Ok(rankStr + " **" + Mention(handle, lookup(handle)) + "** **|** " + Text.IntToString(contributions)
         + " days of contributions **|** \U{1F5D3}\U{FE0F} in the last " + Text.IntToString(days) + " days\n")
  }

  /** A line exists exactly for a ranked row with a rank of at least -2. */
  lemma LeaderboardLineOk(row: Row, lookup: IdLookup)
    ensures LeaderboardLine(row, lookup).Ok? <==> row.Ranked? && row.rank >= -2
  {
    if row.Ranked? {
      RankTextMeaning(row.rank);
    }
  }

  /** `LeaderboardLine` with a fixed id lookup, as a function of the row. */
  function LineFor(lookup: IdLookup): Row -> Result<string> {
    (row: Row) => LeaderboardLine(row, lookup)
  }

  /** The lines of the given entries, in order, where `line` renders one entry. */
  function Lines<T>(rows: seq<T>, line: T -> Result<string>): Result<string> {
    if rows == [] then Ok("")
    else
      var prev :- Lines(rows[..|rows| - 1], line);
      var l :- line(rows[|rows| - 1]);
      Ok(prev + l)
  }

  /** The lines exist exactly when every entry has one. */
  lemma {:induction false} LinesOk<T>(rows: seq<T>, line: T -> Result<string>)
    decreases |rows|
    ensures Lines(rows, line).Ok? <==> forall i :: 0 <= i < |rows| ==> line(rows[i]).Ok?
  {
    if rows != [] {
      var p := rows[..|rows| - 1];
      LinesOk(p, line);
      assert forall i :: 0 <= i < |p| ==> rows[i] == p[i];
    }
  }

  /** `format_leaderboard_for_discord(leaderboard, req_date, is_month_closure)` on day `today`. */
  function FormatLeaderboardOf(leaderboard: seq<Row>, reqDate: Option<string>, isMonthClosure: bool,
                               today: Calendar.Date, lookup: IdLookup): Result<seq<string>>
    requires Calendar.ValidDate(today)
  {
    var lines :- Lines(if leaderboard == [] then [] else leaderboard[1..], LineFor(lookup));
    Ok(SplitMessage(LeaderboardTitle(reqDate, isMonthClosure, today) + lines, MessageLimit))
  }

  /** The message exists exactly when every entry after the first is a ranked row with
      a rank of at least -2. */
  lemma FormatLeaderboardOk(leaderboard: seq<Row>, reqDate: Option<string>, isMonthClosure: bool,
                            today: Calendar.Date, lookup: IdLookup)
    requires Calendar.ValidDate(today)
    ensures FormatLeaderboardOf(leaderboard, reqDate, isMonthClosure, today, lookup).Ok? <==>
      forall i :: 1 <= i < |leaderboard| ==> leaderboard[i].Ranked? && leaderboard[i].rank >= -2
  {
    var entries := if leaderboard == [] then [] else leaderboard[1..];
    LinesOk(entries, LineFor(lookup));
    forall i | 0 <= i < |entries| ensures LineFor(lookup)(entries[i]).Ok? <==> entries[i].Ranked? && entries[i].rank >= -2 {
      LeaderboardLineOk(entries[i], lookup);
    }
    assert forall i :: 1 <= i < |leaderboard| ==> leaderboard[i] == entries[i - 1];
  }

  /** A leaderboard built by `create_leaderboard_by_month` always formats, into chunks
      that fit Discord's limit. */
  lemma FormatLeaderboardOfRanking(rows: seq<Row>, st: seq<Standing>, reqDate: Option<string>, isMonthClosure: bool,
                                   today: Calendar.Date, lookup: IdLookup)
    requires Calendar.ValidDate(today) && IsRanking(rows, st)
    ensures FormatLeaderboardOf(rows, reqDate, isMonthClosure, today, lookup).Ok?
    ensures forall c :: c in FormatLeaderboardOf(rows, reqDate, isMonthClosure, today, lookup).value ==> |c| <= MessageLimit
  {
    FormatLeaderboardOk(rows, reqDate, isMonthClosure, today, lookup);
    var lines := Lines(rows[1..], LineFor(lookup)).value;
    SplitMessageFits(LeaderboardTitle(reqDate, isMonthClosure, today) + lines, MessageLimit);
  }

  /** The loop that appends one line per entry to the message. */
  method AppendLines<T>(message: string, rows: seq<T>, line: T -> Result<string>) returns (r: Result<string>)
    ensures Lines(rows, line).Ok? ==> r == Ok(message + Lines(rows, line).value)
    ensures Lines(rows, line).Err? ==> r == Err(Lines(rows, line).error)
  {
    var m := message;
    for k := 0 to |rows|
      invariant Lines(rows[..k], line).Ok?
      invariant m == message + Lines(rows[..k], line).value
    {
      assert rows[..k + 1][..k] == rows[..k];
      var l := line(rows[k]);
      if l.Err? {
        LinesStopAtError(rows, line, k + 1);
        return Err(l.error);
      }
      m := m + l.value;
    }
    assert rows[..|rows|] == rows;
    r := Ok(m);
  }

  /** `format_leaderboard_for_discord`: the title, one line per entry, then the split. */
  method FormatLeaderboardForDiscord(leaderboard: seq<Row>, reqDate: Option<string>, isMonthClosure: bool,
                                     today: Calendar.Date, lookup: IdLookup) returns (r: Result<seq<string>>)
    requires Calendar.ValidDate(today)
    ensures r == FormatLeaderboardOf(leaderboard, reqDate, isMonthClosure, today, lookup)
  {
    var entries := if leaderboard == [] then [] else leaderboard[1..];
    var leaderboardMessage :- AppendLines(LeaderboardTitle(reqDate, isMonthClosure, today), entries, LineFor(lookup));
    var chunks := SplitMessageLoop(leaderboardMessage, MessageLimit);
    r := Ok(chunks);
  }

  lemma {:induction false} LinesStopAtError<T>(rows: seq<T>, line: T -> Result<string>, k: nat)
    requires k <= |rows| && Lines(rows[..k], line).Err?
    decreases |rows| - k
    ensures Lines(rows, line) == Lines(rows[..k], line)
  {
    if k < |rows| {
      assert rows[..k + 1][..k] == rows[..k];
      LinesStopAtError(rows, line, k + 1);
    } else {
      assert rows[..k] == rows;
    }
  }

  /** One item of `streaks.items()`: a handle and its streak. */
  type StreakItem = (string, int)

  function StreakValue(item: StreakItem): int {
    item.1
  }

  /** An item of the sorted streaks together with its rank. */
  type RankedStreak = (int, StreakItem)

  /** `f"{streak} day{'s' if streak > 1 else ''} streak"` and the newline. */
  function StreakText(streak: int): string {
    Text.IntToString(streak) + " day" + (if streak > 1 then "s" else "") + " streak\n"
  }

  /** The message line for one ranked streak. */
  function StreakLine(entry: RankedStreak, lookup: IdLookup): Result<string> {
    var (rank, (handle, streak)) := entry;
    var rankStr :- RankText(rank);
    Ok(rankStr + " **" + Mention(handle, lookup(handle)) + "** **|** " + StreakText(streak))
  }

  function StreakLineFor(lookup: IdLookup): RankedStreak -> Result<string> {
    (entry: RankedStreak) => StreakLine(entry, lookup)
  }

  /** `enumerate(items)` with ranks from 1. */
  function Enumerate(items: seq<StreakItem>): (r: seq<RankedStreak>)
    ensures |r| == |items| && forall i :: 0 <= i < |items| ==> r[i] == (i + 1, items[i])
  {
    seq(|items|, i requires 0 <= i < |items| => (i + 1, items[i]))
  }

  /** `format_streaks_for_discord(streaks, month)`: the title, one line per user in order
      of non-increasing streak (ties in dict order), then the split. */
  function FormatStreaksOf(streaks: seq<StreakItem>, month: string, lookup: IdLookup): Result<seq<string>> {
    var title := "\U{1F3C6} **Monthly Streaks | " + month + "** \U{1F3C6}\n\n";
    var lines :- Lines(Enumerate(SortDesc(streaks, StreakValue)), StreakLineFor(lookup));
    Ok(SplitMessage(title + lines, MessageLimit))
  }

  /** The streak message never fails, and every chunk fits Discord's limit. */
  lemma FormatStreaksOk(streaks: seq<StreakItem>, month: string, lookup: IdLookup)
    ensures FormatStreaksOf(streaks, month, lookup).Ok?
    ensures forall c :: c in FormatStreaksOf(streaks, month, lookup).value ==> |c| <= MessageLimit
  {
    var e := Enumerate(SortDesc(streaks, StreakValue));
    forall i | 0 <= i < |e| ensures StreakLineFor(lookup)(e[i]).Ok? {
      RankTextMeaning(e[i].0);
    }
    LinesOk(e, StreakLineFor(lookup));
    var title := "\U{1F3C6} **Monthly Streaks | " + month + "** \U{1F3C6}\n\n";
    SplitMessageFits(title + Lines(e, StreakLineFor(lookup)).value, MessageLimit);
  }

  /** A streak of 1 (or less) is written with `day`, a longer one with `days`. */
  lemma StreakTextWording(streak: int)
    ensures streak <= 1 ==> StreakText(streak) == Text.IntToString(streak) + " day streak\n"
    ensures streak > 1 ==> StreakText(streak) == Text.IntToString(streak) + " days streak\n"
  {
    var n := Text.IntToString(streak);
    if streak > 1 {
      assert n + " day" + "s" + " streak\n" == n + " days streak\n";
    } else {
      assert n + " day" + "" + " streak\n" == n + " day streak\n";
    }
  }

  /** The line of a ranked streak never fails and ends in the streak's text. */
  lemma StreakLineWording(rank: int, handle: string, streak: int, lookup: IdLookup)
    requires rank >= 1
    ensures StreakLine((rank, (handle, streak)), lookup).Ok?
    ensures EndsWith(StreakLine((rank, (handle, streak)), lookup).value, StreakText(streak))
  {
    assert RankText(rank).Ok?;
    var h := RankText(rank).value + " **" + Mention(handle, lookup(handle)) + "** **|** ";
    assert StreakLine((rank, (handle, streak)), lookup) == Ok(h + StreakText(streak));
    EndsWithAppend(h, StreakText(streak));
  }

  lemma EndsWithAppend(h: string, t: string)
    ensures EndsWith(h + t, t)
  {
    assert (h + t)[|h|..] == t;
  }

  predicate EndsWith(s: string, suffix: string) {
    |suffix| <= |s| && s[|s| - |suffix|..] == suffix
  }

  /** `format_streaks_for_discord`. */
  method FormatStreaksForDiscord(streaks: seq<StreakItem>, month: string, lookup: IdLookup) returns (r: Result<seq<string>>)
    ensures r == FormatStreaksOf(streaks, month, lookup)
  {
    var streaksMessage := "\U{1F3C6} **Monthly Streaks | " + month + "** \U{1F3C6}\n\n";
    var sortedStreaks := SortDesc(streaks, StreakValue);
    var message :- AppendLines(streaksMessage, Enumerate(sortedStreaks), StreakLineFor(lookup));
    var chunks := SplitMessageLoop(message, MessageLimit);
    r := Ok(chunks);
  }
}
