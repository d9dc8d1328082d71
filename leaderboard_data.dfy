/** leader_bot/leaderboard_functions.py, the part that reads the store:
    `get_data_for_year_month`, `get_qualified_dates` and `create_leaderboard_by_month`
    over the answer of `fetch_db_get_users`. The dicts they build are held as their
    items in insertion order. */
module LeaderboardData {
  import opened Wrappers
  import Calendar
  import MongoStore
  import DbFunctions
  import opened Leaderboard

  /** `d[k] = v` on a dict held as its items in insertion order: an existing key
      keeps its place and takes the new value, a new key goes last. */
  function DictSet<V>(d: seq<(string, V)>, k: string, v: V): seq<(string, V)> {
    if d == [] then [(k, v)]
    else if d[0].0 == k then [(k, v)] + d[1..]
    else [d[0]] + DictSet(d[1..], k, v)
  }

  /** `d.get(k)` on a dict held as its items. */
  function DictGet<V>(d: seq<(string, V)>, k: string): Option<V> {
    if d == [] then None else if d[0].0 == k then Some(d[0].1) else DictGet(d[1..], k)
  }

  /** The keys of a dict held as its items. */
  function DictKeys<V>(d: seq<(string, V)>): set<string> {
    set i | 0 <= i < |d| :: d[i].0
  }

  /** No key occurs twice. */
  predicate DistinctKeys<V>(d: seq<(string, V)>) {
    forall i, j :: 0 <= i < j < |d| ==> d[i].0 != d[j].0
  }

  lemma DictKeysCons<V>(x: (string, V), t: seq<(string, V)>)
    ensures DictKeys([x] + t) == {x.0} + DictKeys(t)
  {
    var d := [x] + t;
    assert d[0] == x && x.0 in DictKeys(d);
    forall y | y in DictKeys(d) ensures y in {x.0} + DictKeys(t) {
      var i :| 0 <= i < |d| && d[i].0 == y;
      if i > 0 { assert t[i - 1] == d[i]; }
    }
    forall y | y in DictKeys(t) ensures y in DictKeys(d) {
      var i :| 0 <= i < |t| && t[i].0 == y;
      assert d[i + 1] == t[i];
    }
  }

  lemma DistinctCons<V>(x: (string, V), t: seq<(string, V)>)
    ensures DistinctKeys([x] + t) <==> x.0 !in DictKeys(t) && DistinctKeys(t)
  {
    var d := [x] + t;
    if DistinctKeys(d) {
      forall i, j | 0 <= i < j < |t| ensures t[i].0 != t[j].0 { assert t[i] == d[i + 1] && t[j] == d[j + 1]; }
      forall i | 0 <= i < |t| ensures t[i].0 != x.0 { assert t[i] == d[i + 1] && d[0] == x; }
    }
    if x.0 !in DictKeys(t) && DistinctKeys(t) {
      forall i, j | 0 <= i < j < |d| ensures d[i].0 != d[j].0 {
        assert d[j] == t[j - 1];
        if i > 0 { assert d[i] == t[i - 1]; }
      }
    }
  }

  lemma {:induction false} DictSetKeys<V>(d: seq<(string, V)>, k: string, v: V)
    ensures DictKeys(DictSet(d, k, v)) == DictKeys(d) + {k}
  {
    if d == [] {
      DictKeysCons((k, v), []);
    } else {
      DictKeysCons(d[0], d[1..]);
      assert d == [d[0]] + d[1..];
      if d[0].0 == k {
        DictKeysCons((k, v), d[1..]);
      } else {
        DictSetKeys(d[1..], k, v);
        DictKeysCons(d[0], DictSet(d[1..], k, v));
      }
    }
  }

  lemma {:induction false} DictSetGet<V>(d: seq<(string, V)>, k: string, v: V, g: string)
    ensures DictGet(DictSet(d, k, v), g) == if g == k then Some(v) else DictGet(d, g)
  {
    if d != [] && d[0].0 != k {
      DictSetGet(d[1..], k, v, g);
      assert ([d[0]] + DictSet(d[1..], k, v))[1..] == DictSet(d[1..], k, v);
    } else if d != [] {
      assert ([(k, v)] + d[1..])[1..] == d[1..];
    }
  }

  lemma {:induction false} DictSetDistinct<V>(d: seq<(string, V)>, k: string, v: V)
    requires DistinctKeys(d)
    ensures DistinctKeys(DictSet(d, k, v))
  {
    if d == [] {
    } else {
      DistinctCons(d[0], d[1..]);
      assert d == [d[0]] + d[1..];
      if d[0].0 == k {
        DistinctCons((k, v), d[1..]);
      } else {
        DictSetDistinct(d[1..], k, v);
        DictSetKeys(d[1..], k, v);
        DistinctCons(d[0], DictSet(d[1..], k, v));
      }
    }
  }

  /** Setting a key behaves as it does on a dict: the key is added, its value is the
      new one, the other keys keep theirs, and no key occurs twice. */
  lemma DictSetMeaning<V>(d: seq<(string, V)>, k: string, v: V)
    requires DistinctKeys(d)
    ensures DictKeys(DictSet(d, k, v)) == DictKeys(d) + {k}
    ensures DistinctKeys(DictSet(d, k, v))
    ensures forall g :: DictGet(DictSet(d, k, v), g) == if g == k then Some(v) else DictGet(d, g)
  {
    DictSetKeys(d, k, v);
    DictSetDistinct(d, k, v);
    forall g ensures DictGet(DictSet(d, k, v), g) == if g == k then Some(v) else DictGet(d, g) {
      DictSetGet(d, k, v, g);
    }
  }

  /** `get_data_for_year_month()`'s loop over the users: each handle with the user's
      month counts, in dict order; None when a user is None (reading its handle raises). */
  function MonthCountsOf(users: seq<Option<MongoStore.User>>): Option<seq<Item>> {
    if users == [] then Some([])
    else
      match MonthCountsOf(users[..|users| - 1])
      case None => None
      case Some(d) =>
        var u := users[|users| - 1];
        if u.None? then None
        else Some(DictSet(d, u.value.userHandle, u.value.qualifiedDailyContributionNumberByMonth))
  }

  /** `get_qualified_dates()`'s loop over the users: each handle with the user's
      qualified dates; None when a user is None. */
  function QualifiedDatesOf(users: seq<Option<MongoStore.User>>): Option<map<string, set<string>>> {
    if users == [] then Some(map[])
    else
      match QualifiedDatesOf(users[..|users| - 1])
      case None => None
      case Some(m) =>
        var u := users[|users| - 1];
        if u.None? then None
        else Some(m[u.value.userHandle := u.value.qualifiedDailyContributionDates])
  }

  /** `get_data_for_year_month()`: any exception, the fetch's included, is logged and
      the function falls off its end, returning None. */
  function DataForYearMonth(fetched: Result<seq<Option<MongoStore.User>>>): Option<seq<Item>> {
    match fetched
    case Err(_) => None
    case Ok(users) => MonthCountsOf(users)
  }

  /** `get_qualified_dates()`, with the same handler. */
  function QualifiedDates(fetched: Result<seq<Option<MongoStore.User>>>): Option<map<string, set<string>>> {
    match fetched
    case Err(_) => None
    case Ok(users) => QualifiedDatesOf(users)
  }

  /** User `i` is present, has handle `h`, and no later user has that handle. */
  predicate LastWithHandle(users: seq<Option<MongoStore.User>>, h: string, i: int) {
    0 <= i < |users| && users[i].Some? && users[i].value.userHandle == h
    && forall j :: i < j < |users| ==> users[j].Some? ==> users[j].value.userHandle != h
  }

  /** With every user present both getters build their dicts: the handles are the
      users' handles, each once, and a handle's value is that of the last user with it. */
  lemma {:induction false} GettersOfUsers(users: seq<Option<MongoStore.User>>, h: string)
    requires forall i :: 0 <= i < |users| ==> users[i].Some?
    ensures MonthCountsOf(users).Some? && QualifiedDatesOf(users).Some?
    ensures DistinctKeys(MonthCountsOf(users).value)
    ensures h in DictKeys(MonthCountsOf(users).value) <==> h in QualifiedDatesOf(users).value
    ensures h in QualifiedDatesOf(users).value <==> exists i :: 0 <= i < |users| && users[i].value.userHandle == h
    ensures h in QualifiedDatesOf(users).value ==>
      exists i :: (LastWithHandle(users, h, i)
        && DictGet(MonthCountsOf(users).value, h) == Some(users[i].value.qualifiedDailyContributionNumberByMonth)
        && QualifiedDatesOf(users).value[h] == users[i].value.qualifiedDailyContributionDates)
    decreases |users|
  {
    if users != [] {
      var init := users[..|users| - 1];
      var u := users[|users| - 1].value;
      GettersOfUsers(init, h);
      var d := MonthCountsOf(init).value;
      DictSetMeaning(d, u.userHandle, u.qualifiedDailyContributionNumberByMonth);
      if u.userHandle == h {
        assert LastWithHandle(users, h, |users| - 1);
      } else if h in QualifiedDatesOf(init).value {
        var i :| LastWithHandle(init, h, i)
          && DictGet(d, h) == Some(init[i].value.qualifiedDailyContributionNumberByMonth)
          && QualifiedDatesOf(init).value[h] == init[i].value.qualifiedDailyContributionDates;
        assert users[i] == init[i];
        assert LastWithHandle(users, h, i);
      }
      if exists i :: 0 <= i < |users| && users[i].value.userHandle == h {
        var i :| 0 <= i < |users| && users[i].value.userHandle == h;
        if i < |init| { assert init[i] == users[i]; }
      }
      if exists i :: 0 <= i < |init| && init[i].value.userHandle == h {
        var i :| 0 <= i < |init| && init[i].value.userHandle == h;
        assert users[i] == init[i];
      }
    }
  }

  /** `create_leaderboard_by_month(year, month, commit_filter)` on what the two getters
      return for the fetch's answer: when they return None the window is still
      computed, and then `data.items()` raises. */
  function CreateLeaderboardOfFetch(year: string, month: string, commitFilter: int,
                                    fetched: Result<seq<Option<MongoStore.User>>>, now: Calendar.DateTime): Result<seq<Row>>
    requires Calendar.ValidDateTime(now)
  {
    var data := DataForYearMonth(fetched);
    var qualifiedDates := QualifiedDates(fetched);
    var w :- LeaderboardWindow(year, month, commitFilter, now);
    if data.None? || qualifiedDates.None? then Err(AttributeError("'NoneType' object has no attribute 'items'"))
    else LeaderboardOf(year, month, commitFilter, data.value, qualifiedDates.value, now)
  }

  /** With no users at all the leaderboard is the header alone. */
  lemma LeaderboardOfNoUsers(year: string, month: string, commitFilter: int, now: Calendar.DateTime)
    requires Calendar.ValidDateTime(now)
    requires LeaderboardWindow(year, month, commitFilter, now).Ok?
    ensures LeaderboardOf(year, month, commitFilter, [], map[], now) == Ok([Header])
  {
    var w := LeaderboardWindow(year, month, commitFilter, now).value;
    assert Standings([], StandingFor(map[], w)) == Ok([]);
    assert SortDesc<Standing>([], Contributions) == [];
    assert RankedRows([]) == [];
    assert [Header] + RankedRows(SortDesc<Standing>([], Contributions)) == [Header];
  }

  /** With every user present, the leaderboard is computed over the getters' dicts. */
  lemma CreateLeaderboardOfUsers(year: string, month: string, commitFilter: int, now: Calendar.DateTime,
                                 users: seq<Option<MongoStore.User>>)
    requires Calendar.ValidDateTime(now)
    requires forall i :: 0 <= i < |users| ==> users[i].Some?
    ensures MonthCountsOf(users).Some? && QualifiedDatesOf(users).Some?
    ensures CreateLeaderboardOfFetch(year, month, commitFilter, Ok(users), now)
         == LeaderboardOf(year, month, commitFilter, MonthCountsOf(users).value, QualifiedDatesOf(users).value, now)
  {
    GettersOfUsers(users, "");
  }

  /** As written, the leaderboard raises on every call whose year and month are
      valid: the fetch raises, both getters return None and `data.items()` fails,
      where the users' dicts would give a ranking, with no users the header alone. */
  lemma CreateLeaderboardAsWritten(year: string, month: string, commitFilter: int, now: Calendar.DateTime)
    requires Calendar.ValidDateTime(now)
    requires LeaderboardWindow(year, month, commitFilter, now).Ok?
    ensures CreateLeaderboardOfFetch(year, month, commitFilter, DbFunctions.FetchDbGetUsers(), now)
         == Err(AttributeError("'NoneType' object has no attribute 'items'"))
    ensures CreateLeaderboardOfFetch(year, month, commitFilter, Ok([]), now) == Ok([Header])
  {
    CreateLeaderboardOfUsers(year, month, commitFilter, now, []);
    LeaderboardOfNoUsers(year, month, commitFilter, now);
  }
}
