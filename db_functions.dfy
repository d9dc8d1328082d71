/** leader_bot/db_functions.py: the monthly streak of every user and the batched
    insert of the Discord user list. The user list and `insert_many` are parameters. */
module DbFunctions {
  import opened Wrappers
  import opened JsonValue
  import Text
  import Calendar
  import MongoStore
  import Stats

  // ------------------------------------------------------------ monthly streak

  /** The user's qualified dates that start with `month`. */
  function InMonth(u: MongoStore.User, month: string): set<string> {
    set d | d in u.qualifiedDailyContributionDates && Text.StartsWith(d, month)
  }

  /** The user's in-month dates, as `sorted` lists them. */
  function MonthDates(u: MongoStore.User, month: string): seq<string> {
    Text.SortedElements(InMonth(u, month))
  }

  /** The in-month list holds exactly the user's dates that start with the month,
      each once, in increasing order. */
  lemma MonthDatesMeaning(u: MongoStore.User, month: string)
    ensures forall d :: d in MonthDates(u, month) <==> d in u.qualifiedDailyContributionDates && Text.StartsWith(d, month)
    ensures Text.StrictlySorted(MonthDates(u, month))
    ensures |MonthDates(u, month)| == |InMonth(u, month)|
  {
    Text.SortedElementsCard(InMonth(u, month));
  }

  /** `datetime.strptime(date, "%Y-%m-%d")` as a day number (its proleptic ordinal). */
  function YmdDay(s: string): Result<int> {
    var d :- Calendar.ParseYmd(s);
    Ok(Calendar.Ordinal(d))
  }

  /** The day numbers of dates that all parse. */
  function DayNumbers(dates: seq<string>, day: string -> Result<int>): (xs: seq<int>)
    requires forall i :: 0 <= i < |dates| ==> day(dates[i]).Ok?
    ensures |xs| == |dates|
    ensures forall i :: 0 <= i < |dates| ==> xs[i] == day(dates[i]).value
  {
    seq(|dates|, i requires 0 <= i < |dates| => day(dates[i]).value)
  }

  /** The inner loop of `calculate_monthly_streak` over a non-empty list of dates:
      the longest run of dates one day apart, in list order. A date that does not
      parse raises. */
  function RunOf(dates: seq<string>, day: string -> Result<int>): Result<int>
    requires dates != []
  {
    if forall i :: 0 <= i < |dates| ==> day(dates[i]).Ok? then
      Ok(Stats.LongestRunBefore(DayNumbers(dates, day), |dates|))
    else Err(ValueError("time data does not match format '%Y-%m-%d'"))
  }

  /** The streak entry a present user contributes: none without dates in the month. */
  function UserStreak(u: MongoStore.User, month: string): Result<Option<int>> {
    var dates := MonthDates(u, month);
    if dates == [] then Ok(None)
    else
      var s :- RunOf(dates, YmdDay);
      Ok(Some(s))
  }

  /** `UserStreak` for one month, as a function of the user. */
  function StreakFor(month: string): MongoStore.User -> Result<Option<int>> {
    u => UserStreak(u, month)
  }

  /** The `user_streaks` dict after the given users, where `streak` gives each present
      user's entry; a missing user (None) raises, and a later user with the same
      handle overwrites an earlier one. */
  function StreaksUpTo(users: seq<Option<MongoStore.User>>, streak: MongoStore.User -> Result<Option<int>>): Result<map<string, int>> {
    if users == [] then Ok(map[])
    else
      var m :- StreaksUpTo(users[..|users| - 1], streak);
      var user := users[|users| - 1];
      if user.None? then Err(AttributeError("'NoneType' object has no attribute 'qualified_daily_contribution_dates'"))
      else
        var s :- streak(user.value);
        Ok(if s.Some? then m[user.value.userHandle := s.value] else m)
  }

  /** `calculate_monthly_streak(month)` over the given users: any exception gives `{}`. */
  function MonthlyStreaks(users: seq<Option<MongoStore.User>>, month: string): map<string, int> {
    match StreaksUpTo(users, StreakFor(month))
    case Ok(m) => m
    case Err(_) => map[]
  }

  /** A reported streak is the longest run of consecutive days among the user's dates
      in the month, so it lies between 1 and their number. */
  lemma RunOfMeaning(dates: seq<string>, day: string -> Result<int>)
    requires dates != [] && RunOf(dates, day).Ok?
    ensures 1 <= RunOf(dates, day).value <= |dates|
    ensures exists a: nat, b: nat :: Stats.Consecutive(DayNumbers(dates, day), a, b) && b - a == RunOf(dates, day).value
    ensures forall a: nat, b: nat :: Stats.Consecutive(DayNumbers(dates, day), a, b) ==> b - a <= RunOf(dates, day).value
  {
    Stats.LongestRunBeforeIsLongest(DayNumbers(dates, day), |dates|);
  }

  /** A user has an entry exactly when they have a date in the month, and the entry
      is the longest run of consecutive days among those dates. */
  lemma UserStreakMeaning(u: MongoStore.User, month: string)
    requires UserStreak(u, month).Ok?
    ensures UserStreak(u, month).value.Some? <==> MonthDates(u, month) != []
    ensures UserStreak(u, month).value.Some? ==>
      RunOf(MonthDates(u, month), YmdDay) == Ok(UserStreak(u, month).value.value)
      && 1 <= UserStreak(u, month).value.value <= |MonthDates(u, month)|
  {
    if MonthDates(u, month) != [] {
      RunOfMeaning(MonthDates(u, month), YmdDay);
    }
  }

  /** User `i` is present, has handle `h` and has an entry. */
  predicate Active(users: seq<Option<MongoStore.User>>, streak: MongoStore.User -> Result<Option<int>>, h: string, i: int) {
    0 <= i < |users| && users[i].Some? && users[i].value.userHandle == h
      && streak(users[i].value).Ok? && streak(users[i].value).value.Some?
  }

  /** User `i` is the last user with handle `h` that has an entry. */
  predicate LastActive(users: seq<Option<MongoStore.User>>, streak: MongoStore.User -> Result<Option<int>>, h: string, i: int) {
    Active(users, streak, h, i) && forall j :: i < j < |users| ==> !Active(users, streak, h, j)
  }

  /** A run that does not raise has every user present. */
  lemma {:induction false} StreaksUpToPresent(users: seq<Option<MongoStore.User>>, streak: MongoStore.User -> Result<Option<int>>)
    requires StreaksUpTo(users, streak).Ok?
    decreases |users|
    ensures forall i :: 0 <= i < |users| ==> users[i].Some? && streak(users[i].value).Ok?
  {
    if users != [] {
      var p := users[..|users| - 1];
      StreaksUpToPresent(p, streak);
      assert forall i :: 0 <= i < |p| ==> users[i] == p[i];
    }
  }

  /** The last step of `StreaksUpTo`: the previous dict, updated by the last user's entry. */
  lemma StreaksUpToLast(users: seq<Option<MongoStore.User>>, streak: MongoStore.User -> Result<Option<int>>)
    requires users != [] && StreaksUpTo(users, streak).Ok?
    ensures StreaksUpTo(users[..|users| - 1], streak).Ok?
    ensures users[|users| - 1].Some? && streak(users[|users| - 1].value).Ok?
    ensures var m := StreaksUpTo(users[..|users| - 1], streak).value;
      var u := users[|users| - 1].value;
      var s := streak(u).value;
      StreaksUpTo(users, streak).value == if s.Some? then m[u.userHandle := s.value] else m
  {
  }

  /** A handle is reported exactly when some user with that handle has an entry. */
  lemma {:induction false} StreaksUpToKeys(users: seq<Option<MongoStore.User>>, streak: MongoStore.User -> Result<Option<int>>, h: string)
    requires StreaksUpTo(users, streak).Ok?
    decreases |users|
    ensures h in StreaksUpTo(users, streak).value <==> exists i :: Active(users, streak, h, i)
  {
    if users != [] {
      var n := |users| - 1;
      var p := users[..n];
      StreaksUpToLast(users, streak);
      StreaksUpToKeys(p, streak, h);
      assert forall i :: 0 <= i < n ==> Active(users, streak, h, i) == Active(p, streak, h, i);
      if !Active(users, streak, h, n) {
        assert h in StreaksUpTo(users, streak).value <==> h in StreaksUpTo(p, streak).value;
        if exists i :: Active(users, streak, h, i) {
          var i :| Active(users, streak, h, i);
          assert Active(p, streak, h, i);
        }
      }
    }
  }

  /** A reported handle carries the entry of the last user with that handle that has one. */
  lemma {:induction false} StreaksUpToValue(users: seq<Option<MongoStore.User>>, streak: MongoStore.User -> Result<Option<int>>, h: string)
    requires StreaksUpTo(users, streak).Ok? && h in StreaksUpTo(users, streak).value
    decreases |users|
    ensures exists i :: LastActive(users, streak, h, i) && streak(users[i].value) == Ok(Some(StreaksUpTo(users, streak).value[h]))
  {
    var n := |users| - 1;
    var p := users[..n];
    StreaksUpToLast(users, streak);
    var r := StreaksUpTo(users, streak).value;
    if Active(users, streak, h, n) {
      assert streak(users[n].value) == Ok(Some(r[h]));
      assert LastActive(users, streak, h, n);
    } else {
      var m := StreaksUpTo(p, streak).value;
      assert h in m && r[h] == m[h];
      StreaksUpToValue(p, streak, h);
      var i :| LastActive(p, streak, h, i) && streak(p[i].value) == Ok(Some(m[h]));
      assert users[i] == p[i];
      forall j | i < j < |users| ensures !Active(users, streak, h, j) {
        if j < n {
          assert users[j] == p[j];
          assert !Active(p, streak, h, j);
        }
      }
      assert Active(users, streak, h, i);
      assert LastActive(users, streak, h, i);
    }
  }

  /** User `i` is present, has handle `h` and has a date in the month. */
  predicate InMonthUser(users: seq<Option<MongoStore.User>>, month: string, h: string, i: int) {
    0 <= i < |users| && users[i].Some? && users[i].value.userHandle == h && MonthDates(users[i].value, month) != []
  }

  /** A handle is reported exactly when some user with it has a date in the month;
      its streak is the longest run of consecutive days among the dates of the last
      such user, between 1 and their number. */
  lemma MonthlyStreaksMeaning(users: seq<Option<MongoStore.User>>, month: string, h: string)
    requires StreaksUpTo(users, StreakFor(month)).Ok?
    ensures h in MonthlyStreaks(users, month) <==> exists i :: InMonthUser(users, month, h, i)
    ensures h in MonthlyStreaks(users, month) ==>
      exists i :: InMonthUser(users, month, h, i) && (forall j :: i < j < |users| ==> !InMonthUser(users, month, h, j))
        && RunOf(MonthDates(users[i].value, month), YmdDay) == Ok(MonthlyStreaks(users, month)[h])
        && 1 <= MonthlyStreaks(users, month)[h] <= |MonthDates(users[i].value, month)|
  {
    var f := StreakFor(month);
    StreaksUpToPresent(users, f);
    StreaksUpToKeys(users, f, h);
    forall i | 0 <= i < |users|
      ensures Active(users, f, h, i) <==> InMonthUser(users, month, h, i)
    {
      UserStreakMeaning(users[i].value, month);
    }
    if h in MonthlyStreaks(users, month) {
      StreaksUpToValue(users, f, h);
      var i :| LastActive(users, f, h, i) && f(users[i].value) == Ok(Some(MonthlyStreaks(users, month)[h]));
      UserStreakMeaning(users[i].value, month);
      assert forall j :: i < j < |users| ==> !InMonthUser(users, month, h, j);
    }
  }

  /** A missing user (None) anywhere, or any other exception, makes the result `{}`. */
  lemma MonthlyStreaksMissingUser(users: seq<Option<MongoStore.User>>, month: string)
    requires exists i :: 0 <= i < |users| && users[i].None?
    ensures MonthlyStreaks(users, month) == map[]
  {
    if StreaksUpTo(users, StreakFor(month)).Ok? {
      StreaksUpToPresent(users, StreakFor(month));
    }
  }

  /** `fetch_db_get_users()` as written: `MongoDBManagement` defines no `get_users`,
      so the attribute lookup raises on every call. */
  function FetchDbGetUsers(): (r: Result<seq<Option<MongoStore.User>>>)
    ensures r.Err? && r.error.AttributeError?
  {
    Err(AttributeError("'MongoDBManagement' object has no attribute 'get_users'"))
  }

  /** `calculate_monthly_streak(month)` with the fetch inside its `try`: a failed
      fetch is caught like any other exception. */
  function MonthlyStreaksOfFetch(fetched: Result<seq<Option<MongoStore.User>>>, month: string): map<string, int> {
    match fetched
    case Ok(users) => MonthlyStreaks(users, month)
    case Err(_) => map[]
  }

  /** As written, `calculate_monthly_streak` reports nobody: the fetch raises and the
      handler returns `{}`, even for users who would have a streak in the month. */
  lemma CalculateMonthlyStreakAsWritten(users: seq<Option<MongoStore.User>>, month: string, h: string)
    requires StreaksUpTo(users, StreakFor(month)).Ok?
    requires exists i :: InMonthUser(users, month, h, i)
    ensures h in MonthlyStreaksOfFetch(Ok(users), month)
    ensures MonthlyStreaksOfFetch(FetchDbGetUsers(), month) == map[]
  {
    MonthlyStreaksMeaning(users, month, h);
  }

  /** `calculate_monthly_streak(month)` with the list `fetch_db_get_users` would give. */
  method CalculateMonthlyStreak(users: seq<Option<MongoStore.User>>, month: string) returns (userStreaks: map<string, int>)
    ensures userStreaks == MonthlyStreaks(users, month)
  {
    userStreaks := map[];
    for k := 0 to |users|
      invariant StreaksUpTo(users[..k], StreakFor(month)) == Ok(userStreaks)
    {
      assert users[..k + 1][..k] == users[..k];
      var user := users[k];
      if user.None? {
        StreaksStopAtError(users, k + 1, StreakFor(month));
        return map[];
      }
      var contributionsInMonth := MonthDates(user.value, month);
      assert StreakFor(month)(user.value) == UserStreak(user.value, month);
      if contributionsInMonth != [] {
        var maxStreak := MonthStreak(contributionsInMonth, YmdDay);
        if maxStreak.Err? {
          StreaksStopAtError(users, k + 1, StreakFor(month));
          return map[];
        }
        userStreaks := userStreaks[user.value.userHandle := maxStreak.value];
      }
    }
    assert users[..|users|] == users;
  }

  /** Once the users before position `k` raise, so does the whole list. */
  lemma {:induction false} StreaksStopAtError(users: seq<Option<MongoStore.User>>, k: nat, streak: MongoStore.User -> Result<Option<int>>)
    requires k <= |users| && StreaksUpTo(users[..k], streak).Err?
    decreases |users| - k
    ensures StreaksUpTo(users, streak).Err?
  {
    if k < |users| {
      assert users[..k + 1][..k] == users[..k];
      StreaksStopAtError(users, k + 1, streak);
    } else {
      assert users[..k] == users;
    }
  }

  /** The streak loop over one user's sorted dates in the month. */
  method MonthStreak(dates: seq<string>, day: string -> Result<int>) returns (r: Result<int>)
    requires dates != []
    ensures r == RunOf(dates, day)
  {
    ghost var xs := seq(|dates|, j requires 0 <= j < |dates| => if day(dates[j]).Ok? then day(dates[j]).value else 0);
    var streak := 0;
    var maxStreak := 0;
    var previousDate: Option<int> := None;
    for i := 0 to |dates|
      invariant forall j :: 0 <= j < i ==> day(dates[j]).Ok?
      invariant i == 0 ==> previousDate.None? && maxStreak == 0
      invariant i > 0 ==> previousDate == Some(xs[i - 1])
      invariant i > 0 ==> streak == Stats.RunEndingAt(xs, i - 1) && maxStreak == Stats.LongestRunBefore(xs, i)
    {
      var parsed := day(dates[i]);
      if parsed.Err? {
        return Err(ValueError("time data does not match format '%Y-%m-%d'"));
      }
      var currentDate := parsed.value;
      if previousDate.Some? && currentDate - previousDate.value == 1 {
        streak := streak + 1;
      } else {
        streak := 1;
      }
      maxStreak := Stats.Max(maxStreak, streak);
      previousDate := Some(currentDate);
    }
    assert xs == DayNumbers(dates, day);
    r := Ok(maxStreak);
  }

  // ------------------------------------------------------------ batched insert

  const BatchSize := 1000

  /** `data[i : i + 1000]` for `i` in `range(0, len(data), 1000)`. */
  function Batches(data: seq<Json>): (bs: seq<seq<Json>>)
    decreases |data|
  {
    if data == [] then []
    else if |data| <= BatchSize then [data]
    else [data[..BatchSize]] + Batches(data[BatchSize..])
  }

  function Flatten(bs: seq<seq<Json>>): seq<Json> {
    if bs == [] then [] else bs[0] + Flatten(bs[1..])
  }

  /** The batches cover the input in order, each holds 1 to 1000 documents, and all
      but the last hold exactly 1000. */
  lemma {:induction false} BatchesCover(data: seq<Json>)
    decreases |data|
    ensures Flatten(Batches(data)) == data
    ensures forall i :: 0 <= i < |Batches(data)| ==> 1 <= |Batches(data)[i]| <= BatchSize
    ensures forall i :: 0 <= i < |Batches(data)| - 1 ==> |Batches(data)[i]| == BatchSize
    ensures |Batches(data)| == (|data| + BatchSize - 1) / BatchSize
  {
    if |data| > BatchSize {
      BatchesCover(data[BatchSize..]);
      assert data == data[..BatchSize] + data[BatchSize..];
      var bs := Batches(data);
      assert bs[1..] == Batches(data[BatchSize..]);
    }
  }

  /** `user_id_collection.insert_many(batch)`: whether the insert succeeds. */
  type Inserter = seq<Json> -> bool

  /** The batches sent before the first failing one (all of them when none fails). */
  function SentBatches(bs: seq<seq<Json>>, insertMany: Inserter): (r: seq<seq<Json>>)
    ensures r <= bs
  {
    if bs == [] || !insertMany(bs[0]) then [] else [bs[0]] + SentBatches(bs[1..], insertMany)
  }

  /** Every batch up to the first failing one succeeds, and all of them succeed
      exactly when the sent batches are all of them. */
  lemma {:induction false} SentBatchesMeaning(bs: seq<seq<Json>>, insertMany: Inserter)
    ensures forall j :: 0 <= j < |SentBatches(bs, insertMany)| ==> insertMany(bs[j])
    ensures SentBatches(bs, insertMany) == bs <==> forall j :: 0 <= j < |bs| ==> insertMany(bs[j])
    ensures |SentBatches(bs, insertMany)| < |bs| ==> !insertMany(bs[|SentBatches(bs, insertMany)|])
  {
    if bs != [] && insertMany(bs[0]) {
      SentBatchesMeaning(bs[1..], insertMany);
      assert forall j :: 1 <= j < |bs| ==> bs[j] == bs[1..][j - 1];
    }
  }

  /** `insert_discord_users(data)`: inserts consecutive batches of at most 1000 and
      answers True, or stops at the first failing batch and answers False. */
  method InsertDiscordUsers(data: seq<Json>, insertMany: Inserter) returns (ok: bool, inserted: seq<seq<Json>>)
    ensures inserted == SentBatches(Batches(data), insertMany)
    ensures ok <==> inserted == Batches(data)
  {
    inserted := [];
    var rest := data;
    while rest != []
      invariant Batches(data) == inserted + Batches(rest)
      invariant SentBatches(Batches(data), insertMany) == inserted + SentBatches(Batches(rest), insertMany)
      decreases |rest|
    {
      var n := if |rest| <= BatchSize then |rest| else BatchSize;
      var batch := rest[..n];
      assert |rest| <= BatchSize ==> batch == rest && rest[n..] == [];
      assert Batches(rest) == [batch] + Batches(rest[n..]);
      assert Batches(rest)[0] == batch && Batches(rest)[1..] == Batches(rest[n..]);
      if !insertMany(batch) {
        ok := false;
        SentBatchesMeaning(Batches(data), insertMany);
        return;
      }
      inserted := inserted + [batch];
      rest := rest[n..];
    }
    ok := true;
  }
}
