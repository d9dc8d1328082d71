/** The user store: the `User`, `AIDecision` and `DailyContributionResponse` records,
    their conversion to and from MongoDB documents, and `MongoDBManagement`, whose
    methods read and rewrite the user documents of one collection.

    A document is a `map<string, Json>`. The collection is the sequence of its
    documents in natural order, so `find_one`, `update_one` and `delete_one` act on
    the first document whose `user_handle` matches. */
module MongoStore {
  import opened Wrappers
  import opened JsonValue
  import Text
  import Calendar

  type Doc = map<string, Json>

  datatype DailyContributionResponse = DailyContributionResponse(
    username: string,
    date: string,
    isQualified: bool,
    explanation: string)

  datatype AIDecision = AIDecision(
    username: string,
    repository: string,
    date: string,
    response: DailyContributionResponse)

  /** The `User` dataclass. `repositories` is kept as the stored JSON value, since
      `validate` is what checks that it is a list of strings. */
  datatype User = User(
    userHandle: string,
    githubName: string,
    repositories: Json,
    aiDecisions: seq<seq<AIDecision>>,
    totalDailyContributionNumber: int,
    totalQualifiedDailyContributionNumber: int,
    qualifiedDailyContributionNumberByMonth: map<string, int>,
    qualifiedDailyContributionDates: set<string>,
    qualifiedDailyContributionStreak: int)

  const KHandle := "user_handle"
  const KGithub := "github_name"
  const KRepos := "repositories"
  const KDecisions := "ai_decisions"
  const KTotal := "total_daily_contribution_number"
  const KQualifiedTotal := "total_qualified_daily_contribution_number"
  const KByMonth := "qualified_daily_contribution_number_by_month"
  const KDates := "qualified_daily_contribution_dates"
  const KStreak := "qualified_daily_contribution_streak"

  /** `User(user_handle, github_name, repositories)` with the dataclass defaults. */
  function NewUser(handle: string, github: string, repositories: seq<string>): (u: User)
    ensures u.userHandle == handle && u.githubName == github && u.repositories == StrList(repositories)
    ensures u.aiDecisions == [] && u.qualifiedDailyContributionDates == {}
    ensures u.qualifiedDailyContributionNumberByMonth == map[]
    ensures u.totalDailyContributionNumber == 0 && u.totalQualifiedDailyContributionNumber == 0
    ensures u.qualifiedDailyContributionStreak == 0
  {
    User(handle, github, StrList(repositories), [], 0, 0, map[], {}, 0)
  }

  /** A Python list of strings as JSON. */
  function StrList(xs: seq<string>): (j: Json)
    ensures j.JArr? && |j.items| == |xs|
    ensures forall i :: 0 <= i < |xs| ==> j.items[i] == JStr(xs[i])
  {
    JArr(seq(|xs|, i requires 0 <= i < |xs| => JStr(xs[i])))
  }

  /** `User.validate`: the repositories are a list whose elements are all strings. */
  predicate Validate(u: User) {
    u.repositories.JArr? && forall i :: 0 <= i < |u.repositories.items| ==> u.repositories.items[i].JStr?
  }

  /** A user is valid exactly when its repositories are the JSON form of a list of strings. */
  lemma ValidateMeansStringList(u: User)
    ensures Validate(u) <==> exists names :: u.repositories == StrList(names)
  {
    if Validate(u) {
      var items := u.repositories.items;
      var names := seq(|items|, i requires 0 <= i < |items| => items[i].s);
      assert u.repositories == StrList(names);
    }
  }

  // ---------------------------------------------------------------- to_dict

  function ResponseToJson(r: DailyContributionResponse): Json {
    JObj(map["username" := JStr(r.username), "date" := JStr(r.date),
             "is_qualified" := JBool(r.isQualified), "explanation" := JStr(r.explanation)])
  }

  function DecisionToJson(d: AIDecision): Json {
    JObj(map["username" := JStr(d.username), "repository" := JStr(d.repository),
             "date" := JStr(d.date), "response" := ResponseToJson(d.response)])
  }

  function DecisionsToJson(ds: seq<AIDecision>): (r: seq<Json>)
    ensures |r| == |ds|
  {
    if ds == [] then [] else [DecisionToJson(ds[0])] + DecisionsToJson(ds[1..])
  }

  function GroupsToJson(gs: seq<seq<AIDecision>>): (r: seq<Json>)
    ensures |r| == |gs|
  {
    if gs == [] then [] else [JArr(DecisionsToJson(gs[0]))] + GroupsToJson(gs[1..])
  }

  function CountsToJson(m: map<string, int>): Json {
    JObj(map k | k in m :: JInt(m[k]))
  }

  /** `list(dates)`, in the fixed order of `Text.SortedElements`. */
  function DatesToJson(s: set<string>): Json {
    StrList(Text.SortedElements(s))
  }

  /** `User.to_dict`. */
  function ToDict(u: User): Doc {
    map[KHandle := JStr(u.userHandle),
        KGithub := JStr(u.githubName),
        KRepos := u.repositories,
        KDecisions := JArr(GroupsToJson(u.aiDecisions)),
        KTotal := JInt(u.totalDailyContributionNumber),
        KQualifiedTotal := JInt(u.totalQualifiedDailyContributionNumber),
        KByMonth := CountsToJson(u.qualifiedDailyContributionNumberByMonth),
        KDates := DatesToJson(u.qualifiedDailyContributionDates),
        KStreak := JInt(u.qualifiedDailyContributionStreak)]
  }

  // -------------------------------------------------------------- from_dict

  function AsStr(j: Json): (r: Result<string>)
    ensures r.Ok? <==> j.JStr?
    ensures r.Ok? ==> j == JStr(r.value)
  {
    if j.JStr? then Ok(j.s) else Err(TypeError("expected a string"))
  }

  function AsInt(j: Json): (r: Result<int>)
    ensures r.Ok? <==> j.JInt?
    ensures r.Ok? ==> j == JInt(r.value)
  {
    if j.JInt? then Ok(j.i) else Err(TypeError("expected an integer"))
  }

  function AsBool(j: Json): (r: Result<bool>)
    ensures r.Ok? <==> j.JBool?
    ensures r.Ok? ==> j == JBool(r.value)
  {
    if j.JBool? then Ok(j.b) else Err(TypeError("expected a boolean"))
  }

  /** `data.get(key, default)`. */
  function FieldOr(d: Doc, key: string, default: Json): (r: Json)
    ensures key in d ==> r == d[key]
    ensures key !in d ==> r == default
  {
    if key in d then d[key] else default
  }

  /** One `AIDecision(...)` of the comprehension in `from_dict`: the subscripts are
      taken in the order Python evaluates them, so the first missing key is the
      `KeyError` raised. */
  function DecodeDecision(j: Json): Result<AIDecision> {
    var username :- Get(j, "username");
    var repository :- Get(j, "repository");
    var date :- Get(j, "date");
    var response :- Get(j, "response");
    var rUsername :- Get(response, "username");
    var rDate :- Get(response, "date");
    var rQualified :- Get(response, "is_qualified");
    var rExplanation :- Get(response, "explanation");
    var u :- AsStr(username);
    var repo :- AsStr(repository);
    var dt :- AsStr(date);
    var ru :- AsStr(rUsername);
    var rd :- AsStr(rDate);
    var rq :- AsBool(rQualified);
    var re :- AsStr(rExplanation);
    Ok(AIDecision(u, repo, dt, DailyContributionResponse(ru, rd, rq, re)))
  }

  function DecodeDecisions(js: seq<Json>): Result<seq<AIDecision>> {
    if js == [] then Ok([])
    else
      var d :- DecodeDecision(js[0]);
      var rest :- DecodeDecisions(js[1..]);
      Ok([d] + rest)
  }

  function DecodeGroupList(js: seq<Json>): Result<seq<seq<AIDecision>>> {
    if js == [] then Ok([])
    else
      var g :- (if js[0].JArr? then DecodeDecisions(js[0].items) else Err(TypeError("object is not iterable")));
      var rest :- DecodeGroupList(js[1..]);
      Ok([g] + rest)
  }

  function DecodeGroups(j: Json): Result<seq<seq<AIDecision>>> {
    if j.JArr? then DecodeGroupList(j.items) else Err(TypeError("object is not iterable"))
  }

  function DecodeCounts(j: Json): Result<map<string, int>> {
    if j.JObj? && forall k :: k in j.fields ==> j.fields[k].JInt? then
      Ok(map k | k in j.fields :: j.fields[k].i)
    else Err(TypeError("expected a dict of integers"))
  }

  /** `set(value)`: the strings of a list, or the keys of a dict (the form
      `set_qualified_daily_contribution_dates` stores). */
  function DecodeDates(j: Json): Result<set<string>> {
    match j
    case JArr(items) =>
      if forall i :: 0 <= i < |items| ==> items[i].JStr? then Ok(set i | 0 <= i < |items| :: items[i].s)
      else Err(TypeError("expected a list of strings"))
    case JObj(f) => Ok(f.Keys)
    case _ => Err(TypeError("object is not iterable"))
  }

  /** `User.from_dict`: the decision groups are read first, then the two required
      keys; every other field falls back to its default when absent. */
  function FromDict(d: Doc): (r: Result<User>)
    ensures r.Ok? ==> KHandle in d && d[KHandle] == JStr(r.value.userHandle)
    ensures r.Ok? ==> r.value.repositories == FieldOr(d, KRepos, JArr([]))
    ensures r.Ok? ==> DecodeGroups(FieldOr(d, KDecisions, JArr([]))) == Ok(r.value.aiDecisions)
    ensures r.Ok? ==> FieldOr(d, KTotal, JInt(0)) == JInt(r.value.totalDailyContributionNumber)
    ensures r.Ok? ==> FieldOr(d, KQualifiedTotal, JInt(0)) == JInt(r.value.totalQualifiedDailyContributionNumber)
    ensures r.Ok? ==> DecodeCounts(FieldOr(d, KByMonth, JObj(map[]))) == Ok(r.value.qualifiedDailyContributionNumberByMonth)
    ensures r.Ok? ==> DecodeDates(FieldOr(d, KDates, JArr([]))) == Ok(r.value.qualifiedDailyContributionDates)
    ensures r.Ok? ==> FieldOr(d, KStreak, JInt(0)) == JInt(r.value.qualifiedDailyContributionStreak)
  {
    var groups :- DecodeGroups(FieldOr(d, KDecisions, JArr([])));
    var handle :- Get(JObj(d), KHandle);
    var github :- Get(JObj(d), KGithub);
    var h :- AsStr(handle);
    var g :- AsStr(github);
    var total :- AsInt(FieldOr(d, KTotal, JInt(0)));
    var qualifiedTotal :- AsInt(FieldOr(d, KQualifiedTotal, JInt(0)));
    var byMonth :- DecodeCounts(FieldOr(d, KByMonth, JObj(map[])));
    var dates :- DecodeDates(FieldOr(d, KDates, JArr([])));
    var streak :- AsInt(FieldOr(d, KStreak, JInt(0)));
    Ok(User(h, g, FieldOr(d, KRepos, JArr([])), groups, total, qualifiedTotal, byMonth, dates, streak))
  }

  // ------------------------------------------------------------ round trip

  lemma DecisionRoundTrip(d: AIDecision)
    ensures DecodeDecision(DecisionToJson(d)) == Ok(d)
  {
  }

  lemma {:induction false} DecisionsRoundTrip(ds: seq<AIDecision>)
    ensures DecodeDecisions(DecisionsToJson(ds)) == Ok(ds)
  {
    if ds != [] {
      DecisionRoundTrip(ds[0]);
      DecisionsRoundTrip(ds[1..]);
      assert [ds[0]] + ds[1..] == ds;
    }
  }

  lemma {:induction false} GroupsRoundTrip(gs: seq<seq<AIDecision>>)
    ensures DecodeGroupList(GroupsToJson(gs)) == Ok(gs)
  {
    if gs != [] {
      DecisionsRoundTrip(gs[0]);
      GroupsRoundTrip(gs[1..]);
      assert [gs[0]] + gs[1..] == gs;
    }
  }

  lemma CountsRoundTrip(m: map<string, int>)
    ensures DecodeCounts(CountsToJson(m)) == Ok(m)
  {
    var j := CountsToJson(m);
    assert (map k | k in j.fields :: j.fields[k].i) == m;
  }

  lemma DatesRoundTrip(s: set<string>)
    ensures DecodeDates(DatesToJson(s)) == Ok(s)
  {
    var xs := Text.SortedElements(s);
    var items := DatesToJson(s).items;
    var back := set i | 0 <= i < |items| :: items[i].s;
    forall y ensures y in back <==> y in s {
      if y in s {
        var i :| 0 <= i < |xs| && xs[i] == y;
        assert items[i].s == y;
      }
    }
    assert back == s;
  }

  /** The nine keys `to_dict` writes and the value under each. */
  lemma ToDictFields(u: User)
    ensures ToDict(u).Keys == {KHandle, KGithub, KRepos, KDecisions, KTotal, KQualifiedTotal, KByMonth, KDates, KStreak}
    ensures var d := ToDict(u);
      d[KHandle] == JStr(u.userHandle) && d[KGithub] == JStr(u.githubName)
      && d[KRepos] == u.repositories && d[KDecisions] == JArr(GroupsToJson(u.aiDecisions))
      && d[KTotal] == JInt(u.totalDailyContributionNumber)
      && d[KQualifiedTotal] == JInt(u.totalQualifiedDailyContributionNumber)
      && d[KByMonth] == CountsToJson(u.qualifiedDailyContributionNumberByMonth)
      && d[KDates] == DatesToJson(u.qualifiedDailyContributionDates)
      && d[KStreak] == JInt(u.qualifiedDailyContributionStreak)
  {
  }

  /** `from_dict(to_dict(u)) == u` for every user, the date set included. */
  lemma RoundTrip(u: User)
    ensures FromDict(ToDict(u)) == Ok(u)
  {
    ToDictFields(u);
    GroupsRoundTrip(u.aiDecisions);
    CountsRoundTrip(u.qualifiedDailyContributionNumberByMonth);
    DatesRoundTrip(u.qualifiedDailyContributionDates);
  }

  /** The keys `from_dict` reads. */
  const UserKeys: set<string> := {KHandle, KGithub, KRepos, KDecisions, KTotal, KQualifiedTotal, KByMonth, KDates, KStreak}

  /** Two documents that agree on every key `from_dict` reads decode alike: any
      other key (such as Mongo's `_id`) is ignored. */
  lemma FromDictReadsUserKeys(d1: Doc, d2: Doc)
    requires forall k :: k in UserKeys ==> (k in d1 <==> k in d2) && (k in d1 ==> d1[k] == d2[k])
    ensures FromDict(d1) == FromDict(d2)
  {
    assert KHandle in UserKeys && KGithub in UserKeys && KRepos in UserKeys && KDecisions in UserKeys;
    assert KTotal in UserKeys && KQualifiedTotal in UserKeys && KByMonth in UserKeys;
    assert KDates in UserKeys && KStreak in UserKeys;
    assert FieldOr(d1, KDecisions, JArr([])) == FieldOr(d2, KDecisions, JArr([]));
    assert Get(JObj(d1), KHandle) == Get(JObj(d2), KHandle);
    assert Get(JObj(d1), KGithub) == Get(JObj(d2), KGithub);
  }

  /** A document overwritten by `$set` with `to_dict(u)` decodes to `u`. */
  lemma {:induction false} FromDictAfterSet(d: Doc, u: User)
    ensures FromDict(d + ToDict(u)) == Ok(u)
  {
    ToDictFields(u);
    var d' := d + ToDict(u);
    forall k | k in UserKeys ensures (k in d' <==> k in ToDict(u)) && (k in d' ==> d'[k] == ToDict(u)[k]) {
      assert k in ToDict(u);
    }
    FromDictReadsUserKeys(d', ToDict(u));
    RoundTrip(u);
  }

  // ----------------------------------------------------------- collection

  /** The filter `{"user_handle": h}`. */
  predicate HasHandle(d: Doc, h: string) {
    KHandle in d && d[KHandle] == JStr(h)
  }

  /** The position of the first document matching `{"user_handle": h}`. */
  function FirstMatch(docs: seq<Doc>, h: string): (r: Option<nat>)
    ensures r.Some? ==> r.value < |docs| && HasHandle(docs[r.value], h)
    ensures r.Some? ==> forall j :: 0 <= j < r.value ==> !HasHandle(docs[j], h)
    ensures r.None? ==> forall j :: 0 <= j < |docs| ==> !HasHandle(docs[j], h)
  {
    if docs == [] then None
    else if HasHandle(docs[0], h) then Some(0)
    else match FirstMatch(docs[1..], h)
      case None => None
      case Some(j) => Some(j + 1)
  }

  /** The first match is determined by the documents up to it and nothing after. */
  lemma FirstMatchAt(docs: seq<Doc>, h: string, i: nat)
    requires i < |docs| && HasHandle(docs[i], h)
    requires forall j :: 0 <= j < i ==> !HasHandle(docs[j], h)
    ensures FirstMatch(docs, h) == Some(i)
  {
  }

  /** `get_user`: the first matching document decoded by `from_dict` (whose errors
      propagate), or `None` when there is no match or the user fails `validate`. */
  function FindUser(docs: seq<Doc>, h: string): (r: Result<Option<User>>)
    ensures FirstMatch(docs, h).None? ==> r == Ok(None)
    ensures r.Err? ==> FirstMatch(docs, h).Some? && FromDict(docs[FirstMatch(docs, h).value]) == Err(r.error)
    ensures r.Ok? && r.value.Some? ==>
      FirstMatch(docs, h).Some? && FromDict(docs[FirstMatch(docs, h).value]) == Ok(r.value.value)
      && Validate(r.value.value) && r.value.value.userHandle == h
    ensures r == Ok(None) && FirstMatch(docs, h).Some? ==>
      FromDict(docs[FirstMatch(docs, h).value]).Ok? && !Validate(FromDict(docs[FirstMatch(docs, h).value]).value)
  {
    match FirstMatch(docs, h)
    case None => Ok(None)
    case Some(i) =>
      match FromDict(docs[i])
      case Err(e) => Err(e)
      case Ok(u) => if Validate(u) then Ok(Some(u)) else Ok(None)
  }

  /** The result of an operation on the collection and the collection after it. */
  datatype Outcome<T> = Outcome(result: Result<T>, docs: seq<Doc>)

  /** `create_user`: an invalid user raises `ValueError`; a valid one is inserted at
      the end (`insert_one` always yields an id, so the `RuntimeError` branch is
      never taken). */
  function CreateUserOutcome(docs: seq<Doc>, u: User): Outcome<User> {
    if !Validate(u) then Outcome(Err(ValueError("Invalid user data")), docs)
    else Outcome(Ok(u), docs + [ToDict(u)])
  }

  /** The error `update_user` raises when `update_one` modifies nothing. */
  function NotModified(h: string): Error {
    RuntimeError("Failed to update user " + h + " in the database")
  }

  /** `update_user`: `None` for a user `get_user` does not find; otherwise `$set` of
      `to_dict(u)` on the first match, which must change that document, and the user
      read back under the new handle. */
  function UpdateUserOutcome(docs: seq<Doc>, h: string, u: User): Outcome<Option<User>> {
    match FindUser(docs, h)
    case Err(e) => Outcome(Err(e), docs)
    case Ok(None) => Outcome(Ok(None), docs)
    case Ok(Some(_)) =>
      if !Validate(u) then Outcome(Err(ValueError("Invalid user data")), docs)
      else
        var i := FirstMatch(docs, h).value;
        var d := docs[i] + ToDict(u);
        if d == docs[i] then Outcome(Err(NotModified(h)), docs)
        else
          var docs' := docs[i := d];
          Outcome(FindUser(docs', u.userHandle), docs')
  }

  /** `update_field`: `$set` of one key on the first match; no match, or a value
      already stored, modifies nothing and raises `RuntimeError`. */
  function UpdateFieldOutcome(docs: seq<Doc>, h: string, name: string, value: Json): Outcome<Json> {
    match FirstMatch(docs, h)
    case None => Outcome(Err(RuntimeError("Failed to update " + name + " for user " + h)), docs)
    case Some(i) =>
      var d := docs[i][name := value];
      if d == docs[i] then Outcome(Err(RuntimeError("Failed to update " + name + " for user " + h)), docs)
      else Outcome(Ok(value), docs[i := d])
  }

  /** `delete_user`: removes the first match and returns the handle, or `None`. */
  function DeleteUserOutcome(docs: seq<Doc>, h: string): (o: Outcome<Option<string>>) {
    match FirstMatch(docs, h)
    case None => Outcome(Ok(None), docs)
    case Some(i) => Outcome(Ok(Some(h)), RemoveAt(docs, i))
  }

  /** `docs` without its `i`-th document, the others in order. */
  function RemoveAt(docs: seq<Doc>, i: nat): (r: seq<Doc>)
    requires i < |docs|
    ensures |r| == |docs| - 1
    ensures forall j :: 0 <= j < |r| ==> r[j] == if j < i then docs[j] else docs[j + 1]
  {
    docs[..i] + docs[i + 1..]
  }

  /** The edits the setters make to a user before `update_user` writes it back. */
  datatype Change =
    | AppendGroup(group: seq<AIDecision>)
    | SetTotal(n: int)
    | SetQualifiedTotal(n: int)
    | SetByMonth(counts: map<string, int>)
    | PutMonth(key: string, count: int)
    | SetStreak(n: int)

  function Apply(u: User, c: Change): (v: User)
    ensures v.userHandle == u.userHandle && v.githubName == u.githubName && v.repositories == u.repositories
  {
    match c
    case AppendGroup(g) => u.(aiDecisions := u.aiDecisions + [g])
    case SetTotal(n) => u.(totalDailyContributionNumber := n)
    case SetQualifiedTotal(n) => u.(totalQualifiedDailyContributionNumber := n)
    case SetByMonth(m) => u.(qualifiedDailyContributionNumberByMonth := m)
    case PutMonth(k, n) => u.(qualifiedDailyContributionNumberByMonth := u.qualifiedDailyContributionNumberByMonth[k := n])
    case SetStreak(n) => u.(qualifiedDailyContributionStreak := n)
  }

  function Missing(h: string): Error {
    ValueError("User with handle '" + h + "' does not exist")
  }

  /** The setters' common shape: `get_user`, `ValueError` when absent, edit the
      user, then `update_user`. */
  function ModifyOutcome(docs: seq<Doc>, h: string, c: Change): Outcome<Option<User>> {
    match FindUser(docs, h)
    case Err(e) => Outcome(Err(e), docs)
    case Ok(None) => Outcome(Err(Missing(h)), docs)
    case Ok(Some(user)) => UpdateUserOutcome(docs, h, Apply(user, c))
  }

  /** The key `f"{year}-{month.zfill(2)}"`. */
  function MonthKey(year: string, month: string): (k: string)
    ensures |month| >= 2 ==> k == year + "-" + month
    ensures |month| == 1 && month[0] != '+' && month[0] != '-' ==> k == year + "-0" + month
    ensures month == "" ==> k == year + "-00"
  {
    var z := Text.ZFill(month, 2);
    assert |month| == 1 && month[0] != '+' && month[0] != '-' ==> year + "-" + z == year + "-0" + month;
    year + "-" + z
  }

  /** `dict.fromkeys(dates, 1)`, the form in which the date set is written. */
  function DatesDict(dates: set<string>): Json {
    JObj(map x | x in dates :: JInt(1))
  }

  /** `set_qualified_daily_contribution_dates`: the result is `update_field`'s, the
      stored dict itself rather than a user. */
  function SetDatesOutcome(docs: seq<Doc>, h: string, dates: set<string>): Outcome<Json> {
    match FindUser(docs, h)
    case Err(e) => Outcome(Err(e), docs)
    case Ok(None) => Outcome(Err(Missing(h)), docs)
    case Ok(Some(_)) => UpdateFieldOutcome(docs, h, KDates, DatesDict(dates))
  }

  /** The set `dates` added to, as the loop of `add_qualified_daily_contribution_dates` builds it. */
  function AddAll(stored: set<string>, dates: seq<string>): (r: set<string>)
    ensures forall x :: x in r <==> x in stored || x in dates
  {
    stored + set x | x in dates
  }

  /** `add_qualified_daily_contribution_dates`. */
  function AddDatesOutcome(docs: seq<Doc>, h: string, dates: seq<string>): Outcome<Json> {
    match FindUser(docs, h)
    case Err(e) => Outcome(Err(e), docs)
    case Ok(None) => Outcome(Err(Missing(h)), docs)
    case Ok(Some(user)) => SetDatesOutcome(docs, h, AddAll(user.qualifiedDailyContributionDates, dates))
  }

  // ------------------------------------------------------------- properties

  /** Every key of `m` is already in `d` with the same value. */
  predicate Subsumes(d: Doc, m: Doc) {
    forall k :: k in m ==> k in d && d[k] == m[k]
  }

  /** `$set` of `m` leaves `d` unmodified exactly when `d` already holds `m`. */
  lemma MergeUnchanged(d: Doc, m: Doc)
    ensures d + m == d <==> Subsumes(d, m)
  {
    if Subsumes(d, m) {
      assert (d + m).Keys == d.Keys;
    }
  }

  /** `create_user` rejects an invalid user without writing; a valid user is
      appended, earlier documents stay as they were, and a user whose handle is new
      is then found by `get_user`. A second document for a handle already present
      stays invisible to `get_user`, which only reads the first. */
  lemma CreateThenFind(docs: seq<Doc>, u: User)
    ensures !Validate(u) ==> CreateUserOutcome(docs, u) == Outcome(Err(ValueError("Invalid user data")), docs)
    ensures Validate(u) ==> CreateUserOutcome(docs, u).result == Ok(u)
    ensures Validate(u) ==> |CreateUserOutcome(docs, u).docs| == |docs| + 1 && CreateUserOutcome(docs, u).docs[..|docs|] == docs
    ensures Validate(u) && FirstMatch(docs, u.userHandle).None? ==>
      FindUser(CreateUserOutcome(docs, u).docs, u.userHandle) == Ok(Some(u))
    ensures Validate(u) && FirstMatch(docs, u.userHandle).Some? ==>
      FindUser(CreateUserOutcome(docs, u).docs, u.userHandle) == FindUser(docs, u.userHandle)
  {
    if Validate(u) {
      var docs' := docs + [ToDict(u)];
      var h := u.userHandle;
      ToDictFields(u);
      match FirstMatch(docs, h)
      case None =>
        FirstMatchAt(docs', h, |docs|);
        RoundTrip(u);
      case Some(i) =>
        FirstMatchAt(docs', h, i);
        assert docs'[i] == docs[i];
    }
  }

  /** `update_user` with the handle kept: when the first match already holds every
      field of `to_dict(u)` it raises `RuntimeError` and writes nothing; otherwise it
      overwrites those fields and returns exactly `u`. */
  lemma UpdateSameHandle(docs: seq<Doc>, h: string, u: User)
    requires FindUser(docs, h).Ok? && FindUser(docs, h).value.Some?
    requires Validate(u) && u.userHandle == h
    ensures var i := FirstMatch(docs, h).value;
      Subsumes(docs[i], ToDict(u)) ==> UpdateUserOutcome(docs, h, u) == Outcome(Err(NotModified(h)), docs)
    ensures var i := FirstMatch(docs, h).value;
      !Subsumes(docs[i], ToDict(u)) ==>
        UpdateUserOutcome(docs, h, u) == Outcome(Ok(Some(u)), docs[i := docs[i] + ToDict(u)])
  {
    var i := FirstMatch(docs, h).value;
    MergeUnchanged(docs[i], ToDict(u));
    if !Subsumes(docs[i], ToDict(u)) {
      var d := docs[i] + ToDict(u);
      var docs' := docs[i := d];
      ToDictFields(u);
      assert d[KHandle] == JStr(h);
      FirstMatchAt(docs', h, i);
      FromDictAfterSet(docs[i], u);
    }
  }

  /** Writing back the very user that `get_user` decoded from a document in
      `to_dict` form modifies nothing, so `update_user` raises `RuntimeError`. */
  lemma UpdateUnchangedRaises(docs: seq<Doc>, h: string, user: User)
    requires FindUser(docs, h) == Ok(Some(user))
    requires docs[FirstMatch(docs, h).value] == ToDict(user)
    ensures UpdateUserOutcome(docs, h, user) == Outcome(Err(NotModified(h)), docs)
  {
    UpdateSameHandle(docs, h, user);
  }

  /** A setter whose edit changes the user always writes: the first match gets the
      edited fields and the edited user is returned. A missing user raises
      `ValueError` and writes nothing. */
  lemma ModifyWrites(docs: seq<Doc>, h: string, c: Change)
    ensures FindUser(docs, h) == Ok(None) ==> ModifyOutcome(docs, h, c) == Outcome(Err(Missing(h)), docs)
    ensures FindUser(docs, h).Ok? && FindUser(docs, h).value.Some? &&
            Apply(FindUser(docs, h).value.value, c) != FindUser(docs, h).value.value ==>
      var i := FirstMatch(docs, h).value;
      var v := Apply(FindUser(docs, h).value.value, c);
      ModifyOutcome(docs, h, c) == Outcome(Ok(Some(v)), docs[i := docs[i] + ToDict(v)])
  {
    if FindUser(docs, h).Ok? && FindUser(docs, h).value.Some? {
      var user := FindUser(docs, h).value.value;
      var v := Apply(user, c);
      if v != user {
        var i := FirstMatch(docs, h).value;
        UpdateSameHandle(docs, h, v);
        if Subsumes(docs[i], ToDict(v)) {
          MergeUnchanged(docs[i], ToDict(v));
          FromDictAfterSet(docs[i], v);
        }
      }
    }
  }

  /** `add_ai_decisions_by_user` on an existing user never meets the "nothing
      modified" error: it stores and returns the user with exactly one more group, at
      the end, the earlier groups unchanged. */
  lemma AddDecisionsAppends(docs: seq<Doc>, h: string, group: seq<AIDecision>)
    requires FindUser(docs, h).Ok? && FindUser(docs, h).value.Some?
    ensures var user := FindUser(docs, h).value.value;
      var o := ModifyOutcome(docs, h, AppendGroup(group));
      o.result.Ok? && o.result.value.Some?
      && o.result.value.value.aiDecisions == user.aiDecisions + [group]
      && o.result.value.value.aiDecisions[..|user.aiDecisions|] == user.aiDecisions
      && FindUser(o.docs, h) == o.result
  {
    var user := FindUser(docs, h).value.value;
    var v := Apply(user, AppendGroup(group));
    assert |v.aiDecisions| != |user.aiDecisions|;
    ModifyWrites(docs, h, AppendGroup(group));
    var i := FirstMatch(docs, h).value;
    var docs' := docs[i := docs[i] + ToDict(v)];
    ToDictFields(v);
    FirstMatchAt(docs', h, i);
    FromDictAfterSet(docs[i], v);
  }

  /** `add_qualified_daily_contribution_number_by_month` sets its month key to the
      number and leaves every other month and every other field as it was. */
  lemma PutMonthOverwrites(u: User, year: string, month: string, n: int)
    ensures var v := Apply(u, PutMonth(MonthKey(year, month), n));
      var key := MonthKey(year, month);
      key in v.qualifiedDailyContributionNumberByMonth && v.qualifiedDailyContributionNumberByMonth[key] == n
      && (forall k :: k != key ==>
            (k in v.qualifiedDailyContributionNumberByMonth <==> k in u.qualifiedDailyContributionNumberByMonth))
      && (forall k :: k != key && k in u.qualifiedDailyContributionNumberByMonth ==>
            v.qualifiedDailyContributionNumberByMonth[k] == u.qualifiedDailyContributionNumberByMonth[k])
      && v.(qualifiedDailyContributionNumberByMonth := u.qualifiedDailyContributionNumberByMonth) == u
  {
  }

  /** A document whose date field is replaced by `dict.fromkeys(dates, 1)` decodes
      to the same user with `dates` as its date set. */
  lemma FromDictSetDates(d: Doc, dates: set<string>)
    requires FromDict(d).Ok?
    ensures FromDict(d[KDates := DatesDict(dates)]) == Ok(FromDict(d).value.(qualifiedDailyContributionDates := dates))
  {
    var d' := d[KDates := DatesDict(dates)];
    assert (map x | x in dates :: JInt(1)).Keys == dates;
    assert DecodeDates(DatesDict(dates)) == Ok(dates);
    assert FieldOr(d', KDecisions, JArr([])) == FieldOr(d, KDecisions, JArr([]));
    assert Get(JObj(d'), KHandle) == Get(JObj(d), KHandle);
    assert Get(JObj(d'), KGithub) == Get(JObj(d), KGithub);
    assert FieldOr(d', KTotal, JInt(0)) == FieldOr(d, KTotal, JInt(0));
    assert FieldOr(d', KQualifiedTotal, JInt(0)) == FieldOr(d, KQualifiedTotal, JInt(0));
    assert FieldOr(d', KByMonth, JObj(map[])) == FieldOr(d, KByMonth, JObj(map[]));
    assert FieldOr(d', KStreak, JInt(0)) == FieldOr(d, KStreak, JInt(0));
    assert FieldOr(d', KRepos, JArr([])) == FieldOr(d, KRepos, JArr([]));
  }

  /** `add_qualified_daily_contribution_dates` stores the union of the user's dates
      and the new ones, so `get_user` then reads back exactly that union; when the
      stored dict already equals it, nothing is modified and `RuntimeError` is raised. */
  lemma AddDatesStoresUnion(docs: seq<Doc>, h: string, dates: seq<string>)
    requires FindUser(docs, h).Ok? && FindUser(docs, h).value.Some?
    ensures var user := FindUser(docs, h).value.value;
      var all := AddAll(user.qualifiedDailyContributionDates, dates);
      var o := AddDatesOutcome(docs, h, dates);
      (o.result.Ok? ==>
        o.result.value == DatesDict(all)
        && FindUser(o.docs, h) == Ok(Some(user.(qualifiedDailyContributionDates := all))))
      && (o.result.Err? ==> o.result.error.RuntimeError? && o.docs == docs)
  {
    var user := FindUser(docs, h).value.value;
    var all := AddAll(user.qualifiedDailyContributionDates, dates);
    var i := FirstMatch(docs, h).value;
    var d := docs[i][KDates := DatesDict(all)];
    if d != docs[i] {
      var docs' := docs[i := d];
      assert d[KHandle] == docs[i][KHandle];
      FirstMatchAt(docs', h, i);
      FromDictSetDates(docs[i], all);
    }
  }

  /** Removing a document that does not match `g` leaves `get_user(g)` as it was. */
  lemma RemoveOther(docs: seq<Doc>, i: nat, g: string)
    requires i < |docs| && !HasHandle(docs[i], g)
    ensures FindUser(RemoveAt(docs, i), g) == FindUser(docs, g)
  {
    var r := RemoveAt(docs, i);
    match FirstMatch(docs, g)
    case None =>
      assert forall j :: 0 <= j < |r| ==> !HasHandle(r[j], g);
    case Some(k) =>
      if k < i {
        FirstMatchAt(r, g, k);
      } else {
        FirstMatchAt(r, g, k - 1);
      }
  }

  /** Removing the only document that matches `h` leaves no match. */
  lemma RemoveOnly(docs: seq<Doc>, i: nat, h: string)
    requires i < |docs|
    requires forall j :: 0 <= j < |docs| && j != i ==> !HasHandle(docs[j], h)
    ensures FirstMatch(RemoveAt(docs, i), h).None?
  {
    var r := RemoveAt(docs, i);
    assert forall j :: 0 <= j < |r| ==> !HasHandle(r[j], h);
  }

  /** `delete_user` removes only the first match: every other handle is found as
      before, and a handle held by one document only is then gone. */
  lemma DeleteOnlyFirst(docs: seq<Doc>, h: string)
    ensures FirstMatch(docs, h).None? ==> DeleteUserOutcome(docs, h) == Outcome(Ok(None), docs)
    ensures FirstMatch(docs, h).Some? ==> DeleteUserOutcome(docs, h).result == Ok(Some(h))
    ensures forall g :: g != h ==> FindUser(DeleteUserOutcome(docs, h).docs, g) == FindUser(docs, g)
    ensures FirstMatch(docs, h).Some? &&
            (forall j :: 0 <= j < |docs| && j != FirstMatch(docs, h).value ==> !HasHandle(docs[j], h)) ==>
      FindUser(DeleteUserOutcome(docs, h).docs, h) == Ok(None)
  {
    match FirstMatch(docs, h)
    case None =>
    case Some(i) =>
      forall g | g != h ensures FindUser(RemoveAt(docs, i), g) == FindUser(docs, g) {
        RemoveOther(docs, i, g);
      }
      if forall j :: 0 <= j < |docs| && j != i ==> !HasHandle(docs[j], h) {
        RemoveOnly(docs, i, h);
      }
  }

  // ---------------------------------------------------------------- getters
  // The read-only methods of `MongoDBManagement` are functions of the collection.

  /** The integer `0` that two getters return, in place of an empty dict or set,
      when there is no user. */
  datatype OrZero<T> = Value(value: T) | Zero

  /** The first document with handle `h`. */
  function FirstDoc(docs: seq<Doc>, h: string): Doc
    requires FirstMatch(docs, h).Some?
  {
    docs[FirstMatch(docs, h).value]
  }

  /** The first document with handle `h` decodes to a valid user. */
  predicate HasValidUser(docs: seq<Doc>, h: string) {
    FindUser(docs, h).Ok? && FindUser(docs, h).value.Some?
  }

  /** `get_ai_decisions_by_user`: the field as the first document with the handle
      stores it (its default when absent), the fallback without a valid user, and
      the decode error otherwise. */
  function GetAiDecisionsByUser(docs: seq<Doc>, h: string): (r: Result<seq<seq<AIDecision>>>)
    ensures r.Err? <==> FindUser(docs, h).Err?
    ensures FindUser(docs, h) == Ok(None) ==> r == Ok([])
    ensures HasValidUser(docs, h) ==>
      r.Ok? && FirstMatch(docs, h).Some? && DecodeGroups(FieldOr(FirstDoc(docs, h), KDecisions, JArr([]))) == Ok(r.value)
  {
    match FindUser(docs, h)
    case Err(e) => Err(e)
    case Ok(None) => Ok([])
    case Ok(Some(u)) => Ok(u.aiDecisions)
  }

  /** `get_total_daily_contribution_number`: the field as the first document with the handle
      stores it (its default when absent), the fallback without a valid user, and
      the decode error otherwise. */
  function GetTotalDailyContributionNumber(docs: seq<Doc>, h: string): (r: Result<int>)
    ensures r.Err? <==> FindUser(docs, h).Err?
    ensures FindUser(docs, h) == Ok(None) ==> r == Ok(0)
    ensures HasValidUser(docs, h) ==>
      r.Ok? && FirstMatch(docs, h).Some? && FieldOr(FirstDoc(docs, h), KTotal, JInt(0)) == JInt(r.value)
  {
    match FindUser(docs, h)
    case Err(e) => Err(e)
    case Ok(None) => Ok(0)
    case Ok(Some(u)) => Ok(u.totalDailyContributionNumber)
  }

  /** `get_total_qualified_daily_contribution_number`: the field as the first document with the handle
      stores it (its default when absent), the fallback without a valid user, and
      the decode error otherwise. */
  function GetTotalQualifiedDailyContributionNumber(docs: seq<Doc>, h: string): (r: Result<int>)
    ensures r.Err? <==> FindUser(docs, h).Err?
    ensures FindUser(docs, h) == Ok(None) ==> r == Ok(0)
    ensures HasValidUser(docs, h) ==>
      r.Ok? && FirstMatch(docs, h).Some? && FieldOr(FirstDoc(docs, h), KQualifiedTotal, JInt(0)) == JInt(r.value)
  {
    match FindUser(docs, h)
    case Err(e) => Err(e)
    case Ok(None) => Ok(0)
    case Ok(Some(u)) => Ok(u.totalQualifiedDailyContributionNumber)
  }

  /** `get_qualified_daily_contribution_number_by_month`: the field as the first document with the handle
      stores it (its default when absent), the fallback without a valid user, and
      the decode error otherwise. */
  function GetQualifiedDailyContributionNumberByMonth(docs: seq<Doc>, h: string): (r: Result<OrZero<map<string, int>>>)
    ensures r.Err? <==> FindUser(docs, h).Err?
    ensures FindUser(docs, h) == Ok(None) ==> r == Ok(Zero)
    ensures HasValidUser(docs, h) ==>
      r.Ok? && FirstMatch(docs, h).Some? && r.value.Value?
      && DecodeCounts(FieldOr(FirstDoc(docs, h), KByMonth, JObj(map[]))) == Ok(r.value.value)
  {
    match FindUser(docs, h)
    case Err(e) => Err(e)
    case Ok(None) => Ok(Zero)
    case Ok(Some(u)) => Ok(Value(u.qualifiedDailyContributionNumberByMonth))
  }

  /** `get_qualified_daily_contribution_dates`: the field as the first document with the handle
      stores it (its default when absent), the fallback without a valid user, and
      the decode error otherwise. */
  function GetQualifiedDailyContributionDates(docs: seq<Doc>, h: string): (r: Result<OrZero<set<string>>>)
    ensures r.Err? <==> FindUser(docs, h).Err?
    ensures FindUser(docs, h) == Ok(None) ==> r == Ok(Zero)
    ensures HasValidUser(docs, h) ==>
      r.Ok? && FirstMatch(docs, h).Some? && r.value.Value?
      && DecodeDates(FieldOr(FirstDoc(docs, h), KDates, JArr([]))) == Ok(r.value.value)
  {
    match FindUser(docs, h)
    case Err(e) => Err(e)
    case Ok(None) => Ok(Zero)
    case Ok(Some(u)) => Ok(Value(u.qualifiedDailyContributionDates))
  }

  /** `get_qualified_daily_contribution_streak`: the field as the first document with the handle
      stores it (its default when absent), the fallback without a valid user, and
      the decode error otherwise. */
  function GetQualifiedDailyContributionStreak(docs: seq<Doc>, h: string): (r: Result<int>)
    ensures r.Err? <==> FindUser(docs, h).Err?
    ensures FindUser(docs, h) == Ok(None) ==> r == Ok(0)
    ensures HasValidUser(docs, h) ==>
      r.Ok? && FirstMatch(docs, h).Some? && FieldOr(FirstDoc(docs, h), KStreak, JInt(0)) == JInt(r.value)
  {
    match FindUser(docs, h)
    case Err(e) => Err(e)
    case Ok(None) => Ok(0)
    case Ok(Some(u)) => Ok(u.qualifiedDailyContributionStreak)
  }

  /** Without a valid user every getter returns its fallback: no decisions, zero
      counts, and the integer 0 for the month counts and the date set. */
  lemma GettersOfMissingUser(docs: seq<Doc>, h: string)
    requires FindUser(docs, h) == Ok(None)
    ensures GetAiDecisionsByUser(docs, h) == Ok([])
    ensures GetTotalDailyContributionNumber(docs, h) == Ok(0)
    ensures GetTotalQualifiedDailyContributionNumber(docs, h) == Ok(0)
    ensures GetQualifiedDailyContributionNumberByMonth(docs, h) == Ok(Zero)
    ensures GetQualifiedDailyContributionDates(docs, h) == Ok(Zero)
    ensures GetQualifiedDailyContributionStreak(docs, h) == Ok(0)
  {
  }

  /** A user created with only handle, GitHub name and repositories reads back
      with the dataclass defaults. */
  lemma GettersOfNewUser(docs: seq<Doc>, h: string, github: string, repositories: seq<string>)
    requires FirstMatch(docs, h).None?
    ensures var docs' := CreateUserOutcome(docs, NewUser(h, github, repositories)).docs;
      GetAiDecisionsByUser(docs', h) == Ok([])
      && GetTotalDailyContributionNumber(docs', h) == Ok(0)
      && GetTotalQualifiedDailyContributionNumber(docs', h) == Ok(0)
      && GetQualifiedDailyContributionNumberByMonth(docs', h) == Ok(Value(map[]))
      && GetQualifiedDailyContributionDates(docs', h) == Ok(Value({}))
      && GetQualifiedDailyContributionStreak(docs', h) == Ok(0)
  {
    var u := NewUser(h, github, repositories);
    assert Validate(u);
    CreateThenFind(docs, u);
  }

  // ------------------------------------------------------------ date range

  /** `datetime.strptime(decision.date, "%Y-%m-%d")` as a day number. */
  function DayOf(x: AIDecision): Result<int> {
    match Calendar.ParseYmd(x.date)
    case Err(e) => Err(e)
    case Ok(d) => Ok(Calendar.Ordinal(d))
  }

  /** `since <= day(decision) <= until`. */
  predicate InWindow(x: AIDecision, day: AIDecision -> Result<int>, lo: int, hi: int) {
    day(x).Ok? && lo <= day(x).value <= hi
  }

  /** `a` is `b` with some elements left out and the others in their order. */
  predicate IsSubsequence<T(==)>(a: seq<T>, b: seq<T>)
    decreases |b|
  {
    if a == [] then true
    else if b == [] then false
    else (a[0] == b[0] && IsSubsequence(a[1..], b[1..])) || IsSubsequence(a, b[1..])
  }

  /** How many decisions of `ds` lie inside the window. */
  function CountInWindow(ds: seq<AIDecision>, day: AIDecision -> Result<int>, lo: int, hi: int): nat {
    if ds == [] then 0 else (if InWindow(ds[0], day, lo, hi) then 1 else 0) + CountInWindow(ds[1..], day, lo, hi)
  }

  /** The comprehension over one decision list: the decisions inside the window in
      their order; a date that does not parse raises the first error. The day
      function is a parameter (`DayOf` in the model). The result is a subsequence
      of `ds` made only of in-window decisions and as long as their number, so it
      is exactly the in-window decisions in input order. */
  function KeepInRange(ds: seq<AIDecision>, day: AIDecision -> Result<int>, lo: int, hi: int): (r: Result<seq<AIDecision>>)
    ensures r.Ok? <==> forall i :: 0 <= i < |ds| ==> day(ds[i]).Ok?
    ensures r.Ok? ==> forall x :: x in r.value <==> x in ds && InWindow(x, day, lo, hi)
    ensures r.Ok? ==> IsSubsequence(r.value, ds) && |r.value| == CountInWindow(ds, day, lo, hi)
  {
    if ds == [] then Ok([])
    else
      var d :- day(ds[0]);
      var rest :- KeepInRange(ds[1..], day, lo, hi);
      if lo <= d <= hi then
        assert ([ds[0]] + rest)[1..] == rest;
        Ok([ds[0]] + rest)
      else
        Ok(rest)
  }

  /** The loop over the decision groups: each group filtered, empty ones dropped. */
  function FilterGroups(gs: seq<seq<AIDecision>>, day: AIDecision -> Result<int>, lo: int, hi: int): (r: Result<seq<seq<AIDecision>>>)
    ensures r.Ok? ==> forall k :: 0 <= k < |r.value| ==> r.value[k] != []
  {
    if gs == [] then Ok([])
    else
      var init :- FilterGroups(gs[..|gs| - 1], day, lo, hi);
      var kept :- KeepInRange(gs[|gs| - 1], day, lo, hi);
      Ok(if kept == [] then init else init + [kept])
  }

  /** The first failing group decides the outcome: later groups are never read. */
  lemma {:induction false} FilterGroupsStopsAtError(gs: seq<seq<AIDecision>>, k: nat, day: AIDecision -> Result<int>, lo: int, hi: int)
    requires k <= |gs| && FilterGroups(gs[..k], day, lo, hi).Err?
    decreases |gs|
    ensures FilterGroups(gs, day, lo, hi) == FilterGroups(gs[..k], day, lo, hi)
  {
    if k == |gs| {
      assert gs[..k] == gs;
    } else {
      var init := gs[..|gs| - 1];
      assert init[..k] == gs[..k];
      FilterGroupsStopsAtError(init, k, day, lo, hi);
    }
  }

  /** All decisions of all groups, in order. */
  function Concat(gs: seq<seq<AIDecision>>): seq<AIDecision> {
    if gs == [] then [] else Concat(gs[..|gs| - 1]) + gs[|gs| - 1]
  }

  lemma {:induction false} KeepAppend(a: seq<AIDecision>, b: seq<AIDecision>, day: AIDecision -> Result<int>, lo: int, hi: int)
    ensures KeepInRange(a + b, day, lo, hi) ==
      if KeepInRange(a, day, lo, hi).Err? then KeepInRange(a, day, lo, hi)
      else if KeepInRange(b, day, lo, hi).Err? then KeepInRange(b, day, lo, hi)
      else Ok(KeepInRange(a, day, lo, hi).value + KeepInRange(b, day, lo, hi).value)
  {
    if a == [] {
      assert a + b == b;
      if KeepInRange(b, day, lo, hi).Ok? {
        assert [] + KeepInRange(b, day, lo, hi).value == KeepInRange(b, day, lo, hi).value;
      }
    } else {
      assert (a + b)[0] == a[0] && (a + b)[1..] == a[1..] + b;
      KeepAppend(a[1..], b, day, lo, hi);
      if day(a[0]).Ok? && KeepInRange(a[1..], day, lo, hi).Ok? && KeepInRange(b, day, lo, hi).Ok? {
        if lo <= day(a[0]).value <= hi {
          assert [a[0]] + (KeepInRange(a[1..], day, lo, hi).value + KeepInRange(b, day, lo, hi).value)
              == ([a[0]] + KeepInRange(a[1..], day, lo, hi).value) + KeepInRange(b, day, lo, hi).value;
        }
      }
    }
  }

  /** Filtering group by group and dropping the empty groups loses nothing and adds
      nothing: the decisions kept, read in order, are exactly the in-window decisions
      of all groups read in order, and an unparsable date raises the same error. */
  lemma {:induction false} FilterGroupsFlatten(gs: seq<seq<AIDecision>>, day: AIDecision -> Result<int>, lo: int, hi: int)
    ensures FilterGroups(gs, day, lo, hi).Ok? ==>
      KeepInRange(Concat(gs), day, lo, hi) == Ok(Concat(FilterGroups(gs, day, lo, hi).value))
    ensures FilterGroups(gs, day, lo, hi).Err? ==> KeepInRange(Concat(gs), day, lo, hi) == Err(FilterGroups(gs, day, lo, hi).error)
  {
    if gs != [] {
      var init := gs[..|gs| - 1];
      var last := gs[|gs| - 1];
      FilterGroupsFlatten(init, day, lo, hi);
      KeepAppend(Concat(init), last, day, lo, hi);
      var fi := FilterGroups(init, day, lo, hi);
      var kl := KeepInRange(last, day, lo, hi);
      if fi.Ok? && kl.Ok? {
        if kl.value == [] {
          assert Concat(fi.value) + [] == Concat(fi.value);
        } else {
          var r := fi.value + [kl.value];
          assert r[..|r| - 1] == fi.value;
        }
      }
    }
  }

  /** `get_ai_decisions_by_user_and_daterange`: `[]` for a missing user, whatever the
      dates; otherwise the two bounds parsed with `%Y-%m-%d` and the groups filtered. */
  function DecisionsInRange(docs: seq<Doc>, h: string, since: string, until: string): Result<seq<seq<AIDecision>>> {
    match FindUser(docs, h)
    case Err(e) => Err(e)
    case Ok(None) => Ok([])
    case Ok(Some(user)) =>
      var s :- Calendar.ParseYmd(since);
      var u :- Calendar.ParseYmd(until);
      FilterGroups(user.aiDecisions, DayOf, Calendar.Ordinal(s), Calendar.Ordinal(u))
  }

  // ---------------------------------------------------------------- manager

  /** `MongoDBManagement` over one collection. */
  class MongoDBManagement {
    var collection: seq<Doc>

    constructor (docs: seq<Doc>)
      ensures collection == docs
    {
      collection := docs;
    }

    method CreateUser(u: User) returns (r: Result<User>)
      modifies this
      ensures Outcome(r, collection) == CreateUserOutcome(old(collection), u)
    {
      if !Validate(u) {
        return Err(ValueError("Invalid user data"));
      }
      collection := collection + [ToDict(u)];
      r := Ok(u);
    }

    method UpdateUser(h: string, u: User) returns (r: Result<Option<User>>)
      modifies this
      ensures Outcome(r, collection) == UpdateUserOutcome(old(collection), h, u)
    {
      var found := FindUser(collection, h);
      if found.Err? {
        return Err(found.error);
      }
      if found.value.None? {
        return Ok(None);
      }
      if !Validate(u) {
        return Err(ValueError("Invalid user data"));
      }
      var i := FirstMatch(collection, h).value;
      var d := collection[i] + ToDict(u);
      if d == collection[i] {
        return Err(NotModified(h));
      }
      collection := collection[i := d];
      r := FindUser(collection, u.userHandle);
    }

    method UpdateField(h: string, name: string, value: Json) returns (r: Result<Json>)
      modifies this
      ensures Outcome(r, collection) == UpdateFieldOutcome(old(collection), h, name, value)
    {
      var m := FirstMatch(collection, h);
      if m.None? {
        return Err(RuntimeError("Failed to update " + name + " for user " + h));
      }
      var d := collection[m.value][name := value];
      if d == collection[m.value] {
        return Err(RuntimeError("Failed to update " + name + " for user " + h));
      }
      collection := collection[m.value := d];
      r := Ok(value);
    }

    method DeleteUser(h: string) returns (r: Option<string>)
      modifies this
      ensures Outcome(Ok(r), collection) == DeleteUserOutcome(old(collection), h)
    {
      var m := FirstMatch(collection, h);
      if m.None? {
        return None;
      }
      collection := RemoveAt(collection, m.value);
      r := Some(h);
    }

    /** `get_user`, `ValueError` when absent, edit, `update_user`. */
    method ModifyUser(h: string, c: Change) returns (r: Result<Option<User>>)
      modifies this
      ensures Outcome(r, collection) == ModifyOutcome(old(collection), h, c)
    {
      var found := FindUser(collection, h);
      if found.Err? {
        return Err(found.error);
      }
      if found.value.None? {
        return Err(Missing(h));
      }
      r := UpdateUser(h, Apply(found.value.value, c));
    }

    method AddAiDecisionsByUser(h: string, group: seq<AIDecision>) returns (r: Result<Option<User>>)
      modifies this
      ensures Outcome(r, collection) == ModifyOutcome(old(collection), h, AppendGroup(group))
    {
      r := ModifyUser(h, AppendGroup(group));
    }

    method SetTotalDailyContributionNumber(h: string, n: int) returns (r: Result<Option<User>>)
      modifies this
      ensures Outcome(r, collection) == ModifyOutcome(old(collection), h, SetTotal(n))
    {
      r := ModifyUser(h, SetTotal(n));
    }

    method SetTotalQualifiedDailyContributionNumber(h: string, n: int) returns (r: Result<Option<User>>)
      modifies this
      ensures Outcome(r, collection) == ModifyOutcome(old(collection), h, SetQualifiedTotal(n))
    {
      r := ModifyUser(h, SetQualifiedTotal(n));
    }

    method SetQualifiedDailyContributionNumberByMonth(h: string, counts: map<string, int>) returns (r: Result<Option<User>>)
      modifies this
      ensures Outcome(r, collection) == ModifyOutcome(old(collection), h, SetByMonth(counts))
    {
      r := ModifyUser(h, SetByMonth(counts));
    }

    method AddQualifiedDailyContributionNumberByMonth(h: string, year: string, month: string, n: int)
      returns (r: Result<Option<User>>)
      modifies this
      ensures Outcome(r, collection) == ModifyOutcome(old(collection), h, PutMonth(MonthKey(year, month), n))
    {
      r := ModifyUser(h, PutMonth(MonthKey(year, month), n));
    }

    method SetQualifiedDailyContributionStreak(h: string, n: int) returns (r: Result<Option<User>>)
      modifies this
      ensures Outcome(r, collection) == ModifyOutcome(old(collection), h, SetStreak(n))
    {
      r := ModifyUser(h, SetStreak(n));
    }

    method SetQualifiedDailyContributionDates(h: string, dates: set<string>) returns (r: Result<Json>)
      modifies this
      ensures Outcome(r, collection) == SetDatesOutcome(old(collection), h, dates)
    {
      var found := FindUser(collection, h);
      if found.Err? {
        return Err(found.error);
      }
      if found.value.None? {
        return Err(Missing(h));
      }
      r := UpdateField(h, KDates, DatesDict(dates));
    }

    method AddQualifiedDailyContributionDates(h: string, dates: seq<string>) returns (r: Result<Json>)
      modifies this
      ensures Outcome(r, collection) == AddDatesOutcome(old(collection), h, dates)
    {
      var found := FindUser(collection, h);
      if found.Err? {
        return Err(found.error);
      }
      if found.value.None? {
        return Err(Missing(h));
      }
      var stored := found.value.value.qualifiedDailyContributionDates;
      var all := stored;
      for k := 0 to |dates|
        invariant all == AddAll(stored, dates[..k])
      {
        assert dates[..k + 1] == dates[..k] + [dates[k]];
        all := all + {dates[k]};
      }
      assert dates[..|dates|] == dates;
      r := SetQualifiedDailyContributionDates(h, all);
    }

    method GetAiDecisionsByUserAndDaterange(h: string, since: string, until: string)
      returns (r: Result<seq<seq<AIDecision>>>)
      ensures r == DecisionsInRange(collection, h, since, until)
    {
      var found := FindUser(collection, h);
      if found.Err? {
        return Err(found.error);
      }
      if found.value.None? {
        return Ok([]);
      }
      var groups := found.value.value.aiDecisions;
      var s := Calendar.ParseYmd(since);
      if s.Err? {
        return Err(s.error);
      }
      var u := Calendar.ParseYmd(until);
      if u.Err? {
        return Err(u.error);
      }
      r := FilterDecisionGroups(groups, Calendar.Ordinal(s.value), Calendar.Ordinal(u.value));
    }

    /** The loop of `get_ai_decisions_by_user_and_daterange` over the user's groups. */
    static method FilterDecisionGroups(groups: seq<seq<AIDecision>>, lo: int, hi: int)
      returns (r: Result<seq<seq<AIDecision>>>)
      ensures r == FilterGroups(groups, DayOf, lo, hi)
    {
      var filtered: seq<seq<AIDecision>> := [];
      for k := 0 to |groups|
        invariant FilterGroups(groups[..k], DayOf, lo, hi) == Ok(filtered)
      {
        assert groups[..k + 1][..k] == groups[..k];
        var kept := KeepInRange(groups[k], DayOf, lo, hi);
        if kept.Err? {
          FilterGroupsStopsAtError(groups, k + 1, DayOf, lo, hi);
          return Err(kept.error);
        }
        if kept.value != [] {
          filtered := filtered + [kept.value];
        }
      }
      assert groups[..|groups|] == groups;
      r := Ok(filtered);
    }
  }
}
