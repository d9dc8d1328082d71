/** The decision assembly of github_tracker_bot/bot_functions.py: the qualified-day
    counter, turning decision dicts into `AIDecision` records, building one day's
    decision entry and collecting a repository's day results. The commit fetcher,
    the LLM decider and `json.loads` are parameters. */
module Bot {
  import opened Wrappers
  import opened JsonValue
  import Text
  import opened Commits
  import opened TokenBudget
  import opened ExceedHandler
  import PC = ProcessCommits
  import Calendar
  import MongoStore
  import Stats

  // ------------------------------------------------------------ qualified days

  /** The dictionary `count_qualified_contributions_by_date` returns. */
  datatype QualifiedCount = QualifiedCount(qualifiedDays: seq<string>, count: nat)

  /** What `count_qualified_contributions_by_date` computes: both bounds parsed, then
      the qualified days of the decisions inside the inclusive window. */
  function QualifiedByDate(fullResult: seq<seq<MongoStore.AIDecision>>, since: string, until: string): Result<QualifiedCount> {
    var lo :- Stats.IsoStamp(since);
    var hi :- Stats.IsoStamp(until);
    var w :- Stats.WindowDays(MongoStore.Concat(fullResult), Stats.IsoStamp, lo.seconds, hi.seconds);
    Ok(QualifiedCount(Text.SortedElements(w.qualified), |w.qualified|))
  }

  /** The reported days are, in increasing order and each once, exactly the days of
      the qualified decisions inside the window; the count is their number. */
  lemma QualifiedByDateMeaning(fullResult: seq<seq<MongoStore.AIDecision>>, since: string, until: string, y: string)
    requires QualifiedByDate(fullResult, since, until).Ok?
    ensures var c := QualifiedByDate(fullResult, since, until).value;
      var lo, hi := Stats.IsoStamp(since).value.seconds, Stats.IsoStamp(until).value.seconds;
      Text.StrictlySorted(c.qualifiedDays) && c.count == |c.qualifiedDays|
      && (y in c.qualifiedDays <==>
            exists k, j :: 0 <= k < |fullResult| && 0 <= j < |fullResult[k]|
              && Stats.Inside(fullResult[k][j], Stats.IsoStamp, lo, hi) && fullResult[k][j].response.isQualified
              && Stats.IsoStamp(fullResult[k][j].date).value.day == y)
  {
    var lo, hi := Stats.IsoStamp(since).value.seconds, Stats.IsoStamp(until).value.seconds;
    var w := Stats.WindowDays(MongoStore.Concat(fullResult), Stats.IsoStamp, lo, hi).value;
    Stats.WindowQualifiedOfGroups(fullResult, Stats.IsoStamp, lo, hi, y);
    Text.SortedElementsCard(w.qualified);
  }

  /** `count_qualified_contributions_by_date` of bot_functions.py. */
  method CountQualifiedContributionsByDate(fullResult: seq<seq<MongoStore.AIDecision>>, since: string, until: string)
    returns (r: Result<QualifiedCount>)
    ensures r == QualifiedByDate(fullResult, since, until)
  {
    var sinceStamp := Stats.IsoStamp(since);
    if sinceStamp.Err? {
      return Err(sinceStamp.error);
    }
    var untilStamp := Stats.IsoStamp(until);
    if untilStamp.Err? {
      return Err(untilStamp.error);
    }
    var sets := Stats.CollectWindowDays(fullResult, Stats.IsoStamp, sinceStamp.value.seconds, untilStamp.value.seconds);
    if sets.Err? {
      return Err(sets.error);
    }
    var sortedQualifiedDays := Text.SortedElements(sets.value.qualified);
    Text.SortedElementsCard(sets.value.qualified);
    r := Ok(QualifiedCount(sortedQualifiedDays, |sortedQualifiedDays|));
  }

  // ------------------------------------------------------------ decision records

  /** One entry of `create_ai_decisions_class`, read in the order the source reads
      it: `entry["response"]` and its four fields first, then the entry's own. */
  function EntryToDecision(entry: Json): (r: Result<MongoStore.AIDecision>)
    ensures r.Ok? ==>
      Get(entry, "username") == Ok(JStr(r.value.username))
      && Get(entry, "repository") == Ok(JStr(r.value.repository))
      && Get(entry, "date") == Ok(JStr(r.value.date))
    ensures r.Ok? ==>
      Get(entry, "response").Ok?
      && Get(Get(entry, "response").value, "username") == Ok(JStr(r.value.response.username))
      && Get(Get(entry, "response").value, "date") == Ok(JStr(r.value.response.date))
      && Get(Get(entry, "response").value, "is_qualified") == Ok(JBool(r.value.response.isQualified))
      && Get(Get(entry, "response").value, "explanation") == Ok(JStr(r.value.response.explanation))
    ensures Get(entry, "response").Err? ==> r == Err(Get(entry, "response").error)
  {
    var responseData :- Get(entry, "response");
    var rUsername :- Get(responseData, "username");
    var rDate :- Get(responseData, "date");
    var rQualified :- Get(responseData, "is_qualified");
    var rExplanation :- Get(responseData, "explanation");
    var username :- Get(entry, "username");
    var repository :- Get(entry, "repository");
    var date :- Get(entry, "date");
    var ru :- MongoStore.AsStr(rUsername);
    var rd :- MongoStore.AsStr(rDate);
    var rq :- MongoStore.AsBool(rQualified);
    var re :- MongoStore.AsStr(rExplanation);
    var u :- MongoStore.AsStr(username);
    var repo :- MongoStore.AsStr(repository);
    var dt :- MongoStore.AsStr(date);
    Ok(MongoStore.AIDecision(u, repo, dt, MongoStore.DailyContributionResponse(ru, rd, rq, re)))
  }

  /** Reading an entry here and reading it in `from_dict` agree: they succeed on the
      same entries and build the same record (only which error comes first differs). */
  lemma EntryAgreesWithStore(entry: Json)
    ensures EntryToDecision(entry).Ok? <==> MongoStore.DecodeDecision(entry).Ok?
    ensures EntryToDecision(entry).Ok? ==> EntryToDecision(entry) == MongoStore.DecodeDecision(entry)
  {
  }

  /** A stored decision reads back as itself. */
  lemma EntryRoundTrip(d: MongoStore.AIDecision)
    ensures EntryToDecision(MongoStore.DecisionToJson(d)) == Ok(d)
  {
  }

  /** `create_ai_decisions_class(data)`: one decision per entry, in order, with the
      fields copied one to one; the first malformed entry raises. */
  method CreateAiDecisionsClass(data: seq<Json>) returns (r: Result<seq<MongoStore.AIDecision>>)
    ensures r.Ok? <==> forall i :: 0 <= i < |data| ==> EntryToDecision(data[i]).Ok?
    ensures r.Ok? ==> |r.value| == |data| && forall i :: 0 <= i < |data| ==> Ok(r.value[i]) == EntryToDecision(data[i])
    ensures r.Err? ==> exists i :: 0 <= i < |data| && EntryToDecision(data[i]).Err? && r.error == EntryToDecision(data[i]).error
                                   && forall j :: 0 <= j < i ==> EntryToDecision(data[j]).Ok?
  {
    var decisions: seq<MongoStore.AIDecision> := [];
    for k := 0 to |data|
      invariant |decisions| == k
      invariant forall i :: 0 <= i < k ==> Ok(decisions[i]) == EntryToDecision(data[i])
    {
      var decision := EntryToDecision(data[k]);
      if decision.Err? {
        return Err(decision.error);
      }
      decisions := decisions + [decision.value];
    }
    r := Ok(decisions);
  }

  // ------------------------------------------------------------ one day's decision

  /** `decide_daily_commits(day, commits)`: the reply text, or None when the call
      raises or answers with something other than a string (such as `False`). */
  type Decider = (string, seq<Commit>) -> Option<string>

  /** `json.loads`: None when the text is not JSON. */
  type JsonParser = string -> Option<Json>

  /** The `data_entry` dict of `process_commit_day`. */
  function DayEntry(username: string, repoLink: string, day: string, response: Json): Json {
    JObj(map["username" := JStr(username), "repository" := JStr(repoLink), "date" := JStr(day), "response" := response])
  }

  /** `process_commit_day`: the entry with the parsed reply, or None when deciding or
      parsing fails. */
  function ProcessCommitDay(username: string, repoLink: string, day: string, commits: seq<Commit>,
                            decide: Decider, parse: JsonParser): (r: Option<Json>)
    ensures r.Some? <==> decide(day, commits).Some? && parse(decide(day, commits).value).Some?
    ensures r.Some? ==> EntryDay(r.value) == day
  {
    match decide(day, commits)
    case None => None
    case Some(response) =>
      match parse(response)
      case None => None
      case Some(j) => Some(DayEntry(username, repoLink, day, j))
  }

  /** An entry whose reply has the decision shape reads back as the decision for that
      user, repository and day. */
  lemma DayEntryDecodes(username: string, repoLink: string, day: string, commits: seq<Commit>,
                        decide: Decider, parse: JsonParser, response: MongoStore.DailyContributionResponse)
    requires decide(day, commits).Some? && parse(decide(day, commits).value) == Some(MongoStore.ResponseToJson(response))
    ensures ProcessCommitDay(username, repoLink, day, commits, decide, parse).Some?
    ensures EntryToDecision(ProcessCommitDay(username, repoLink, day, commits, decide, parse).value)
            == Ok(MongoStore.AIDecision(username, repoLink, day, response))
  {
  }

  // ------------------------------------------------------------ get_result

  /** The keys of the groups are in strictly increasing order. */
  predicate KeysSorted(gs: PC.Groups) {
    forall i, j :: 0 <= i < j < |gs| ==> Text.Less(gs[i].0, gs[j].0)
  }

  /** A key below `g`'s and below every key of `ys` is below every key of a
      permutation of `ys + [g]`. */
  lemma KeyBound(b: string, ys: PC.Groups, g: (string, seq<Commit>), t: PC.Groups)
    requires forall j :: 0 <= j < |ys| ==> Text.Less(b, ys[j].0)
    requires Text.Less(b, g.0) && multiset(t) == multiset(ys) + multiset{g}
    ensures forall j :: 0 <= j < |t| ==> Text.Less(b, t[j].0)
  {
    forall j | 0 <= j < |t| ensures Text.Less(b, t[j].0) {
      assert t[j] in multiset(t);
      if t[j] != g {
        assert t[j] in multiset(ys);
        var k :| 0 <= k < |ys| && ys[k] == t[j];
      }
    }
  }

  function InsertByKey(g: (string, seq<Commit>), gs: PC.Groups): (r: PC.Groups)
    requires KeysSorted(gs) && forall j :: 0 <= j < |gs| ==> gs[j].0 != g.0
    ensures KeysSorted(r) && multiset(r) == multiset(gs) + multiset{g}
  {
    if gs == [] then [g]
    else if Text.Less(g.0, gs[0].0) then
      assert forall j :: 0 <= j < |gs| ==> Text.Less(g.0, gs[j].0) by {
        forall j | 0 <= j < |gs| ensures Text.Less(g.0, gs[j].0) {
          if j > 0 { Text.LessTransitive(g.0, gs[0].0, gs[j].0); }
        }
      }
      [g] + gs
    else
      Text.LessTotal(g.0, gs[0].0);
      var ys := gs[1..];
      assert KeysSorted(ys) && forall j :: 0 <= j < |ys| ==> ys[j].0 != g.0 && Text.Less(gs[0].0, ys[j].0);
      var t := InsertByKey(g, ys);
      assert gs == [gs[0]] + ys;
      KeyBound(gs[0].0, ys, g, t);
      [gs[0]] + t
  }

  /** `sorted(groups.items())` on a dict, whose keys are distinct. */
  function SortByKey(gs: PC.Groups): (r: PC.Groups)
    requires PC.KeysDistinct(gs)
    ensures KeysSorted(r) && multiset(r) == multiset(gs)
  {
    if gs == [] then []
    else
      var n := |gs| - 1;
      assert gs == gs[..n] + [gs[n]];
      var s := SortByKey(gs[..n]);
      assert forall j :: 0 <= j < |s| ==> s[j].0 != gs[n].0 by {
        forall j | 0 <= j < |s| ensures s[j].0 != gs[n].0 {
          assert s[j] in multiset(gs[..n]);
        }
      }
      InsertByKey(gs[n], s)
  }

  /** `process_commits(commit_infos)` as a value: the day groups of the processed
      commits, each sorted and passed through the exceed handler. */
  function ProcessedGroups(t: Tokenizer, rd: Renderer, infos: seq<PC.CommitInfo>, diffs: seq<Option<string>>)
    : (r: Result<PC.Groups>)
    ensures r.Ok? ==> PC.KeysDistinct(r.value)
  {
    var cs :- PC.Processed(infos, diffs);
    if PC.GroupAndSortError(cs).Some? then Err(PC.GroupAndSortError(cs).value)
    else
      var gs := PC.SortGroups(PC.GroupByDay(cs));
      PC.GroupAndSortKeys(cs);
      Ok(seq(|gs|, i requires 0 <= i < |gs| => (gs[i].0, Handled(t, rd, gs[i].1))))
  }

  /** One day's step of the last loop of `get_result`: a day and its commits to the
      day entry, or None. */
  type DayStep = (string, seq<Commit>) -> Option<Json>

  /** `process_commit_day` for one user and repository, as a step. */
  function ProcessDayStep(username: string, repoLink: string, decide: Decider, parse: JsonParser): (step: DayStep)
    ensures forall d, cs :: step(d, cs) == ProcessCommitDay(username, repoLink, d, cs, decide, parse)
  {
    (d, cs) => ProcessCommitDay(username, repoLink, d, cs, decide, parse)
  }

  /** The day results kept by the last loop of `get_result`: one entry per day whose
      step succeeded, in the order of the days. */
  function DayResults(gs: PC.Groups, step: DayStep): seq<Json> {
    if gs == [] then []
    else
      var rest := DayResults(gs[..|gs| - 1], step);
      var g := gs[|gs| - 1];
      match step(g.0, g.1)
      case None => rest
      case Some(e) => rest + [e]
  }

  /** The `date` field of a day entry. */
  function EntryDay(e: Json): string {
    if e.JObj? && "date" in e.fields && e.fields["date"].JStr? then e.fields["date"].s else ""
  }

  /** A day result is exactly the entry of a day whose step succeeded. */
  lemma {:induction false} DayResultsMembers(gs: PC.Groups, step: DayStep)
    decreases |gs|
    ensures var rs := DayResults(gs, step);
      forall e :: e in rs <==> exists k :: 0 <= k < |gs| && step(gs[k].0, gs[k].1) == Some(e)
  {
    if gs != [] {
      var n := |gs| - 1;
      var p := gs[..n];
      DayResultsMembers(p, step);
      var rest := DayResults(p, step);
      var rs := DayResults(gs, step);
      forall e ensures e in rs <==> exists k :: 0 <= k < |gs| && step(gs[k].0, gs[k].1) == Some(e) {
        if exists k :: 0 <= k < |gs| && step(gs[k].0, gs[k].1) == Some(e) {
          var k :| 0 <= k < |gs| && step(gs[k].0, gs[k].1) == Some(e);
          if k < n {
            assert gs[k] == p[k];
          }
        }
        if e in rest {
          var k :| 0 <= k < n && step(p[k].0, p[k].1) == Some(e);
          assert gs[k] == p[k];
        }
      }
    }
  }

  /** When every entry a step makes carries its day, each result carries the day of
      one of the groups, and over days in increasing order the results come in
      increasing date order. */
  lemma {:induction false} DayResultsOrdered(gs: PC.Groups, step: DayStep)
    requires forall d, cs :: step(d, cs).Some? ==> EntryDay(step(d, cs).value) == d
    decreases |gs|
    ensures forall i :: 0 <= i < |DayResults(gs, step)| ==>
      exists k :: 0 <= k < |gs| && EntryDay(DayResults(gs, step)[i]) == gs[k].0
    ensures KeysSorted(gs) ==> forall i, j :: 0 <= i < j < |DayResults(gs, step)| ==>
      Text.Less(EntryDay(DayResults(gs, step)[i]), EntryDay(DayResults(gs, step)[j]))
  {
    if gs != [] {
      var n := |gs| - 1;
      var p := gs[..n];
      var g := gs[n];
      DayResultsOrdered(p, step);
      var rest := DayResults(p, step);
      var rs := DayResults(gs, step);
      assert forall i :: 0 <= i < |rest| ==> rs[i] == rest[i];
      var last := step(g.0, g.1);
      if last.Some? {
        assert rs == rest + [last.value];
        assert EntryDay(rs[|rest|]) == gs[n].0;
      } else {
        assert rs == rest;
      }
      forall i | 0 <= i < |rs| ensures exists k :: 0 <= k < |gs| && EntryDay(rs[i]) == gs[k].0 {
        if i == |rest| {
          assert EntryDay(rs[i]) == gs[n].0;
        } else {
          assert exists k :: 0 <= k < |p| && EntryDay(rest[i]) == p[k].0;
          var k :| 0 <= k < n && EntryDay(rest[i]) == p[k].0;
          assert gs[k] == p[k] && EntryDay(rs[i]) == gs[k].0;
        }
      }
      if KeysSorted(gs) {
        assert KeysSorted(p);
        forall i | 0 <= i < |rest| ensures Text.Less(EntryDay(rs[i]), g.0) {
          assert exists k :: 0 <= k < |p| && EntryDay(rest[i]) == p[k].0;
          var k :| 0 <= k < n && EntryDay(rest[i]) == p[k].0;
          assert gs[k] == p[k];
        }
      }
    } else {
      assert DayResults(gs, step) == [];
    }
  }

  /** The whole of `get_result` with the fetch result given: a failed fetch or a
      failed processing step yields None; no commits yield `[]`. */
  function GetResultOf(username: string, repoLink: string, fetched: Result<seq<PC.CommitInfo>>,
                       t: Tokenizer, rd: Renderer, diffs: seq<Option<string>>,
                       decide: Decider, parse: JsonParser): Option<seq<Json>>
  {
    match fetched
    case Err(_) => None
    case Ok(infos) =>
      if infos == [] then Some([])
      else
        match ProcessedGroups(t, rd, infos, diffs)
        case Err(_) => None
        case Ok(gs) => Some(DayResults(SortByKey(gs), ProcessDayStep(username, repoLink, decide, parse)))
  }

  /** A processed commit whose date `isoparse` rejects makes `process_commits`
      raise, and `get_result` logs it and returns None. */
  lemma GetResultUnparsableDate(username: string, repoLink: string, infos: seq<PC.CommitInfo>,
                                t: Tokenizer, rd: Renderer, diffs: seq<Option<string>>,
                                decide: Decider, parse: JsonParser, i: nat)
    requires infos != [] && PC.Processed(infos, diffs).Ok?
    requires i < |PC.Processed(infos, diffs).value|
    requires Calendar.IsoParse(PC.Processed(infos, diffs).value[i].date).Err?
    ensures GetResultOf(username, repoLink, Ok(infos), t, rd, diffs, decide, parse) == None
  {
    PC.UnparsableDateRaises(PC.Processed(infos, diffs).value, i);
  }

  /** No commits give `[]`; otherwise every result is the entry of a day whose
      decision succeeded, each such day has its entry, and the entries come in
      strictly increasing date order. */
  lemma GetResultMeaning(username: string, repoLink: string, fetched: Result<seq<PC.CommitInfo>>,
                         t: Tokenizer, rd: Renderer, diffs: seq<Option<string>>,
                         decide: Decider, parse: JsonParser)
    ensures fetched == Ok([]) ==> GetResultOf(username, repoLink, fetched, t, rd, diffs, decide, parse) == Some([])
    ensures fetched.Err? ==> GetResultOf(username, repoLink, fetched, t, rd, diffs, decide, parse) == None
    ensures fetched.Ok? && fetched.value != [] && ProcessedGroups(t, rd, fetched.value, diffs).Ok? ==>
      var gs := ProcessedGroups(t, rd, fetched.value, diffs).value;
      var rs := GetResultOf(username, repoLink, fetched, t, rd, diffs, decide, parse);
      rs.Some?
      && (forall e :: e in rs.value <==> exists g :: g in gs && ProcessCommitDay(username, repoLink, g.0, g.1, decide, parse) == Some(e))
      && forall i, j :: 0 <= i < j < |rs.value| ==> Text.Less(EntryDay(rs.value[i]), EntryDay(rs.value[j]))
  {
    if fetched.Ok? && fetched.value != [] {
      var pg := ProcessedGroups(t, rd, fetched.value, diffs);
      if pg.Ok? {
        SortedDayResults(username, repoLink, pg.value, decide, parse);
      }
    }
  }

  /** The kept day results of groups with distinct keys, taken in key order. */
  lemma SortedDayResults(username: string, repoLink: string, gs: PC.Groups, decide: Decider, parse: JsonParser)
    requires PC.KeysDistinct(gs)
    ensures var rs := DayResults(SortByKey(gs), ProcessDayStep(username, repoLink, decide, parse));
      (forall e :: e in rs <==> exists g :: g in gs && ProcessCommitDay(username, repoLink, g.0, g.1, decide, parse) == Some(e))
      && forall i, j :: 0 <= i < j < |rs| ==> Text.Less(EntryDay(rs[i]), EntryDay(rs[j]))
  {
    var sorted := SortByKey(gs);
    var step := ProcessDayStep(username, repoLink, decide, parse);
    DayResultsMembers(sorted, step);
    DayResultsOrdered(sorted, step);
    forall g ensures g in gs <==> g in sorted {
      assert g in gs <==> g in multiset(gs);
      assert g in sorted <==> g in multiset(sorted);
    }
  }

  /** `get_result(username, repo_link, since_date, until_date)` with the commit list
      the fetcher produced (`Ok([])` also standing for its None) and the downloaded
      diffs as inputs. */
  method GetResult(username: string, repoLink: string, fetched: Result<seq<PC.CommitInfo>>,
                   t: Tokenizer, rd: Renderer, diffs: seq<Option<string>>,
                   decide: Decider, parse: JsonParser) returns (r: Option<seq<Json>>)
    ensures r == GetResultOf(username, repoLink, fetched, t, rd, diffs, decide, parse)
  {
    if fetched.Err? {
      return None;
    }
    var commitInfos := fetched.value;
    var aiDecisions: seq<Json> := [];
    if commitInfos != [] {
      var processed := PC.ProcessCommitsWithDiffs(t, rd, commitInfos, diffs);
      if processed.Err? {
        assert ProcessedGroups(t, rd, commitInfos, diffs).Err?;
        return None;
      }
      assert processed.value == ProcessedGroups(t, rd, commitInfos, diffs).value;
      var processedCommits := SortByKey(processed.value);
      aiDecisions := KeepDecisions(processedCommits, ProcessDayStep(username, repoLink, decide, parse));
    }
    return Some(aiDecisions);
  }

  /** The gathered `process_commit_day` results of the days in order, and the loop
      that keeps the ones that are not None. */
  method KeepDecisions(processedCommits: PC.Groups, step: DayStep) returns (aiDecisions: seq<Json>)
    ensures aiDecisions == DayResults(processedCommits, step)
  {
    aiDecisions := [];
    var results := seq(|processedCommits|, i requires 0 <= i < |processedCommits| =>
      step(processedCommits[i].0, processedCommits[i].1));
    for i := 0 to |results|
      invariant aiDecisions == DayResults(processedCommits[..i], step)
    {
      assert processedCommits[..i + 1][..i] == processedCommits[..i];
      if results[i].Some? {
        aiDecisions := aiDecisions + [results[i].value];
      }
    }
    assert processedCommits[..|results|] == processedCommits;
  }

  /** The call in the source passes four arguments to `get_user_commits_in_repo`,
      which takes two, so it raises a `TypeError`. */
  function FetchAsCalled(): Result<seq<PC.CommitInfo>> {
    Err(TypeError("get_user_commits_in_repo() takes 2 positional arguments but 4 were given"))
  }

  /** As written, `get_result` therefore yields None for every input. */
  lemma GetResultAsWrittenIsNone(username: string, repoLink: string, t: Tokenizer, rd: Renderer,
                                 diffs: seq<Option<string>>, decide: Decider, parse: JsonParser)
    ensures GetResultOf(username, repoLink, FetchAsCalled(), t, rd, diffs, decide, parse) == None
  {
  }
}
