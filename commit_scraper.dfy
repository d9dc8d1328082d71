/** github_tracker_bot/commit_scraper.py: repository-link validation, the paginated
    commit listing and its follow-up checks. The GitHub API is not part of this model:
    a `GitHub` value gives the answer of `g.get_repo` and the page served for each URL. */
module CommitScraper {
  import opened Wrappers
  import opened Text
  import opened JsonValue

  /** One HTTP response: its status, its JSON list of items, and its `Link` header if any. */
  datatype Page<T> = Page(status: int, items: seq<T>, link: Option<string>)

  datatype GitHub<T> = GitHub(repoExists: string -> bool, server: string -> Page<T>)

  // ---------------------------------------------------------------------------
  // The next-page link: re.search(r'<([^>]+)>;\s*rel="next"', links)

  const RelNext := "rel=\"next\""

  /** The first position at or after `k` whose character is not whitespace. */
  function SkipSpace(s: string, k: nat): (w: nat)
    requires k <= |s|
    decreases |s| - k
    ensures k <= w <= |s| && AllSpace(s[k..w]) && (w == |s| || !IsSpace(s[w]))
  {
    if k == |s| || !IsSpace(s[k]) then k
    else
      var w := SkipSpace(s, k + 1);
      assert s[k..w] == [s[k]] + s[k + 1..w];
      w
  }

  /** The regex matches at position `i`: `<` at `i`, the group up to the `>` at `g`
      (not empty, no `>` inside), `;` after it, whitespace up to `w`, and
      `rel="next"` at `w`. */
  ghost predicate LinkMatchAt(s: string, i: nat, g: nat, w: nat) {
    i + 1 < g && g + 2 <= w <= |s| && s[i] == '<' && s[g] == '>' && s[g + 1] == ';'
    && (forall k :: i < k < g ==> s[k] != '>')
    && AllSpace(s[g + 2..w]) && OccursAt(s, RelNext, w)
  }

  /** The regex matches at `i`, and its group is `u`. */
  ghost predicate LinkAt(s: string, i: nat, u: string) {
    exists g: nat, w: nat :: LinkMatchAt(s, i, g, w) && u == s[i + 1..g]
  }

  lemma GtOccurs(s: string, g: nat)
    ensures OccursAt(s, ">", g) <==> g < |s| && s[g] == '>'
  {
    if g < |s| && s[g] == '>' {
      assert s[g..g + 1] == [s[g]];
    }
  }

  /** No `>` lies between `i` and the first `>` after it. */
  lemma NoGtBefore(s: string, i: nat, g: nat)
    requires FindFrom(s, ">", i + 1) == Some(g)
    ensures forall k :: i < k < g ==> s[k] != '>'
  {
    forall k | i < k < g ensures s[k] != '>' {
      GtOccurs(s, k);
    }
  }

  /** A match at `i` ends its group at the first `>` after `i`, and `rel` starts at the
      first non-space after `>;`. */
  lemma LinkMatchDetermined(s: string, i: nat, g: nat, w: nat)
    requires LinkMatchAt(s, i, g, w)
    ensures FindFrom(s, ">", i + 1) == Some(g)
    ensures w == SkipSpace(s, g + 2)
  {
    GtOccurs(s, g);
    var f := FindFrom(s, ">", i + 1);
    assert f.Some?;
    GtOccurs(s, f.value);
    var w0 := SkipSpace(s, g + 2);
    assert s[w] == 'r' by {
      assert s[w..w + |RelNext|][0] == s[w];
    }
  }

  lemma LinkMatchesDetermined(s: string, i: nat)
    ensures forall g: nat, w: nat :: LinkMatchAt(s, i, g, w) ==>
              FindFrom(s, ">", i + 1) == Some(g) && w == SkipSpace(s, g + 2)
  {
    forall g: nat, w: nat | LinkMatchAt(s, i, g, w)
      ensures FindFrom(s, ">", i + 1) == Some(g) && w == SkipSpace(s, g + 2)
    {
      LinkMatchDetermined(s, i, g, w);
    }
  }

  /** The match attempt at position `i`. */
  function MatchAt(s: string, i: nat): (r: Option<string>)
    ensures r.Some? <==> exists u :: LinkAt(s, i, u)
    ensures r.Some? ==> LinkAt(s, i, r.value)
    ensures forall u :: LinkAt(s, i, u) ==> r == Some(u)
  {
    LinkMatchesDetermined(s, i);
    if i < |s| && s[i] == '<' then
      match FindFrom(s, ">", i + 1)
      case None => None
      case Some(g) =>
        GtOccurs(s, g);
        NoGtBefore(s, i, g);
        if g > i + 1 && g + 2 <= |s| && s[g + 1] == ';' then
          var w := SkipSpace(s, g + 2);
          if OccursAt(s, RelNext, w) then
            assert LinkMatchAt(s, i, g, w);
            assert LinkAt(s, i, s[i + 1..g]);
            Some(s[i + 1..g])
          else None
        else None
    else None
  }

  /** The leftmost match at or after position `i`. */
  function NextLinkFrom(s: string, i: nat): (r: Option<string>)
    decreases |s| - i
    ensures r.Some? ==> exists j :: i <= j && LinkAt(s, j, r.value)
                         && forall j', u :: i <= j' < j ==> !LinkAt(s, j', u)
    ensures r.None? ==> forall j, u :: i <= j ==> !LinkAt(s, j, u)
  {
    if i >= |s| then None
    else
      match MatchAt(s, i)
      case Some(u) => Some(u)
      case None => NextLinkFrom(s, i + 1)
  }

  /** The URL of the next page named by a `Link` header: the group of the leftmost
      match, so an earlier `rel="prev"` entry is skipped. */
  function NextLink(header: string): Option<string> {
    NextLinkFrom(header, 0)
  }

  /** A header that starts with a next link yields that link's URL. */
  lemma NextLinkOfLeadingEntry(u: string, rest: string)
    requires |u| >= 1 && forall k :: 0 <= k < |u| ==> u[k] != '>'
    ensures NextLink("<" + u + ">; " + RelNext + rest) == Some(u)
  {
    var s := "<" + u + ">; " + RelNext + rest;
    var g := |u| + 1;
    assert s[1..g] == u;
    assert forall k :: 0 < k < g ==> s[k] == u[k - 1];
    assert s[g] == '>' && s[g + 1] == ';';
    assert s[g + 2..g + 3] == " ";
    assert s[g + 3..g + 3 + |RelNext|] == RelNext;
    assert LinkMatchAt(s, 0, g, g + 3);
    assert LinkAt(s, 0, u);
  }

  /** The next URL after a page: from its `Link` header, or none. */
  function NextUrl<T>(p: Page<T>): Option<string> {
    match p.link
    case None => None
    case Some(h) => NextLink(h)
  }

  // ---------------------------------------------------------------------------
  // fetch_commits

  /** The `while url` loop ends within `n` requests: an empty URL stops it at once,
      a non-200 page or a page without a next link ends it. A cyclic chain of links
      never ends. */
  predicate ChainEnds<T>(server: string -> Page<T>, url: Option<string>, n: nat)
    decreases n
  {
    url.None? || url.value == ""
    || (n > 0 && (server(url.value).status != 200 || ChainEnds(server, NextUrl(server(url.value)), n - 1)))
  }

  /** The pages requested, in order, starting from `url`. */
  function ChainPages<T>(server: string -> Page<T>, url: Option<string>, n: nat): seq<Page<T>>
    requires ChainEnds(server, url, n)
    decreases n
  {
    if url.None? || url.value == "" then []
    else
      var p := server(url.value);
      [p] + (if p.status != 200 then [] else ChainPages(server, NextUrl(p), n - 1))
  }

  /** The items of the pages, concatenated in request order. */
  function ConcatItems<T>(ps: seq<Page<T>>): seq<T> {
    if ps == [] then [] else ps[0].items + ConcatItems(ps[1..])
  }

  /** What `fetch_commits(session, url)` returns. */
  function Follow<T>(server: string -> Page<T>, url: Option<string>, n: nat): Option<seq<T>>
    requires ChainEnds(server, url, n)
    decreases n
  {
    if url.None? || url.value == "" then Some([])
    else
      var p := server(url.value);
      if p.status != 200 then None
      else match Follow(server, NextUrl(p), n - 1)
        case None => None
        case Some(rest) => Some(p.items + rest)
  }

  /** `fetch_commits(session, url)`. */
  method FetchCommits<T>(server: string -> Page<T>, url0: string, ghost bound: nat) returns (r: Option<seq<T>>)
    requires ChainEnds(server, Some(url0), bound)
    ensures r == Follow(server, Some(url0), bound)
  {
    var url: Option<string> := Some(url0);
    var all: seq<T> := [];
    ghost var n := bound;
    PrependNothing(Follow(server, url, n));
    while url.Some? && url.value != ""
      invariant ChainEnds(server, url, n)
      invariant Follow(server, Some(url0), bound) == Prepend(all, Follow(server, url, n))
      decreases n
    {
      var response := server(url.value);
      if response.status == 200 {
        FollowStep(server, url, n);
        PrependAppend(all, response.items, Follow(server, NextUrl(response), n - 1));
        all := all + response.items;
        if response.link.Some? {
          var links := response.link.value;
          url := NextLink(links);
        } else {
          url := None;
        }
        n := n - 1;
      } else {
        return None;
      }
    }
    assert all + [] == all;
    return Some(all);
  }

  /** The items already collected, in front of what the rest of the chain yields. */
  function Prepend<T>(xs: seq<T>, rest: Option<seq<T>>): Option<seq<T>> {
    match rest
    case None => None
    case Some(ys) => Some(xs + ys)
  }

  /** One 200 page: its items come first, then whatever its next link yields. */
  lemma FollowStep<T>(server: string -> Page<T>, url: Option<string>, n: nat)
    requires ChainEnds(server, url, n) && url.Some? && url.value != "" && server(url.value).status == 200
    ensures n > 0 && ChainEnds(server, NextUrl(server(url.value)), n - 1)
    ensures Follow(server, url, n) == Prepend(server(url.value).items, Follow(server, NextUrl(server(url.value)), n - 1))
  {
  }

  lemma PrependAppend<T>(xs: seq<T>, ys: seq<T>, rest: Option<seq<T>>)
    ensures Prepend(xs, Prepend(ys, rest)) == Prepend(xs + ys, rest)
  {
    if rest.Some? {
      assert xs + (ys + rest.value) == (xs + ys) + rest.value;
    }
  }

  lemma PrependNothing<T>(rest: Option<seq<T>>)
    ensures Prepend([], rest) == rest
  {
    if rest.Some? {
      assert [] + rest.value == rest.value;
    }
  }

  /** The result is None exactly when some requested page is not a 200; otherwise it
      is every page's items, in request order. Pages collected before a failure are
      discarded. */
  lemma {:induction false} FollowIsPages<T>(server: string -> Page<T>, url: Option<string>, n: nat)
    requires ChainEnds(server, url, n)
    decreases n
    ensures var ps := ChainPages(server, url, n);
            Follow(server, url, n) == if exists k :: 0 <= k < |ps| && ps[k].status != 200 then None else Some(ConcatItems(ps))
  {
    if url.Some? && url.value != "" {
      var p := server(url.value);
      var ps := ChainPages(server, url, n);
      if p.status == 200 {
        FollowIsPages(server, NextUrl(p), n - 1);
        var rest := ChainPages(server, NextUrl(p), n - 1);
        assert ps == [p] + rest;
        assert ps[1..] == rest;
        assert (exists k :: 0 <= k < |ps| && ps[k].status != 200) <==> (exists k :: 0 <= k < |rest| && rest[k].status != 200) by {
          forall k | 0 <= k < |rest| ensures ps[k + 1] == rest[k] {}
        }
      } else {
        assert ps[0].status != 200;
      }
    }
  }

  /** The step bound only has to be large enough: any larger one gives the same pages. */
  lemma {:induction false} FollowFuel<T>(server: string -> Page<T>, url: Option<string>, n: nat, m: nat)
    requires ChainEnds(server, url, n) && n <= m
    decreases n
    ensures ChainEnds(server, url, m) && Follow(server, url, n) == Follow(server, url, m)
  {
    if url.Some? && url.value != "" && server(url.value).status == 200 {
      FollowFuel(server, NextUrl(server(url.value)), n - 1, m - 1);
    }
  }

  /** A single 200 page without a `Link` header yields its items; a 404 yields None. */
  lemma SinglePage<T>(server: string -> Page<T>, url: string)
    requires url != ""
    ensures server(url).status == 200 && server(url).link.None? ==> Follow(server, Some(url), 1) == Some(server(url).items)
    ensures server(url).status == 404 ==> Follow(server, Some(url), 1) == None
  {
    if server(url).status == 200 && server(url).link.None? {
      assert Follow(server, None, 0) == Some([]);
      assert server(url).items + [] == server(url).items;
    }
  }

  // ---------------------------------------------------------------------------
  // get_user_commits_in_repo

  predicate IsSegmentChar(c: char) {
    ('a' <= c <= 'z') || ('A' <= c <= 'Z') || ('0' <= c <= '9') || c == '_' || c == '-'
  }

  /** `[a-zA-Z0-9_-]*` */
  predicate SegmentChars(s: string)
    decreases |s|
  {
    s == [] || (IsSegmentChar(s[0]) && SegmentChars(s[1..]))
  }

  /** `[a-zA-Z0-9_-]+` */
  predicate IsSegment(s: string) {
    |s| >= 1 && SegmentChars(s)
  }

  const Host := "github.com/"
  const HttpsHost := "https://github.com/"
  const HttpHost := "http://github.com/"

  /** `/?$`: an optional slash, then the end or one final newline. */
  predicate IsTail(t: string) {
    |t| == 0 || (|t| == 1 && (t[0] == '/' || t[0] == '\n')) || (|t| == 2 && t[0] == '/' && t[1] == '\n')
  }

  /** The text after the scheme and host: `owner/repo` and the tail. */
  function RestOf(owner: string, repo: string, tail: string): string {
    owner + "/" + repo + tail
  }

  /** `re.match(r'https?://github\.com/[a-zA-Z0-9_-]+/[a-zA-Z0-9_-]+/?$', link)` accepts
      the link with this split into parts. */
  ghost predicate LinkShape(link: string, prefix: string, owner: string, repo: string, tail: string) {
    (prefix == HttpsHost || prefix == HttpHost) && IsSegment(owner) && IsSegment(repo) && IsTail(tail)
    && link == prefix + RestOf(owner, repo, tail)
  }

  ghost predicate ValidRepoLink(link: string) {
    exists prefix, owner, repo, tail :: LinkShape(link, prefix, owner, repo, tail)
  }

  /** The length of the run of segment characters starting at `k`. */
  function SegmentRun(s: string, k: nat): (n: nat)
    requires k <= |s|
    decreases |s| - k
    ensures k + n <= |s| && SegmentChars(s[k..k + n])
    ensures k + n < |s| ==> !IsSegmentChar(s[k + n])
  {
    if k == |s| || !IsSegmentChar(s[k]) then 0
    else
      var n := SegmentRun(s, k + 1);
      assert s[k..k + 1 + n][1..] == s[k + 1..k + 1 + n];
      1 + n
  }

  /** A run of segment characters followed by a non-segment character or the end is
      the maximal run. */
  lemma {:induction false} RunOfSegment(s: string, k: nat, n: nat)
    requires k + n <= |s| && SegmentChars(s[k..k + n])
    requires k + n == |s| || !IsSegmentChar(s[k + n])
    ensures SegmentRun(s, k) == n
    decreases n
  {
    if n > 0 {
      assert s[k..k + n][1..] == s[k + 1..k + n];
      RunOfSegment(s, k + 1, n - 1);
    }
  }

  /** The length of the scheme and host the link starts with, 0 for neither. */
  function PrefixLength(link: string): (p: nat)
    ensures p <= |link|
  {
    StartsWithIsPrefix(link, HttpsHost);
    StartsWithIsPrefix(link, HttpHost);
    if StartsWith(link, HttpsHost) then |HttpsHost|
    else if StartsWith(link, HttpHost) then |HttpHost|
    else 0
  }

  /** A non-zero prefix length is that of the scheme and host the link starts with. */
  lemma PrefixOfLength(link: string)
    requires PrefixLength(link) > 0
    ensures var p := PrefixLength(link); link[..p] == HttpsHost || link[..p] == HttpHost
  {
    StartsWithIsPrefix(link, HttpsHost);
    StartsWithIsPrefix(link, HttpHost);
  }

  /** The link's scheme and host are found whichever of the two it starts with. */
  lemma ShapePrefix(link: string, prefix: string)
    requires (prefix == HttpsHost || prefix == HttpHost) && prefix <= link
    ensures PrefixLength(link) == |prefix|
  {
    StartsWithIsPrefix(link, prefix);
    StartsWithIsPrefix(link, HttpsHost);
  }

  /** An accepted link is its prefix followed by the text its parts make up. */
  lemma ShapeRest(link: string, prefix: string, owner: string, repo: string, tail: string)
    requires LinkShape(link, prefix, owner, repo, tail)
    ensures PrefixLength(link) == |prefix| && link[|prefix|..] == RestOf(owner, repo, tail)
  {
    ShapePrefix(link, prefix);
  }

  /** How `RestOf` lays out its parts. */
  lemma RestLayout(o: string, n: string, t: string)
    ensures var r := RestOf(o, n, t);
            r[..|o|] == o && |o| < |r| && r[|o|] == '/' && r[|o| + 1..] == n + t
            && r[|o| + 1..|o| + 1 + |n|] == n && r[|o| + 1 + |n|..] == t
  {
  }

  /** The owner is the first maximal segment run, and a `/` follows it. */
  lemma OwnerRun(rest: string, o: string, n: string, t: string)
    requires IsSegment(o) && rest == RestOf(o, n, t)
    ensures SegmentRun(rest, 0) == |o| && |o| < |rest| && rest[|o|] == '/'
  {
    RestLayout(o, n, t);
    assert rest[0..|o|] == o;
    RunOfSegment(rest, 0, |o|);
  }

  /** The repository is the maximal segment run after that `/`, and the tail follows. */
  lemma RepoRun(rest: string, o: string, n: string, t: string)
    requires IsSegment(n) && (t == [] || !IsSegmentChar(t[0])) && rest == RestOf(o, n, t)
    ensures |o| + 1 <= |rest| && SegmentRun(rest, |o| + 1) == |n| && rest[|o| + 1 + |n|..] == t
  {
    RestLayout(o, n, t);
    assert t != [] ==> rest[|o| + 1 + |n|] == t[0];
    RunOfSegment(rest, |o| + 1, |n|);
  }

  /** The text after the scheme and host, split into the owner and repository
      segments (maximal runs, separated by `/`) and the tail. */
  function RestParts(rest: string): (r: Option<(string, string, string)>)
    ensures r.Some? ==> IsSegment(r.value.0) && IsSegment(r.value.1) && IsTail(r.value.2)
                        && rest == RestOf(r.value.0, r.value.1, r.value.2)
    ensures r.None? ==> forall o, n, t :: !(IsSegment(o) && IsSegment(n) && IsTail(t) && rest == RestOf(o, n, t))
  {
    var i := SegmentRun(rest, 0);
    if i == 0 || i >= |rest| || rest[i] != '/' then
      NoParts(rest);
      None
    else
      var j := SegmentRun(rest, i + 1);
      if j == 0 || !IsTail(rest[i + 1 + j..]) then
        NoParts(rest);
        None
      else
        var o, n, t := rest[..i], rest[i + 1..i + 1 + j], rest[i + 1 + j..];
        assert rest[0..i] == o;
        SplitAt(rest, i, j);
        Some((o, n, t))
  }

  lemma SplitAt(s: string, i: nat, j: nat)
    requires i + 1 + j <= |s| && s[i] == '/'
    ensures s == RestOf(s[..i], s[i + 1..i + 1 + j], s[i + 1 + j..])
  {
    assert s[i..i + 1] == "/";
    assert s == s[..i] + s[i..i + 1] + s[i + 1..i + 1 + j] + s[i + 1 + j..];
  }

  /** The segment runs read an owner, a `/`, a repository and a tail. */
  predicate RunsReadParts(rest: string) {
    var i := SegmentRun(rest, 0);
    i != 0 && i < |rest| && rest[i] == '/'
    && SegmentRun(rest, i + 1) != 0 && IsTail(rest[i + 1 + SegmentRun(rest, i + 1)..])
  }

  lemma NoParts(rest: string)
    requires !RunsReadParts(rest)
    ensures forall o, n, t :: !(IsSegment(o) && IsSegment(n) && IsTail(t) && rest == RestOf(o, n, t))
  {
    forall o, n, t | IsSegment(o) && IsSegment(n) && IsTail(t) && rest == RestOf(o, n, t) ensures false {
      PartsDetermined(rest, o, n, t);
    }
  }

  /** Split into parts, the text is read back by the segment runs. */
  lemma PartsDetermined(rest: string, o: string, n: string, t: string)
    requires IsSegment(o) && IsSegment(n) && IsTail(t) && rest == RestOf(o, n, t)
    ensures RunsReadParts(rest)
  {
    OwnerRun(rest, o, n, t);
    RepoRun(rest, o, n, t);
  }

  /** The prefix, owner, repository and tail of a link the regex accepts. */
  function MatchRepoLink(link: string): (r: Option<(string, string, string, string)>)
    ensures r.Some? ==> LinkShape(link, r.value.0, r.value.1, r.value.2, r.value.3)
    ensures r.None? ==> !ValidRepoLink(link)
  {
    var p := PrefixLength(link);
    if p == 0 then
      NoScheme(link);
      None
    else
      match RestParts(link[p..])
      case None =>
        NoShapeAfter(link);
        None
      case Some((o, n, t)) =>
        PrefixThenRest(link, o, n, t);
        Some((link[..p], o, n, t))
  }

  lemma PrefixThenRest(link: string, o: string, n: string, t: string)
    requires PrefixLength(link) > 0 && IsSegment(o) && IsSegment(n) && IsTail(t)
    requires link[PrefixLength(link)..] == RestOf(o, n, t)
    ensures LinkShape(link, link[..PrefixLength(link)], o, n, t)
  {
    PrefixOfLength(link);
    var p := PrefixLength(link);
    assert link == link[..p] + link[p..];
  }

  lemma NoScheme(link: string)
    requires PrefixLength(link) == 0
    ensures !ValidRepoLink(link)
  {
    forall prefix, owner, repo, tail | LinkShape(link, prefix, owner, repo, tail) ensures false {
      ShapeRest(link, prefix, owner, repo, tail);
    }
  }

  lemma NoShapeAfter(link: string)
    requires PrefixLength(link) > 0 && RestParts(link[PrefixLength(link)..]).None?
    ensures !ValidRepoLink(link)
  {
    forall prefix, owner, repo, tail | LinkShape(link, prefix, owner, repo, tail) ensures false {
      ShapeRest(link, prefix, owner, repo, tail);
    }
  }

  /** `repo_link.split("github.com/", 1)` then `owner_repo.rstrip("/").split("/")`
      unpacked into two names: a `ValueError` unless there are exactly two parts. */
  function OwnerAndRepo(link: string): Result<(string, string)> {
    match Find(link, Host)
    case None => Err(ValueError("not enough values to unpack"))
    case Some(f) => Unpack(link[f + |Host|..])
  }

  /** `owner, repo_name = owner_repo.rstrip("/").split("/")` */
  function Unpack(ownerRepo: string): Result<(string, string)> {
    var parts := Split(RStripChar(ownerRepo, '/'), "/");
    if |parts| == 2 then Ok((parts[0], parts[1]))
    else if |parts| < 2 then Err(ValueError("not enough values to unpack"))
    else Err(ValueError("too many values to unpack"))
  }

  /** `https://api.github.com/repos/{owner}/{repo_name}/commits?author={username}`. */
  function CommitsUrl(owner: string, repo: string, username: string): string {
    "https://api.github.com/repos/" + owner + "/" + repo + "/commits?author=" + username
  }

  /** Reading `commit['commit']['message']` and `commit['commit']['committer']['date']`. */
  function CommitInfoOf(commit: Json): Result<(Json, Json)> {
    match Get(commit, "commit")
    case Err(e) => Err(e)
    case Ok(c) =>
      match Get(c, "message")
      case Err(e) => Err(e)
      case Ok(m) =>
        match Get(c, "committer")
        case Err(e) => Err(e)
        case Ok(who) =>
          match Get(who, "date")
          case Err(e) => Err(e)
          case Ok(d) => Ok((m, d))
  }

  /** The first error the loop over the listed commits raises. */
  function FirstCommitError(commits: seq<Json>): (r: Option<Error>)
    ensures r.None? <==> forall k :: 0 <= k < |commits| ==> CommitInfoOf(commits[k]).Ok?
  {
    if commits == [] then None
    else match CommitInfoOf(commits[0])
      case Err(e) => Some(e)
      case Ok(_) =>
        var r := FirstCommitError(commits[1..]);
        assert forall k :: 1 <= k < |commits| ==> commits[k] == commits[1..][k - 1];
        r
  }

  /** The URL fetched for an accepted link, when the repository lookup succeeds. */
  function FetchedUrl(gh: GitHub<Json>, username: string, link: string): Option<string> {
    if MatchRepoLink(link).None? then None
    else match OwnerAndRepo(link)
      case Err(_) => None
      case Ok((owner, repo)) =>
        if gh.repoExists(owner + "/" + repo) then Some(CommitsUrl(owner, repo, username)) else None
  }

  /** The chain of pages a call requests ends, when it requests any. */
  predicate FetchEnds(gh: GitHub<Json>, username: string, link: string, bound: nat) {
    FetchedUrl(gh, username, link).Some? ==> ChainEnds(gh.server, FetchedUrl(gh, username, link), bound)
  }

  /** The outcome of `get_user_commits_in_repo(username, repo_link)`: `Ok(())` when it
      returns None, `Err` with the exception that escapes it otherwise. */
  function UserCommitsOutcome(gh: GitHub<Json>, username: string, link: string, bound: nat): Result<()>
    requires FetchEnds(gh, username, link, bound)
  {
    if MatchRepoLink(link).None? then Ok(())
    else match OwnerAndRepo(link)
      case Err(e) => Err(e)
      case Ok((owner, repo)) =>
        if !gh.repoExists(owner + "/" + repo) then Ok(())
        else FetchOutcome(gh.server, CommitsUrl(owner, repo, username), bound)
  }

  /** Fetching the commit list and reading each commit's message and date: a failed
      fetch leaves None, on which `len` raises a `TypeError`. */
  function FetchOutcome(server: string -> Page<Json>, url: string, bound: nat): Result<()>
    requires ChainEnds(server, Some(url), bound)
  {
    match Follow(server, Some(url), bound)
    case None => Err(TypeError("object of type 'NoneType' has no len()"))
    case Some(cs) =>
      match FirstCommitError(cs)
      case None => Ok(())
      case Some(e) => Err(e)
  }

  /** `get_user_commits_in_repo(username, repo_link)`. The commit dicts it builds are
      only logged, so they are not returned. */
  method GetUserCommitsInRepo(gh: GitHub<Json>, username: string, link: string, ghost bound: nat)
    returns (r: Result<()>)
    requires FetchEnds(gh, username, link, bound)
    ensures r == UserCommitsOutcome(gh, username, link, bound)
  {
    if MatchRepoLink(link).None? {
      return Ok(());
    }
    var split := OwnerAndRepo(link);
    if split.Err? {
      return Err(split.error);
    }
    var (owner, repoName) := split.value;
    if !gh.repoExists(owner + "/" + repoName) {
      // GithubException, caught and logged
      return Ok(());
    }
    var commitsUrl := CommitsUrl(owner, repoName, username);
    r := FetchAndInspect(gh.server, commitsUrl, bound);
  }

  /** The body of the `async with` block: fetch, inspect each commit, then `len`. */
  method FetchAndInspect(server: string -> Page<Json>, commitsUrl: string, ghost bound: nat) returns (r: Result<()>)
    requires ChainEnds(server, Some(commitsUrl), bound)
    ensures r == FetchOutcome(server, commitsUrl, bound)
  {
    var commits := FetchCommits(server, commitsUrl, bound);
    if commits.Some? && commits.value != [] {
      for k := 0 to |commits.value|
        invariant forall k' :: 0 <= k' < k ==> CommitInfoOf(commits.value[k']).Ok?
      {
        var info := CommitInfoOf(commits.value[k]);
        if info.Err? {
          FirstErrorAt(commits.value, k);
          return Err(info.error);
        }
      }
    }
    if commits.None? {
      // len(None)
      return Err(TypeError("object of type 'NoneType' has no len()"));
    }
    return Ok(());
  }

  /** An invalid link is only logged: the call returns None without asking GitHub. */
  lemma InvalidLinkIgnored(gh: GitHub<Json>, username: string, link: string, bound: nat)
    requires !ValidRepoLink(link)
    ensures FetchedUrl(gh, username, link) == None
    ensures UserCommitsOutcome(gh, username, link, bound) == Ok(())
  {
  }

  /** For an accepted link without a final newline, the repository `owner/repo` is
      looked up, a missing one is only logged, and otherwise the commits of
      `username` in it are fetched. */
  lemma AcceptedLinkFetches(gh: GitHub<Json>, username: string, link: string, bound: nat,
                            prefix: string, owner: string, repo: string, tail: string)
    requires LinkShape(link, prefix, owner, repo, tail) && (tail == "" || tail == "/")
    requires FetchEnds(gh, username, link, bound)
    ensures FetchedUrl(gh, username, link)
            == if gh.repoExists(owner + "/" + repo) then Some(CommitsUrl(owner, repo, username)) else None
    ensures UserCommitsOutcome(gh, username, link, bound)
            == if gh.repoExists(owner + "/" + repo) then FetchOutcome(gh.server, CommitsUrl(owner, repo, username), bound)
               else Ok(())
  {
    OwnerAndRepoOfShape(link, prefix, owner, repo, tail);
  }

  /** A link ending in a newline passes the check, and the newline stays in the
      repository name that is looked up. */
  lemma NewlineStaysInRepoName(gh: GitHub<Json>, username: string, link: string, bound: nat,
                               prefix: string, owner: string, repo: string)
    requires LinkShape(link, prefix, owner, repo, "\n")
    ensures FetchedUrl(gh, username, link)
            == if gh.repoExists(owner + "/" + repo + "\n") then Some(CommitsUrl(owner, repo + "\n", username)) else None
  {
    OwnerAndRepoOfShape(link, prefix, owner, repo, "\n");
    assert owner + "/" + (repo + "\n") == owner + "/" + repo + "\n";
  }

  /** A link ending in `/` and a newline passes the check but splits into three
      parts, so the unpacking raises a `ValueError` that nothing catches. */
  lemma SlashNewlineRaises(gh: GitHub<Json>, username: string, link: string, bound: nat,
                           prefix: string, owner: string, repo: string)
    requires LinkShape(link, prefix, owner, repo, "/\n")
    ensures FetchEnds(gh, username, link, bound)
    ensures UserCommitsOutcome(gh, username, link, bound) == Err(ValueError("too many values to unpack"))
  {
    OwnerAndRepoOfShape(link, prefix, owner, repo, "/\n");
  }

  /** The fetch-and-inspect step succeeds exactly when every page came back 200 and
      every listed commit has a message and a committer date; a failed fetch raises a
      `TypeError`. */
  lemma FetchOutcomeCases(server: string -> Page<Json>, url: string, bound: nat)
    requires ChainEnds(server, Some(url), bound)
    ensures FetchOutcome(server, url, bound) == Ok(()) <==>
              Follow(server, Some(url), bound).Some?
              && forall k :: 0 <= k < |Follow(server, Some(url), bound).value| ==>
                   CommitInfoOf(Follow(server, Some(url), bound).value[k]).Ok?
    ensures Follow(server, Some(url), bound).None? ==>
              (FetchOutcome(server, url, bound).Err? && FetchOutcome(server, url, bound).error.TypeError?)
  {
  }

  /** A commit object with `commit.message` and `commit.committer.date` yields them;
      one without a `commit` key raises `KeyError('commit')`. */
  lemma CommitInfoOfObject(commit: map<string, Json>, message: Json, date: Json, rest: map<string, Json>)
    ensures var c := JObj(rest["message" := message]["committer" := JObj(map["date" := date])]);
            CommitInfoOf(JObj(commit["commit" := c])) == Ok((message, date))
    ensures "commit" !in commit ==> CommitInfoOf(JObj(commit)) == Err(KeyError("commit"))
  {
  }

  /** The loop stops at the first commit whose fields cannot be read. */
  lemma {:induction false} FirstErrorAt(cs: seq<Json>, k: nat)
    requires k < |cs| && CommitInfoOf(cs[k]).Err?
    requires forall k' :: 0 <= k' < k ==> CommitInfoOf(cs[k']).Ok?
    ensures FirstCommitError(cs) == Some(CommitInfoOf(cs[k]).error)
  {
    if k > 0 {
      FirstErrorAt(cs[1..], k - 1);
    }
  }

  /** For an accepted link, `owner` and `repo` are the two segments after
      `github.com/` once a trailing slash is removed; with a final newline the newline
      stays in the repository name, and after `/\n` the unpacking fails. */
  lemma OwnerAndRepoOfShape(link: string, prefix: string, owner: string, repo: string, tail: string)
    requires LinkShape(link, prefix, owner, repo, tail)
    ensures tail == "" || tail == "/" ==> OwnerAndRepo(link) == Ok((owner, repo))
    ensures tail == "\n" ==> OwnerAndRepo(link) == Ok((owner, repo + "\n"))
    ensures tail == "/\n" ==> OwnerAndRepo(link) == Err(ValueError("too many values to unpack"))
  {
    ShapeRest(link, prefix, owner, repo, tail);
    HostAfterPrefix(link, prefix);
    assert OwnerAndRepo(link) == Unpack(RestOf(owner, repo, tail));
    NoSlash(owner);
    NoSlash(repo);
    UnpackCases(owner, repo);
  }

  /** `Unpack` on each of the four tails. */
  lemma UnpackCases(owner: string, repo: string)
    requires forall k :: 0 <= k < |owner| ==> owner[k] != '/'
    requires forall k :: 0 <= k < |repo| ==> repo[k] != '/' && repo[k] != '\n'
    requires |repo| >= 1
    ensures Unpack(RestOf(owner, repo, "")) == Ok((owner, repo))
    ensures Unpack(RestOf(owner, repo, "/")) == Ok((owner, repo))
    ensures Unpack(RestOf(owner, repo, "\n")) == Ok((owner, repo + "\n"))
    ensures Unpack(RestOf(owner, repo, "/\n")) == Err(ValueError("too many values to unpack"))
  {
    UnpackPlain(owner, repo);
    UnpackSlash(owner, repo);
    UnpackNewline(owner, repo);
    UnpackSlashNewline(owner, repo);
  }

  lemma UnpackPlain(owner: string, repo: string)
    requires forall k :: 0 <= k < |owner| ==> owner[k] != '/'
    requires forall k :: 0 <= k < |repo| ==> repo[k] != '/'
    requires |repo| >= 1
    ensures Unpack(RestOf(owner, repo, "")) == Ok((owner, repo))
  {
    assert RestOf(owner, repo, "") == owner + "/" + repo;
    SplitTwo(owner, repo);
  }

  lemma UnpackSlash(owner: string, repo: string)
    requires forall k :: 0 <= k < |owner| ==> owner[k] != '/'
    requires forall k :: 0 <= k < |repo| ==> repo[k] != '/'
    requires |repo| >= 1
    ensures Unpack(RestOf(owner, repo, "/")) == Ok((owner, repo))
  {
    var s := owner + "/" + repo;
    SplitTwo(owner, repo);
    assert RestOf(owner, repo, "/") == s + "/";
    assert (s + "/")[..|s|] == s;
  }

  lemma UnpackNewline(owner: string, repo: string)
    requires forall k :: 0 <= k < |owner| ==> owner[k] != '/'
    requires forall k :: 0 <= k < |repo| ==> repo[k] != '/'
    ensures Unpack(RestOf(owner, repo, "\n")) == Ok((owner, repo + "\n"))
  {
    assert RestOf(owner, repo, "\n") == owner + "/" + (repo + "\n");
    assert forall k :: 0 <= k < |repo + "\n"| ==> (repo + "\n")[k] != '/';
    SplitTwo(owner, repo + "\n");
  }

  lemma UnpackSlashNewline(owner: string, repo: string)
    requires forall k :: 0 <= k < |owner| ==> owner[k] != '/'
    requires forall k :: 0 <= k < |repo| ==> repo[k] != '/'
    ensures Unpack(RestOf(owner, repo, "/\n")) == Err(ValueError("too many values to unpack"))
  {
    assert RestOf(owner, repo, "/\n") == owner + "/" + repo + "/" + "\n";
    SplitThree(owner, repo);
  }

  lemma {:induction false} SegmentCharsAll(s: string)
    requires SegmentChars(s)
    decreases |s|
    ensures forall k :: 0 <= k < |s| ==> IsSegmentChar(s[k])
  {
    if s != [] {
      SegmentCharsAll(s[1..]);
      assert forall k :: 1 <= k < |s| ==> s[k] == s[1..][k - 1];
    }
  }

  lemma NoSlash(seg: string)
    requires IsSegment(seg)
    ensures forall k :: 0 <= k < |seg| ==> seg[k] != '/' && seg[k] != '\n'
  {
    SegmentCharsAll(seg);
  }

  /** A string without `/` does not split. */
  lemma SplitNone(s: string)
    requires forall k :: 0 <= k < |s| ==> s[k] != '/'
    ensures Split(s, "/") == [s]
  {
    forall j: nat ensures !OccursAt(s, "/", j) {
      if j + 1 <= |s| {
        assert s[j..j + 1][0] == s[j];
      }
    }
  }

  /** `a/b` splits into `[a, b]` when neither has a `/`. */
  lemma SplitTwo(a: string, b: string)
    requires forall k :: 0 <= k < |a| ==> a[k] != '/'
    requires forall k :: 0 <= k < |b| ==> b[k] != '/'
    requires |b| >= 1
    ensures Split(a + "/" + b, "/") == [a, b]
    ensures RStripChar(a + "/" + b, '/') == a + "/" + b
  {
    SplitTwoParts(a, b);
    var s := a + "/" + b;
    assert s[|s| - 1] == b[|b| - 1];
  }

  lemma SplitTwoParts(a: string, b: string)
    requires forall k :: 0 <= k < |a| ==> a[k] != '/'
    requires forall k :: 0 <= k < |b| ==> b[k] != '/'
    ensures Split(a + "/" + b, "/") == [a, b]
  {
    var s := a + "/" + b;
    assert s == a + ("/" + b);
    FirstSlash(a, "/" + b);
    SplitFirst(s, "/", |a|);
    assert s[..|a|] == a;
    assert s[|a| + 1..] == b;
    SplitNone(b);
  }

  /** `a/b/\n` splits into three parts. */
  lemma SplitThree(a: string, b: string)
    requires forall k :: 0 <= k < |a| ==> a[k] != '/'
    requires forall k :: 0 <= k < |b| ==> b[k] != '/'
    ensures RStripChar(a + "/" + b + "/" + "\n", '/') == a + "/" + b + "/" + "\n"
    ensures |Split(a + "/" + b + "/" + "\n", "/")| == 3
  {
    var s := a + "/" + b + "/" + "\n";
    FirstSlash(a, "/" + b + "/" + "\n");
    assert s == a + ("/" + b + "/" + "\n");
    var s2 := s[|a| + 1..];
    assert s2 == b + ("/" + "\n");
    FirstSlash(b, "/" + "\n");
    assert s2[|b| + 1..] == "\n";
    SplitNone("\n");
  }

  /** The first `/` of `a + rest` is at `|a|` when `a` has none and `rest` starts with one. */
  lemma FirstSlash(a: string, rest: string)
    requires forall k :: 0 <= k < |a| ==> a[k] != '/'
    requires rest != [] && rest[0] == '/'
    ensures Find(a + rest, "/") == Some(|a|)
  {
    var s := a + rest;
    assert s[|a|..|a| + 1] == [rest[0]];
    forall j | 0 <= j < |a| ensures !OccursAt(s, "/", j) {
      assert s[j..j + 1][0] == a[j];
    }
    FindIsFirst(s, "/", |a|);
  }

  /** `github.com/` first occurs right after the scheme. */
  lemma HostAfterPrefix(link: string, prefix: string)
    requires (prefix == HttpsHost || prefix == HttpHost) && prefix <= link
    ensures |Host| <= |prefix| && Find(link, Host) == Some(|prefix| - |Host|)
    ensures link[|prefix| - |Host| + |Host|..] == link[|prefix|..]
  {
    var k := |prefix| - |Host|;
    assert prefix[k..] == Host;
    assert link[k..k + |Host|] == prefix[k..];
    forall j | 0 <= j < k ensures !OccursAt(link, Host, j) {
      assert prefix[j] != 'g';
      assert link[j..j + |Host|][0] == prefix[j];
    }
    FindIsFirst(link, Host, k);
  }
}
