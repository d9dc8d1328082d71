# PGT_LeaderBot core, modelled in Dafny

This project models the deterministic data handling of PGT_LeaderBot, the bot that
tracks GitHub contributions of Mina Foundation programme participants, asks an LLM
whether each day's commits qualify, stores the verdicts in MongoDB and publishes
leaderboards and streaks on Discord. What is modelled:

- the diff filter that removes hunks of lockfiles, CI configuration, build output,
  media and other non-code files from a unified diff (`DiffFilter`);
- the token budget check and the handler that blanks every diff of a day whose
  batch is over budget (`TokenBudget`, `ExceedHandler`);
- the normalised commit record, the grouping of commits by day and the stable
  sort of each group (`Commits`, `ProcessCommits`);
- the repository URL check and the paginated commit listing over an abstract
  server (`CommitScraper`);
- the decision records and their conversion, the per-day decision entries and
  `get_result` over an abstract fetcher and LLM decider (`Bot`);
- the contribution statistics: distinct and qualified days, the date window,
  monthly counts and the longest streak (`Stats`);
- the user and decision documents with their dict round trip, and the MongoDB
  manager as a class over an in-memory collection (`JsonValue`, `MongoStore`);
- the monthly streaks and the batched Discord user insertion (`DbFunctions`);
- leaderboard construction, message splitting and the two Discord formatters
  (`Leaderboard`), and the user dicts the leaderboard reads from the store
  (`LeaderboardData`);
- the roster row edits behind insert, add-repository, update and delete, and the
  table rendering for Discord (`SheetFunctions`);
- the date normalisation to ISO 8601 (`Utils`).

Shared helpers: `Wrappers` (Option and Result with the Python exception kinds),
`Text` (Python string operations: strip, split, join, find, int parsing, string
order) and `Calendar` (proleptic Gregorian dates, `strptime("%Y-%m-%d")`, a subset
of ISO 8601 parsing, day numbers).

Foreign parts are parameters: the tokenizer and system prompt (`Tokenizer`),
Python's `str()` of a batch (`Renderer`), the GitHub HTTP server, the LLM decider
and `json.loads`, the Discord id lookup, "now", and the MongoDB collection and
sheet rows, which are plain values or class fields.

Paths in the table below are relative to the repository root.

## Model

| member | source | states |
|---|---|---|
| DiffFilter.IsAtEndIff | github_tracker_bot/helpers/extract_unnecessary_diff.py:4-61 | a `$` anchor after `x` accepts exactly `x` itself or `x` followed by one final newline |
| DiffFilter.SearchIsMatchWithoutNewline | github_tracker_bot/helpers/extract_unnecessary_diff.py:89-105 | on newline-free paths, `re.search` with the combined alternation agrees with `re.match` of some listed pattern, so the two classifiers of the file coincide there |
| DiffFilter.IsNonCodeFile | github_tracker_bot/helpers/extract_unnecessary_diff.py:64-68 | true exactly when some entry of the 58-entry list matches the path from its start |
| DiffFilter.FirstMatch | github_tracker_bot/helpers/extract_unnecessary_diff.py:65-68 | the loop with early return answers true exactly when one of the first `n` patterns matches |
| DiffFilter.MatchesPattern | github_tracker_bot/helpers/extract_unnecessary_diff.py:66 | decides `re.match` for the four pattern shapes of the list (exact name, folder prefix, extension set, leading wildcard) |
| DiffFilter.SuffixMatchFrom | github_tracker_bot/helpers/extract_unnecessary_diff.py:31-35 | true exactly when one of the alternatives `e1|e2|...` ends the text as `.*(...)$` requires |
| DiffFilter.LineEnd | github_tracker_bot/helpers/extract_unnecessary_diff.py:71 | finds the first newline at or after a position, with no newline before it, or reports that the line runs to the end |
| DiffFilter.LineUnique | github_tracker_bot/helpers/extract_unnecessary_diff.py:71 | a newline-free stretch that ends at a newline is the line `LineEnd` finds |
| DiffFilter.HeaderAtLine | github_tracker_bot/helpers/extract_unnecessary_diff.py:71 | `diff --git a\/(.+?) b\/(.+?)\n` matches with a first group of length `j` exactly when `j >= 1`, ` b/` follows on the same line and leaves a non-empty second group |
| DiffFilter.NoHeaderWithoutLine | github_tracker_bot/helpers/extract_unnecessary_diff.py:71 | without a newline after the header text there is no match, since the pattern ends in `\n` |
| DiffFilter.LazyGroup | github_tracker_bot/helpers/extract_unnecessary_diff.py:71 | the lazy `(.+?)` takes the shortest first group followed by ` b/` that still leaves room for the second group |
| DiffFilter.ExtractFrom | github_tracker_bot/helpers/extract_unnecessary_diff.py:71-72 | the leftmost match at or after a position, with the shortest first group; None when no match exists there |
| DiffFilter.ExtractFilePath | github_tracker_bot/helpers/extract_unnecessary_diff.py:70-75 | None exactly when no `diff --git a/X b/Y\n` header occurs; otherwise the `a/` path of the leftmost such header, with the lazy group's shortest length |
| DiffFilter.ProcessDiff | github_tracker_bot/helpers/extract_unnecessary_diff.py:77-85 | discard when no path is found; otherwise discard exactly when the path is non-code |
| DiffFilter.LineStop | github_tracker_bot/helpers/extract_unnecessary_diff.py:98 | the end of the line holding a position (a newline or the end of the text), with no newline in between |
| DiffFilter.LastSep | github_tracker_bot/helpers/extract_unnecessary_diff.py:98 | the last ` b/` in a range of positions, or None when none is there |
| DiffFilter.PathsAtLine | github_tracker_bot/helpers/extract_unnecessary_diff.py:98 | with `a/` at `i`, a ` b/` at `q` splits a match of `a/(.*) b/(.*)` exactly when it lies after `i` on the same line |
| DiffFilter.GreedyPathsFrom | github_tracker_bot/helpers/extract_unnecessary_diff.py:98 | the leftmost `a/` with a ` b/` later on its line, paired with the last such ` b/` (greedy `.*`) |
| DiffFilter.GreedyPaths | github_tracker_bot/helpers/extract_unnecessary_diff.py:98-103 | None exactly when `a/(.*) b/(.*)` does not match; otherwise the two groups: from the leftmost `a/` up to the last ` b/` of its line, and the rest of that line, both newline-free |
| DiffFilter.KeptHunks | github_tracker_bot/helpers/extract_unnecessary_diff.py:94-106 | no more hunks come out than chunks go in |
| DiffFilter.FilterDiffs | github_tracker_bot/helpers/extract_unnecessary_diff.py:88-108 | the loop builds the kept chunks of the stripped text split at `diff --git`, each re-prefixed, joined with `"\n "` |
| DiffFilter.KeepsChunk | github_tracker_bot/helpers/extract_unnecessary_diff.py:95-105 | a chunk is kept exactly when it is not whitespace-only, the path regex finds both paths, and the combined pattern finds neither |
| DiffFilter.IsNonCodeSearch | github_tracker_bot/helpers/extract_unnecessary_diff.py:89-105 | `combined_pattern.search(path)` holds exactly when some listed pattern is found in the path |
| DiffFilter.AnySearch | github_tracker_bot/helpers/extract_unnecessary_diff.py:89-105 | the alternation of the first `n` patterns is found exactly when one of them is found |
| DiffFilter.SearchesPattern | github_tracker_bot/helpers/extract_unnecessary_diff.py:105 | decides `re.search` for each pattern shape, `^` still anchoring at the start |
| DiffFilter.KeptHunksMembers | github_tracker_bot/helpers/extract_unnecessary_diff.py:94-106 | a hunk is in the output exactly when it is `"diff --git"` followed by a kept chunk of the input |
| DiffFilter.KeptHunksAppend | github_tracker_bot/helpers/extract_unnecessary_diff.py:94-108 | the output follows input order: one more chunk adds its hunk at the end or nothing |
| DiffFilter.DroppedChunks | github_tracker_bot/helpers/extract_unnecessary_diff.py:95-100 | whitespace-only chunks and chunks without an `a/... b/...` path are dropped silently |
| DiffFilter.NonCodePathDropped | github_tracker_bot/helpers/extract_unnecessary_diff.py:102-106 | a chunk whose old or new path is non-code is dropped, so renames to or from non-code files go too |
| DiffFilter.NothingKept | github_tracker_bot/helpers/extract_unnecessary_diff.py:108 | when no chunk is kept, the result is the empty string |
| DiffFilter.NoneKept | github_tracker_bot/helpers/extract_unnecessary_diff.py:94-106 | chunks none of which is kept give no hunks |
| DiffFilter.NonCodeExamples | github_tracker_bot/helpers/extract_unnecessary_diff.py:3-62 | `yarn.lock`, `package-lock.json`, `pipfile.lock` and `tsconfig.json` are non-code |
| DiffFilter.NodeModulesIsNonCode | github_tracker_bot/helpers/extract_unnecessary_diff.py:36 | `node_modules/package` is non-code |
| DiffFilter.GitlabDotIsAnyChar | github_tracker_bot/helpers/extract_unnecessary_diff.py:48 | the unescaped dot of `^.gitlab-ci\.yml$` lets any one character (not only `.`) precede `gitlab-ci.yml` |
| DiffFilter.ListedAnyCharIsNonCode | github_tracker_bot/helpers/extract_unnecessary_diff.py:48 | every leading-wildcard entry accepts any non-newline first character |
| DiffFilter.ListedNameIsNonCode | github_tracker_bot/helpers/extract_unnecessary_diff.py:3-62 | every name the list spells out in full is non-code |
| DiffFilter.ListedFolderIsNonCode | github_tracker_bot/helpers/extract_unnecessary_diff.py:36-45 | everything under a listed folder is non-code |
| DiffFilter.MatchesPlausible | github_tracker_bot/helpers/extract_unnecessary_diff.py:66 | a match forces the length and the first or last character the pattern demands |
| DiffFilter.MainPyIsCode | github_tracker_bot/helpers/extract_unnecessary_diff.py:64-68 | `main.py` is code |
| DiffFilter.MainCIsCode | github_tracker_bot/helpers/extract_unnecessary_diff.py:64-68 | `src/main.c` is code |
| DiffFilter.PipfileLockIsCode | github_tracker_bot/helpers/extract_unnecessary_diff.py:7 | the lockfile entry is lower-case and matching is case-sensitive, so `Pipfile.lock` counts as code |
| DiffFilter.ExtensionIsNonCode | github_tracker_bot/helpers/extract_unnecessary_diff.py:31-35 | a newline-free path ending in `.png`, `.jpg`, `.gif`, `.svg`, `.pdf`, `.docx`, `.log`, `.csv` or `.json` is non-code whatever its directory |
| TokenBudget.CalculateTokenNumber | github_tracker_bot/helpers/calculate_token.py:9-17 | fits exactly when the encoded length of system prompt, a space and the data is below 120000 - 1000 |
| TokenBudget.StrictThreshold | github_tracker_bot/helpers/calculate_token.py:15-17 | an encoded length of exactly 119000 is over budget and 118999 fits |
| TokenBudget.OverheadIsConstant | github_tracker_bot/helpers/calculate_token.py:11-15 | two data strings with the same encoded length get the same verdict |
| TokenBudget.FitsMonotone | github_tracker_bot/helpers/calculate_token.py:15-17 | a request encoding to no more tokens than one that fits also fits |
| TokenBudget.TestSizes | github_tracker_bot/helpers/calculate_token.py:9-17 | about 50000 tokens fit and about 130000 do not |
| ExceedHandler.Redacted | github_tracker_bot/helpers/handle_daily_commits_exceed_data.py:8-9 | same length, and each commit is the input commit with only its diff replaced by the notice |
| ExceedHandler.HandleDailyExceedData | github_tracker_bot/helpers/handle_daily_commits_exceed_data.py:3-11 | the array afterwards is the handled batch (unchanged within budget, every diff overwritten in place over budget); within budget the same array is returned, over budget null |
| ExceedHandler.HandledContents | github_tracker_bot/helpers/handle_daily_commits_exceed_data.py:4-11 | within budget the batch is unchanged; over budget every diff is exactly the notice |
| ExceedHandler.AllOrNothing | github_tracker_bot/helpers/handle_daily_commits_exceed_data.py:5-11 | either the batch is unchanged or every diff is replaced |
| ExceedHandler.HandledKeepsOtherFields | github_tracker_bot/helpers/handle_daily_commits_exceed_data.py:8-9 | length, order and every field except `diff` are kept |
| ExceedHandler.HandledIdempotent | github_tracker_bot/helpers/handle_daily_commits_exceed_data.py:7-9 | handling twice gives the same batch as handling once |
| ProcessCommits.FirstMissing | github_tracker_bot/process_commits.py:89-97 | the key that raises first: None exactly when every listed key is present, otherwise an absent listed key with every key before it present |
| ProcessCommits.ConcatenateDiffToCommitInfo | github_tracker_bot/process_commits.py:86-104 | a `KeyError` for a listed key exactly when one is missing; otherwise `repo`, `author`, `username`, `date`, `message`, `sha`, `branch` copied unchanged and `diff` is `filter_diffs(diff)`, or `""` for None |
| ProcessCommits.OnDay | github_tracker_bot/process_commits.py:112-116 | the commits whose day is `d`, in input order, and no others |
| ProcessCommits.KeyIndex | github_tracker_bot/process_commits.py:114 | the position of a day among the keys, or None when the day is not a key |
| ProcessCommits.Keys | github_tracker_bot/process_commits.py:118 | the keys of the groups, in order |
| ProcessCommits.Days | github_tracker_bot/process_commits.py:113 | `date[:10]` of each commit, in order |
| ProcessCommits.GroupKeysDistinct | github_tracker_bot/process_commits.py:114-115 | no day becomes a key twice |
| ProcessCommits.GroupKeysAreDays | github_tracker_bot/process_commits.py:112-116 | the keys are exactly the days that occur in the input |
| ProcessCommits.OnDayAppend | github_tracker_bot/process_commits.py:116 | one more commit is appended to its own day's list only |
| ProcessCommits.OnDayAbsent | github_tracker_bot/process_commits.py:114-115 | a day not yet seen has no commits |
| ProcessCommits.GroupContents | github_tracker_bot/process_commits.py:112-116 | the list under each key is exactly that day's commits, in input order |
| ProcessCommits.TotalSizeUpdate | github_tracker_bot/process_commits.py:116 | replacing one list changes the total size by the change of that list's length |
| ProcessCommits.GroupSizesSum | github_tracker_bot/process_commits.py:112-116 | the group sizes add up to the number of commits, so each commit is in exactly one group |
| ProcessCommits.WithDate | github_tracker_bot/process_commits.py:119 | the commits with one exact timestamp, in order |
| ProcessCommits.InsertByDate | github_tracker_bot/process_commits.py:119 | inserting into a date-sorted list keeps it sorted and adds exactly the new commit |
| ProcessCommits.InsertByDatePerm | github_tracker_bot/process_commits.py:119 | insertion is a permutation of the list plus the new commit |
| ProcessCommits.WithDateCons | github_tracker_bot/process_commits.py:119 | the commits with timestamp `t` of `[x] + s` are `x` (when its date is `t`) followed by those of `s` |
| ProcessCommits.InsertByDateStable | github_tracker_bot/process_commits.py:119 | a commit inserted into a sorted list comes after every commit with the same timestamp |
| ProcessCommits.NoneWithDate | github_tracker_bot/process_commits.py:119 | in a sorted list starting later than `t`, no commit has timestamp `t` |
| ProcessCommits.SortByDate | github_tracker_bot/process_commits.py:119 | the result is sorted by date; it is applied only to a list whose keys do not raise (`ProcessCommits.SortKeyError` is None) |
| ProcessCommits.SortByDateStable | github_tracker_bot/process_commits.py:119 | the sort is a permutation and stable: for every timestamp, the commits with it keep their input order |
| ProcessCommits.WithDateAppend | github_tracker_bot/process_commits.py:119 | one more commit at the end comes last among the commits with its timestamp |
| ProcessCommits.SortGroups | github_tracker_bot/process_commits.py:118-119 | same keys in the same order, each list sorted by date |
| ProcessCommits.FirstUnparsable | github_tracker_bot/process_commits.py:119 | the position of the first date `isoparse` rejects, with every earlier date parsed, or None exactly when every date parses |
| ProcessCommits.SortKeyError | github_tracker_bot/process_commits.py:119 | the day's `sort` raises exactly when some date does not parse or naive and aware stamps are mixed; an unparsable date is a `ValueError` |
| ProcessCommits.SortedKeys | github_tracker_bot/process_commits.py:118 | `sorted(grouped_commits.keys())`: strictly increasing, and exactly the keys |
| ProcessCommits.FirstSome | github_tracker_bot/process_commits.py:118-119 | the first turn that raises decides the outcome: None exactly when no turn raises, otherwise the first turn's error, no earlier turn raising |
| ProcessCommits.FirstSomePrefix | github_tracker_bot/process_commits.py:118-119 | an error raised within a prefix of the turns is the loop's error |
| ProcessCommits.FirstSomeSnoc | github_tracker_bot/process_commits.py:118-119 | one more turn after turns that did not raise raises what that turn raises |
| ProcessCommits.DayErrors | github_tracker_bot/process_commits.py:118-119 | the sort error of each day, in the order the loop visits the days |
| ProcessCommits.SortError | github_tracker_bot/process_commits.py:118-119 | the loop raises exactly when some visited day's sort raises, and then the error of the first such day in visiting order |
| ProcessCommits.GroupAndSortErrorMeaning | github_tracker_bot/process_commits.py:107-121 | `group_and_sort_commits` raises exactly when the commits of some day of the input cannot be sorted |
| ProcessCommits.NoSortErrorOnDay | github_tracker_bot/process_commits.py:118-119 | when the sort stage passes, no day's commits raise |
| ProcessCommits.SortErrorHasDay | github_tracker_bot/process_commits.py:118-119 | when the sort stage fails, the commits of some day of the input raise |
| ProcessCommits.DaySortErrorOfDay | github_tracker_bot/process_commits.py:112-119 | every day of the input is among the sorted keys, and the sort error there is that of exactly that day's commits |
| ProcessCommits.UnparsableDateRaises | github_tracker_bot/process_commits.py:107-121 | any commit date that `isoparse` rejects makes `group_and_sort_commits` raise |
| ProcessCommits.UnparsableStampRaises | github_tracker_bot/process_commits.py:119 | a day holding `05/01/2024 10:00` raises `ValueError` |
| ProcessCommits.MixedStampsRaise | github_tracker_bot/process_commits.py:119 | a day holding `2024-05-01T10:00:00` and `2024-05-01T11:00:00Z` raises `TypeError` |
| ProcessCommits.MixedStampsTypeError | github_tracker_bot/process_commits.py:119 | a day whose dates all parse, with at least one naive and one aware stamp, raises `TypeError` |
| ProcessCommits.StampParses | github_tracker_bot/process_commits.py:119 | the naive stamp `2024-05-01T10:00:00` and the UTC stamp `2024-05-01T11:00:00Z` parse |
| ProcessCommits.GroupAndSortCommits | github_tracker_bot/process_commits.py:107-121 | the two loops give the day groups in first-seen order, each list sorted by date; or the error of the first day, in sorted key order, whose sort raises |
| ProcessCommits.SortDays | github_tracker_bot/process_commits.py:118-119 | the loop over the sorted keys sorts every day's list, or returns the error of the first day whose sort raises |
| ProcessCommits.SortDayStep | github_tracker_bot/process_commits.py:119 | one turn sorts exactly the visited day's list |
| ProcessCommits.SortDaysDone | github_tracker_bot/process_commits.py:118-119 | once every key has been visited, every list is sorted |
| ProcessCommits.GroupAndSortKeys | github_tracker_bot/process_commits.py:112-119 | the keys are distinct and are exactly the days of the input; the sizes add up to the input length |
| ProcessCommits.GroupAndSortLists | github_tracker_bot/process_commits.py:112-119 | each group is its day's commits, sorted ascending by date, with equal timestamps in input order |
| ProcessCommits.SortedSize | github_tracker_bot/process_commits.py:118-119 | sorting the groups keeps their total size |
| ProcessCommits.Processed | github_tracker_bot/process_commits.py:132-135 | the `zip` of commit infos and diffs, up to the shorter length, each pair through `concatenate_diff_to_commit_info`; an error only when some pair raises, and then the error of the first pair that raises |
| ProcessCommits.Pairs | github_tracker_bot/process_commits.py:132-135 | one entry per pair of `zip(commit_infos, diffs)`, up to the shorter length: that pair through `concatenate_diff_to_commit_info` |
| ProcessCommits.Collect | github_tracker_bot/process_commits.py:132-135 | a comprehension whose elements may raise: every value, in order, exactly when no element raises, otherwise the error of the first element that raises |
| ProcessCommits.ProcessCommitsWithDiffs | github_tracker_bot/process_commits.py:124-141 | the error of the first pair that raises; otherwise the error of `group_and_sort_commits`, if it raises; otherwise the sorted day groups, each passed through the exceed handler |
| ProcessCommits.HandleGroups | github_tracker_bot/process_commits.py:138-139 | every day's list is replaced by the exceed handler's result on it, and the keys and their order stay |
| CommitScraper.SkipSpace | github_tracker_bot/commit_scraper.py:31 | the `\s*` run: the first non-whitespace position at or after `k`, everything in between whitespace |
| CommitScraper.GtOccurs | github_tracker_bot/commit_scraper.py:31 | a one-character `>` occurs at a position exactly when that character is `>` |
| CommitScraper.NoGtBefore | github_tracker_bot/commit_scraper.py:31 | no `>` lies between `<` and the first `>` after it, as `[^>]+` requires |
| CommitScraper.LinkMatchDetermined | github_tracker_bot/commit_scraper.py:31 | a match of `<([^>]+)>;\s*rel="next"` at `i` ends its group at the first `>` and finds `rel` after the whitespace run |
| CommitScraper.LinkMatchesDetermined | github_tracker_bot/commit_scraper.py:31 | the same for every match at `i`: a match attempt has at most one outcome |
| CommitScraper.MatchAt | github_tracker_bot/commit_scraper.py:31 | the match attempt at one position: its group exactly when the regex matches there |
| CommitScraper.NextLinkFrom | github_tracker_bot/commit_scraper.py:31-32 | `re.search`: the group of the leftmost match at or after a position, or None when nothing matches |
| CommitScraper.NextLinkOfLeadingEntry | github_tracker_bot/commit_scraper.py:29-32 | a header that starts with `<u>; rel="next"` yields `u` |
| CommitScraper.FetchCommits | github_tracker_bot/commit_scraper.py:19-40 | the `while url` loop returns what following the chain of pages gives: the items of every page in request order, or None after a non-200 page |
| CommitScraper.FollowStep | github_tracker_bot/commit_scraper.py:25-34 | a 200 page contributes its items in front of what its next link yields |
| CommitScraper.PrependAppend | github_tracker_bot/commit_scraper.py:27 | extending twice is extending once by the concatenation |
| CommitScraper.PrependNothing | github_tracker_bot/commit_scraper.py:27 | extending by nothing changes nothing |
| CommitScraper.FollowIsPages | github_tracker_bot/commit_scraper.py:23-40 | None exactly when some requested page is not a 200, pages already collected being discarded; otherwise every page's items in request order |
| CommitScraper.FollowFuel | github_tracker_bot/commit_scraper.py:23 | any step bound large enough for the chain gives the same result |
| CommitScraper.SinglePage | github_tracker_bot/commit_scraper.py:23-38 | a single 200 page without a `Link` header yields its items; a 404 yields None |
| CommitScraper.SegmentRun | github_tracker_bot/commit_scraper.py:43 | the maximal run of `[a-zA-Z0-9_-]` characters from a position |
| CommitScraper.RunOfSegment | github_tracker_bot/commit_scraper.py:43 | a run of segment characters ended by another character or the end is the maximal run |
| CommitScraper.PrefixLength | github_tracker_bot/commit_scraper.py:43 | the length of `https://github.com/` or `http://github.com/` at the start, or 0 |
| CommitScraper.PrefixOfLength | github_tracker_bot/commit_scraper.py:43 | a non-zero prefix length is that of one of the two schemes and host |
| CommitScraper.ShapePrefix | github_tracker_bot/commit_scraper.py:43 | a link starting with either scheme and host has that prefix length |
| CommitScraper.ShapeRest | github_tracker_bot/commit_scraper.py:43 | an accepted link is its prefix followed by owner, `/`, repository and tail |
| CommitScraper.RestLayout | github_tracker_bot/commit_scraper.py:43 | where owner, `/`, repository and tail sit in the text after the host |
| CommitScraper.OwnerRun | github_tracker_bot/commit_scraper.py:43 | the owner is the first maximal segment run, followed by `/` |
| CommitScraper.RepoRun | github_tracker_bot/commit_scraper.py:43 | the repository is the maximal segment run after the `/`, followed by the tail |
| CommitScraper.RestParts | github_tracker_bot/commit_scraper.py:43 | splits the text after the host into two segments and a `/?$` tail, or None exactly when no such split exists |
| CommitScraper.SplitAt | github_tracker_bot/commit_scraper.py:43 | a text with `/` at `i` is the parts before, between and after |
| CommitScraper.NoParts | github_tracker_bot/commit_scraper.py:43 | when the segment runs do not read two segments and a tail, no split exists |
| CommitScraper.PartsDetermined | github_tracker_bot/commit_scraper.py:43 | any valid split is the one the segment runs read |
| CommitScraper.MatchRepoLink | github_tracker_bot/commit_scraper.py:43 | `re.match(r'https?://github\.com/[a-zA-Z0-9_-]+/[a-zA-Z0-9_-]+/?$', link)`: the prefix, owner, repository and tail of an accepted link, None exactly for a link the regex rejects |
| CommitScraper.PrefixThenRest | github_tracker_bot/commit_scraper.py:43 | a prefix followed by a valid split is an accepted link |
| CommitScraper.NoScheme | github_tracker_bot/commit_scraper.py:43 | a link starting with neither scheme and host is rejected |
| CommitScraper.NoShapeAfter | github_tracker_bot/commit_scraper.py:43 | a link whose text after the host does not split is rejected |
| CommitScraper.FirstCommitError | github_tracker_bot/commit_scraper.py:58-62 | None exactly when every listed commit has a readable message and committer date |
| CommitScraper.GetUserCommitsInRepo | github_tracker_bot/commit_scraper.py:42-70 | the method returns what the function model of `get_user_commits_in_repo` gives: None for a rejected link or a missing repository, otherwise the outcome of fetching and inspecting the commits, or the exception that escapes |
| CommitScraper.FetchAndInspect | github_tracker_bot/commit_scraper.py:55-67 | fetch, read each commit's message and date, then `len`, as the function model describes |
| CommitScraper.InvalidLinkIgnored | github_tracker_bot/commit_scraper.py:43-45 | a rejected link is only logged: nothing is fetched and the call returns None |
| CommitScraper.AcceptedLinkFetches | github_tracker_bot/commit_scraper.py:47-70 | for an accepted link ending in nothing or `/`, `owner/repo` is looked up; a missing repository is only logged; otherwise the commits at `https://api.github.com/repos/{owner}/{repo}/commits?author={username}` are fetched |
| CommitScraper.NewlineStaysInRepoName | github_tracker_bot/commit_scraper.py:43-53 | a link ending in a newline passes the check, and the newline stays in the repository name that is looked up and fetched |
| CommitScraper.SlashNewlineRaises | github_tracker_bot/commit_scraper.py:43-49 | a link ending in `/` and a newline passes the check, but the unpacking raises a `ValueError` that nothing catches |
| CommitScraper.FetchOutcomeCases | github_tracker_bot/commit_scraper.py:56-67 | success exactly when every page was a 200 and every commit has a message and a committer date; a failed fetch ends in the `TypeError` of `len(None)` |
| CommitScraper.CommitInfoOfObject | github_tracker_bot/commit_scraper.py:60-61 | a commit with `commit.message` and `commit.committer.date` yields those two values; one without `commit` raises `KeyError('commit')` |
| CommitScraper.FirstErrorAt | github_tracker_bot/commit_scraper.py:58-62 | the loop raises the error of the first commit whose fields cannot be read |
| CommitScraper.OwnerAndRepoOfShape | github_tracker_bot/commit_scraper.py:48-49 | for an accepted link, owner and repository are the two segments after `github.com/` with a trailing slash removed; after a final newline the newline stays in the repository; after `/\n` the unpacking fails |
| CommitScraper.UnpackCases | github_tracker_bot/commit_scraper.py:49 | `rstrip("/").split("/")` unpacked into two names, for each of the four tails |
| CommitScraper.UnpackPlain | github_tracker_bot/commit_scraper.py:49 | `owner/repo` unpacks into owner and repository |
| CommitScraper.UnpackSlash | github_tracker_bot/commit_scraper.py:49 | `owner/repo/` unpacks into owner and repository |
| CommitScraper.UnpackNewline | github_tracker_bot/commit_scraper.py:49 | `owner/repo\n` unpacks with the newline in the repository |
| CommitScraper.UnpackSlashNewline | github_tracker_bot/commit_scraper.py:49 | `owner/repo/\n` gives three parts: a `ValueError` |
| CommitScraper.SegmentCharsAll | github_tracker_bot/commit_scraper.py:43 | a segment is made of segment characters only |
| CommitScraper.NoSlash | github_tracker_bot/commit_scraper.py:43 | a segment holds no `/` and no newline |
| CommitScraper.SplitNone | github_tracker_bot/commit_scraper.py:49 | a string without `/` splits into itself |
| CommitScraper.SplitTwo | github_tracker_bot/commit_scraper.py:49 | `a/b` is left alone by `rstrip("/")` and splits into `[a, b]` |
| CommitScraper.SplitTwoParts | github_tracker_bot/commit_scraper.py:49 | `a/b` splits into `[a, b]` when neither part holds a `/` |
| CommitScraper.SplitThree | github_tracker_bot/commit_scraper.py:49 | `a/b/\n` is left alone by `rstrip("/")` and splits into three parts |
| CommitScraper.FirstSlash | github_tracker_bot/commit_scraper.py:49 | the first `/` of the text is the one after the owner |
| CommitScraper.HostAfterPrefix | github_tracker_bot/commit_scraper.py:48 | `github.com/` first occurs right after the scheme, so the split keeps the text after the host |
| Bot.QualifiedByDateMeaning | github_tracker_bot/bot_functions.py:34-51 | the reported days are strictly increasing (sorted, each once) and are exactly the `%Y-%m-%d` days of qualified decisions with since <= date <= until; the count is their number |
| Bot.CountQualifiedContributionsByDate | github_tracker_bot/bot_functions.py:34-51 | the two nested loops with the set compute the qualified days of the inclusive window, both bounds and every decision date parsed first (a parse failure raises) |
| Bot.EntryAgreesWithStore | github_tracker_bot/bot_functions.py:283-297 | reading an entry here and in `AIDecision.from_dict` succeed on the same entries and build the same record |
| Bot.EntryToDecision | github_tracker_bot/bot_functions.py:283-295 | a decision read from an entry carries the entry's `username`, `repository` and `date` and the response's `username`, `date`, `is_qualified` and `explanation` one to one; a missing `response` raises its `KeyError` |
| Bot.EntryRoundTrip | github_tracker_bot/bot_functions.py:283-297 | a stored decision read back by the loop body is itself |
| Bot.CreateAiDecisionsClass | github_tracker_bot/bot_functions.py:280-298 | succeeds exactly when every entry reads; then one decision per entry, in order, fields copied one to one; otherwise the error of the first entry that fails |
| Bot.ProcessCommitDay | github_tracker_bot/bot_functions.py:241-262 | an entry exactly when the decider answers and `json.loads` accepts the answer (any exception gives None); the entry's `date` is the day |
| Bot.DayEntryDecodes | github_tracker_bot/bot_functions.py:243-257 | when the reply is a decision in JSON, the entry `{username, repository, date, response}` reads back as that user's decision for that repository and day |
| Bot.KeyBound | github_tracker_bot/bot_functions.py:213 | a key below every key of a list and below the new key bounds every key after insertion |
| Bot.InsertByKey | github_tracker_bot/bot_functions.py:213 | inserting a day with a new key into key-sorted groups keeps them strictly sorted and adds exactly that day |
| Bot.SortByKey | github_tracker_bot/bot_functions.py:213 | `sorted(processed_commits.items())`: strictly increasing keys and a permutation of the groups |
| Bot.ProcessedGroups | github_tracker_bot/bot_functions.py:212 | the processed groups have distinct keys |
| Bot.GetResultUnparsableDate | github_tracker_bot/bot_functions.py:212-238 | a processed commit whose date does not parse makes `process_commits` raise, and `get_result` returns None |
| Bot.DayResultsMembers | github_tracker_bot/bot_functions.py:221-230 | a kept result is exactly the non-None result of some day |
| Bot.DayResultsOrdered | github_tracker_bot/bot_functions.py:213-230 | each kept result carries the day of one of the groups, and over days in increasing order the results come in increasing date order |
| Bot.GetResultMeaning | github_tracker_bot/bot_functions.py:200-238 | no commits give `[]`; a failed fetch gives None; otherwise with processing succeeding every result is the entry of a day whose decision succeeded, each such day has its entry, and the entries come in strictly increasing date order |
| Bot.SortedDayResults | github_tracker_bot/bot_functions.py:221-230 | the kept results of distinct-key groups taken in key order are exactly the entries of the days whose decision succeeded, in strictly increasing date order |
| Bot.KeepDecisions | github_tracker_bot/bot_functions.py:221-230 | the gathered day results, with the None ones dropped, equal the kept day results in day order |
| Bot.GetResult | github_tracker_bot/bot_functions.py:200-238 | the loop that keeps the non-None day results computes the function model of `get_result` |
| Bot.GetResultAsWrittenIsNone | github_tracker_bot/bot_functions.py:200-238 | with the fetcher called on four arguments as written, `get_result` yields None for every input |
| Stats.DaysSnoc | github_tracker_bot/helpers/helper_functions.py:16-19 | one more decision adds its date to the days, and to the qualified days exactly when it is qualified |
| Stats.ConcatSnoc | github_tracker_bot/helpers/helper_functions.py:15-16 | flattening one more group appends its decisions |
| Stats.ConcatAppend | github_tracker_bot/helpers/helper_functions.py:15-16 | flattening distributes over concatenation of the group lists |
| Stats.ConcatAt | github_tracker_bot/helpers/helper_functions.py:15-16 | the nested loop's position after decision `j` of group `i` splits the flattened decisions there |
| Stats.ConcatMember | github_tracker_bot/helpers/helper_functions.py:15-16 | a decision is visited by the nested loop exactly when some group holds it |
| Stats.QualifiedDaysOfGroups | github_tracker_bot/helpers/helper_functions.py:15-19 | a qualified day is exactly the date of some qualified decision of some group |
| Stats.QualifiedWithinTotal | github_tracker_bot/helpers/helper_functions.py:17-19 | every qualified day is a day, so the qualified count never exceeds the total |
| Stats.CountAllContributionData | github_tracker_bot/helpers/helper_functions.py:8-28 | the number of distinct decision dates, the number of distinct qualified dates, and the qualified dates sorted |
| Stats.IsoStamp | github_tracker_bot/helpers/helper_functions.py:33-43 | `isoparse(...).replace(tzinfo=None)` succeeds exactly when the ISO parser does, and its day is written `YYYY-MM-DD` |
| Stats.WindowDaysSnoc | github_tracker_bot/helpers/helper_functions.py:41-45 | one loop step: an earlier error stays, an unparsable date raises, a decision inside the window adds its day (and adds it to the qualified days when qualified), one outside adds nothing |
| Stats.WindowDaysStopsAtError | github_tracker_bot/helpers/helper_functions.py:41 | once a date has raised, no later decision is looked at |
| Stats.WindowDaysMeaning | github_tracker_bot/helpers/helper_functions.py:39-45 | the loop succeeds exactly when every date parses; its days are exactly those of decisions with since <= date <= until, and its qualified days those of the qualified ones among them |
| Stats.WindowDaysOk | github_tracker_bot/helpers/helper_functions.py:41 | the loop succeeds exactly when every decision date parses |
| Stats.WindowTotalDays | github_tracker_bot/helpers/helper_functions.py:42-43 | a day is a window day exactly when some decision inside the window falls on it |
| Stats.WindowQualifiedDays | github_tracker_bot/helpers/helper_functions.py:42-45 | a day is a qualified window day exactly when some qualified decision inside the window falls on it |
| Stats.WindowQualifiedOfGroups | github_tracker_bot/helpers/helper_functions.py:39-45 | the same over the groups: a qualified window day is the day of a qualified decision inside the window in some group |
| Stats.WindowQualifiedWithinTotal | github_tracker_bot/helpers/helper_functions.py:42-45 | the qualified window days are a subset of the window days |
| Stats.ByDateCountsSizes | github_tracker_bot/helpers/helper_functions.py:47-54 | each count is the length of its list, there are no more qualified days than days, and every qualified day is a day |
| Stats.CountQualifiedContributionsByDate | github_tracker_bot/helpers/helper_functions.py:31-54 | both bounds parsed, then the nested loop over the inclusive window, both sets sorted and counted |
| Stats.CollectWindowDays | github_tracker_bot/helpers/helper_functions.py:39-45 | the nested loop over the groups fills the two sets as the flattened loop does |
| Stats.ParseAll | github_tracker_bot/helpers/helper_functions.py:60-72 | the list comprehension of `strptime(date, "%Y-%m-%d")`: succeeds exactly when every date parses, then one valid date per input, in order |
| Stats.MonthKeyOf | github_tracker_bot/helpers/helper_functions.py:65 | `strftime("%Y-%m")` is seven characters with a `-` at position 4 |
| Stats.MonthKeyIsPrefix | github_tracker_bot/helpers/helper_functions.py:60-65 | for a date written `YYYY-MM-DD`, its month key is its first seven characters |
| Stats.MonthKeys | github_tracker_bot/helpers/helper_functions.py:64-65 | the month key of each parsed date, in order |
| Stats.TallyCounts | github_tracker_bot/helpers/helper_functions.py:62-68 | a month is a key exactly when one of the dates falls in it, and its value is the number of such dates, at least 1 |
| Stats.MapSumRemove | github_tracker_bot/helpers/helper_functions.py:62-68 | the sum of a dict's values is one value plus the sum of the rest, whichever key is taken out |
| Stats.MapSumUpdate | github_tracker_bot/helpers/helper_functions.py:66 | setting a key changes the sum by the new value minus the old one |
| Stats.TallySum | github_tracker_bot/helpers/helper_functions.py:62-68 | the histogram's counts add up to the number of keys counted |
| Stats.MonthlyCountsShape | github_tracker_bot/helpers/helper_functions.py:57-68 | every key is the seven-character `YYYY-MM` key of one of the dates, and the counts add up to the number of dates |
| Stats.MonthPrefixes | github_tracker_bot/helpers/helper_functions.py:65 | the first seven characters of each date, in order |
| Stats.MonthlyCountsOfCanonical | github_tracker_bot/helpers/helper_functions.py:57-68 | for well-formed dates, the histogram counts the dates by their `YYYY-MM` prefix |
| Stats.GetQualifiedDailyContributionNumberByMonth | github_tracker_bot/helpers/helper_functions.py:57-68 | the first date that does not parse raises; otherwise the histogram of month keys |
| Stats.TallySnoc | github_tracker_bot/helpers/helper_functions.py:66 | `monthly[k] += 1` on a `defaultdict(int)` counts one more date in month `k` |
| Stats.CountByMonth | github_tracker_bot/helpers/helper_functions.py:62-68 | the counting loop gives the histogram of the month keys |
| Stats.PermutationBound | github_tracker_bot/helpers/helper_functions.py:74 | a lower bound of a list and of a new element bounds every element after insertion |
| Stats.InsertInt | github_tracker_bot/helpers/helper_functions.py:74 | insertion into a sorted list keeps it sorted and adds exactly the new element |
| Stats.SortInts | github_tracker_bot/helpers/helper_functions.py:74 | `date_objects.sort()`: sorted and a permutation of the input |
| Stats.Ordinals | github_tracker_bot/helpers/helper_functions.py:80 | the day number of each parsed date, in order |
| Stats.RunEndingAt | github_tracker_bot/helpers/helper_functions.py:79-85 | the `current_streak` at position `i` is between 1 and `i + 1` |
| Stats.LongestRunBefore | github_tracker_bot/helpers/helper_functions.py:76-88 | the `longest_streak` after `k` positions is at most `k`, and at least 1 once a date was seen |
| Stats.RunIsConsecutive | github_tracker_bot/helpers/helper_functions.py:80-81 | the run ending at `i` is a block of consecutive day numbers |
| Stats.RunIsMaximal | github_tracker_bot/helpers/helper_functions.py:80-85 | no block of consecutive day numbers ending at `i` is longer than the current run |
| Stats.LongestRunBeforeIsLongest | github_tracker_bot/helpers/helper_functions.py:76-88 | the longest streak over the first `k` positions is the length of a longest block of consecutive days among them |
| Stats.StreakIsLongestRun | github_tracker_bot/helpers/helper_functions.py:71-90 | for non-empty input the streak is the length of a longest block of consecutive days after sorting, between 1 and the number of dates |
| Stats.RepeatBreaksRun | github_tracker_bot/helpers/helper_functions.py:80-85 | a repeated date resets the current run to 1, since equality is not "previous + 1 day" |
| Stats.StreakOfBounds | github_tracker_bot/helpers/helper_functions.py:76-90 | `calculate_streak([])` is 1, because `current_streak` starts at 1; otherwise the streak is between 1 and the number of dates |
| Stats.CalculateStreak | github_tracker_bot/helpers/helper_functions.py:71-90 | parse every date, sort, then the longest run of consecutive days |
| Stats.LongestStreak | github_tracker_bot/helpers/helper_functions.py:76-90 | the loop with `current_streak` and `longest_streak` computes the streak of the sorted day numbers, raising where `+ timedelta(days=1)` leaves the calendar |
| JsonValue.Get | github_tracker_bot/mongo_data_handler.py:95-102 | a subscript succeeds exactly on a dict holding the key and yields its value; a dict without the key raises `KeyError` for that key |
| MongoStore.NewUser | github_tracker_bot/mongo_data_handler.py:47-59 | a user built from handle, GitHub name and repositories has no decisions, zero totals and streak, an empty month map and an empty date set |
| MongoStore.StrList | github_tracker_bot/mongo_data_handler.py:51 | a list of strings is stored as a JSON array of the same length holding each string at its position |
| MongoStore.ValidateMeansStringList | github_tracker_bot/mongo_data_handler.py:61-68 | `validate` accepts a user exactly when its repositories are a list all of whose elements are strings |
| MongoStore.Validate | github_tracker_bot/mongo_data_handler.py:61-68 | `validate`: the repositories are a list and every element is a string (the predicate has no contract of its own; `MongoStore.ValidateMeansStringList` characterises it) |
| MongoStore.FieldOr | github_tracker_bot/mongo_data_handler.py:107-128 | `data.get(key, default)`: the stored value when the key is present, the default when it is not |
| MongoStore.FromDict | github_tracker_bot/mongo_data_handler.py:89-129 | a decoded user carries the handle stored under `user_handle` (a required key) and the repositories stored under `repositories`, or `[]` when that key is absent |
| MongoStore.DecisionRoundTrip | github_tracker_bot/mongo_data_handler.py:92-106 | one decision converted to a dict, response nested, is read back by the comprehension as the same decision |
| MongoStore.DecisionsRoundTrip | github_tracker_bot/mongo_data_handler.py:76-107 | a list of decisions converted and read back is the same list, in order |
| MongoStore.GroupsRoundTrip | github_tracker_bot/mongo_data_handler.py:76-107 | the nested list of decision groups converted and read back is the same nested list |
| MongoStore.CountsRoundTrip | github_tracker_bot/mongo_data_handler.py:82-122 | the month-count dict is read back unchanged |
| MongoStore.DatesRoundTrip | github_tracker_bot/mongo_data_handler.py:83-125 | the date set written as a list is read back by `set(...)` as the same set |
| MongoStore.ToDictFields | github_tracker_bot/mongo_data_handler.py:70-87 | `to_dict` writes exactly the nine user keys, each holding the corresponding field in its stored form |
| MongoStore.ToDict | github_tracker_bot/mongo_data_handler.py:70-88 | `to_dict`: one key per field, the decisions as nested lists and the date set as a list (no contract of its own; `MongoStore.ToDictFields` and `MongoStore.RoundTrip` state its keys and its inverse) |
| MongoStore.RoundTrip | github_tracker_bot/mongo_data_handler.py:70-129 | `from_dict(to_dict(u))` is `u` for every user |
| MongoStore.FromDictReadsUserKeys | github_tracker_bot/mongo_data_handler.py:89-129 | two documents that agree on the nine user keys decode alike, so extra keys such as `_id` are ignored |
| MongoStore.FromDictAfterSet | github_tracker_bot/mongo_data_handler.py:177-182 | any document after `$set` with `to_dict(u)` decodes to `u` |
| MongoStore.FirstMatch | github_tracker_bot/mongo_data_handler.py:140 | `find_one({"user_handle": h})`: the position found holds the handle and no earlier document does; no position means no document holds it |
| MongoStore.FirstMatchAt | github_tracker_bot/mongo_data_handler.py:140 | a matching position with no match before it is the one `find_one` picks |
| MongoStore.FindUser | github_tracker_bot/mongo_data_handler.py:138-151 | `get_user`: `None` without a match; a decode error of the first match propagates; a returned user is the first match decoded, valid and carrying the handle; `None` for a match means that match decodes to an invalid user |
| MongoStore.RemoveAt | github_tracker_bot/mongo_data_handler.py:210 | `delete_one` leaves the other documents in their order, one fewer in all |
| MongoStore.Apply | github_tracker_bot/mongo_data_handler.py:230-484 | the setters' edits never change the handle, the GitHub name or the repositories |
| MongoStore.MonthKey | github_tracker_bot/mongo_data_handler.py:384 | `f"{year}-{month.zfill(2)}"`: a month of two or more characters is kept, a one-digit month gets a leading zero, an empty month becomes `00` |
| MongoStore.AddAll | github_tracker_bot/mongo_data_handler.py:438-441 | after the loop of `add` calls the set holds exactly the stored dates and the new ones |
| MongoStore.MergeUnchanged | github_tracker_bot/mongo_data_handler.py:178-202 | a `$set` leaves a document as it was exactly when the document already holds every key and value being set, the case where `modified_count` is 0 |
| MongoStore.CreateThenFind | github_tracker_bot/mongo_data_handler.py:153-166 | an invalid user raises `ValueError` and nothing is written; a valid one is returned and appended after the unchanged documents; a new handle is then found as that user; a duplicate handle leaves `get_user` reading the older document |
| MongoStore.UpdateSameHandle | github_tracker_bot/mongo_data_handler.py:168-189 | for an existing user and a valid update under the same handle: when nothing would change, `RuntimeError` and no write; otherwise the first match is overwritten with `to_dict(u)` and exactly `u` is returned |
| MongoStore.UpdateUnchangedRaises | github_tracker_bot/mongo_data_handler.py:168-189 | writing back the user decoded from a document already in `to_dict` form raises `RuntimeError` and writes nothing |
| MongoStore.ModifyWrites | github_tracker_bot/mongo_data_handler.py:291-484 | a setter on a missing user raises `ValueError` without a write; on an existing user whose edit changes something it overwrites the first match with the edited user and returns it |
| MongoStore.AddDecisionsAppends | github_tracker_bot/mongo_data_handler.py:230-244 | on an existing user, adding decisions always succeeds, returns the user with exactly one more group at the end and the earlier groups untouched, and that user is what `get_user` then reads |
| MongoStore.PutMonthOverwrites | github_tracker_bot/mongo_data_handler.py:382-388 | the month key is set to the number; every other month and every other field are as they were |
| MongoStore.FromDictSetDates | github_tracker_bot/mongo_data_handler.py:420-421 | a document whose date field becomes `dict.fromkeys(dates, 1)` decodes to the same user with that date set |
| MongoStore.AddDatesStoresUnion | github_tracker_bot/mongo_data_handler.py:429-453 | on success the stored dict is the union of the user's dates and the new ones and `get_user` then reads the user with exactly that union; a failure is a `RuntimeError` with no write |
| MongoStore.RemoveOther | github_tracker_bot/mongo_data_handler.py:207-216 | deleting a document of another handle does not change what `get_user` finds |
| MongoStore.RemoveOnly | github_tracker_bot/mongo_data_handler.py:207-216 | deleting the only document of a handle leaves no match for it |
| MongoStore.DeleteOnlyFirst | github_tracker_bot/mongo_data_handler.py:207-216 | no match: `None` and no change; a match: the handle is returned; every other handle is found as before; a handle held by one document is then gone |
| MongoStore.GettersOfMissingUser | github_tracker_bot/mongo_data_handler.py:219-466 | without a valid user the getters return no decisions, zero counts and streak, and the integer 0 where a dict or set is expected |
| MongoStore.GettersOfNewUser | github_tracker_bot/mongo_data_handler.py:219-466 | a freshly created user reads back through every getter with the dataclass defaults |
| MongoStore.GetAiDecisionsByUser | github_tracker_bot/mongo_data_handler.py:219-228 | the decision groups stored in the first document with the handle (decoded from `ai_decisions`, `[]` when absent); `[]` without a valid user; a decode error of that document propagates |
| MongoStore.GetTotalDailyContributionNumber | github_tracker_bot/mongo_data_handler.py:278-289 | the integer stored under `total_daily_contribution_number` in the first document with the handle (0 when absent); 0 without a valid user; a decode error propagates |
| MongoStore.GetTotalQualifiedDailyContributionNumber | github_tracker_bot/mongo_data_handler.py:309-320 | the integer stored under `total_qualified_daily_contribution_number` (0 when absent); 0 without a valid user; a decode error propagates |
| MongoStore.GetQualifiedDailyContributionNumberByMonth | github_tracker_bot/mongo_data_handler.py:340-353 | the month counts decoded from the first document with the handle; the integer 0, not a dict, without a valid user; a decode error propagates |
| MongoStore.GetQualifiedDailyContributionDates | github_tracker_bot/mongo_data_handler.py:398-409 | the date set decoded from the stored list; the integer 0, not a set, without a valid user; a decode error propagates |
| MongoStore.GetQualifiedDailyContributionStreak | github_tracker_bot/mongo_data_handler.py:455-466 | the integer stored under `qualified_daily_contribution_streak` (0 when absent); 0 without a valid user; a decode error propagates |
| MongoStore.KeepInRange | github_tracker_bot/mongo_data_handler.py:260-266 | succeeds exactly when every decision date parses; then the result holds exactly the decisions inside the inclusive window, is a subsequence of the list and is as long as the number of in-window decisions, so it is those decisions in input order |
| MongoStore.FilterGroups | github_tracker_bot/mongo_data_handler.py:258-270 | no empty group is ever returned |
| MongoStore.FilterGroupsStopsAtError | github_tracker_bot/mongo_data_handler.py:259-268 | once a group fails to parse, later groups do not affect the outcome |
| MongoStore.KeepAppend | github_tracker_bot/mongo_data_handler.py:260-266 | filtering a concatenation is the concatenation of the filtered parts, the first part's error first |
| MongoStore.FilterGroupsFlatten | github_tracker_bot/mongo_data_handler.py:258-270 | flattened, the groups returned are exactly the in-window decisions of all groups in order, and a date that does not parse raises the same error either way |
| MongoStore.MongoDBManagement.constructor | github_tracker_bot/mongo_data_handler.py:133-135 | the manager starts over the given collection |
| MongoStore.MongoDBManagement.CreateUser | github_tracker_bot/mongo_data_handler.py:153-166 | result and new collection are those of `create_user` on the old collection |
| MongoStore.MongoDBManagement.UpdateUser | github_tracker_bot/mongo_data_handler.py:168-189 | result and new collection are those of `update_user` on the old collection |
| MongoStore.MongoDBManagement.UpdateField | github_tracker_bot/mongo_data_handler.py:191-205 | result and new collection are those of `update_field` on the old collection |
| MongoStore.MongoDBManagement.DeleteUser | github_tracker_bot/mongo_data_handler.py:207-216 | result and new collection are those of `delete_user` on the old collection |
| MongoStore.MongoDBManagement.ModifyUser | github_tracker_bot/mongo_data_handler.py:291-307 | the setters' shared sequence (read, `ValueError` when absent, edit, `update_user`) yields the outcome of the edit |
| MongoStore.MongoDBManagement.AddAiDecisionsByUser | github_tracker_bot/mongo_data_handler.py:230-244 | the outcome of appending the group to the user's decisions |
| MongoStore.MongoDBManagement.SetTotalDailyContributionNumber | github_tracker_bot/mongo_data_handler.py:291-307 | the outcome of setting the total |
| MongoStore.MongoDBManagement.SetTotalQualifiedDailyContributionNumber | github_tracker_bot/mongo_data_handler.py:322-338 | the outcome of setting the qualified total |
| MongoStore.MongoDBManagement.SetQualifiedDailyContributionNumberByMonth | github_tracker_bot/mongo_data_handler.py:355-371 | the outcome of replacing the month counts |
| MongoStore.MongoDBManagement.AddQualifiedDailyContributionNumberByMonth | github_tracker_bot/mongo_data_handler.py:373-396 | the outcome of putting the number under the zero-padded month key |
| MongoStore.MongoDBManagement.SetQualifiedDailyContributionStreak | github_tracker_bot/mongo_data_handler.py:468-484 | the outcome of setting the streak |
| MongoStore.MongoDBManagement.SetQualifiedDailyContributionDates | github_tracker_bot/mongo_data_handler.py:411-427 | `ValueError` for a missing user, otherwise `update_field` of `dict.fromkeys(dates, 1)` |
| MongoStore.MongoDBManagement.AddQualifiedDailyContributionDates | github_tracker_bot/mongo_data_handler.py:429-453 | the union with the stored dates written as in the set method |
| MongoStore.MongoDBManagement.GetAiDecisionsByUserAndDaterange | github_tracker_bot/mongo_data_handler.py:246-275 | changes nothing and returns the date-range filter: `[]` for a missing user, else both bounds parsed and the groups filtered |
| MongoStore.MongoDBManagement.FilterDecisionGroups | github_tracker_bot/mongo_data_handler.py:258-270 | the loop over the groups computes the group filter, stopping at the first unparsable date |
| DbFunctions.MonthDatesMeaning | leader_bot/db_functions.py:80-91 | the sorted in-month list holds exactly the user's dates that start with the month, each once, in increasing order |
| DbFunctions.RunOfMeaning | leader_bot/db_functions.py:87-98 | a streak that is computed lies between 1 and the number of dates, is the length of some run of dates one day apart, and no such run is longer |
| DbFunctions.UserStreakMeaning | leader_bot/db_functions.py:80-100 | a user gets an entry exactly when they have a date in the month, and the entry is the longest run of consecutive days among those dates |
| DbFunctions.StreaksUpToPresent | leader_bot/db_functions.py:79-100 | a pass over the users that does not raise met only present users whose dates all parse |
| DbFunctions.StreaksUpToLast | leader_bot/db_functions.py:79-100 | one more user updates the dict under that user's handle when it has an entry, and leaves it as it was otherwise |
| DbFunctions.StreaksUpToKeys | leader_bot/db_functions.py:79-100 | a handle is in the dict exactly when some present user with that handle has an entry |
| DbFunctions.StreaksUpToValue | leader_bot/db_functions.py:100 | a handle's value is the entry of the last user with that handle that has one (later users overwrite earlier ones) |
| DbFunctions.MonthlyStreaksMeaning | leader_bot/db_functions.py:74-102 | a handle is reported exactly when some user with it has a date in the month; its streak is the longest run of consecutive days of the last such user, between 1 and that user's number of in-month dates |
| DbFunctions.MonthlyStreaksMissingUser | leader_bot/db_functions.py:79-106 | a missing user (`None`) anywhere in the list makes the attribute access raise, so the result is `{}` |
| DbFunctions.FetchDbGetUsers | leader_bot/db_functions.py:33-35 | `fetch_db_get_users` as written always raises `AttributeError`: `MongoDBManagement` has no `get_users` |
| DbFunctions.CalculateMonthlyStreakAsWritten | leader_bot/db_functions.py:74-106 | as written `calculate_monthly_streak` returns `{}` for every month, even when a user with qualified dates in the month would be reported given the user list |
| DbFunctions.StreaksStopAtError | leader_bot/db_functions.py:79-106 | once the users before some position raise, the whole pass raises |
| DbFunctions.CalculateMonthlyStreak | leader_bot/db_functions.py:74-106 | the loop over the users returns the monthly streak dict, `{}` when anything raises |
| DbFunctions.MonthStreak | leader_bot/db_functions.py:87-98 | the streak loop over one user's sorted in-month dates returns the longest run of dates one day apart, or the parse error of a bad date |
| DbFunctions.BatchesCover | leader_bot/db_functions.py:40-43 | the slices of `range(0, len(data), 1000)` cover the input in order, each holds 1 to 1000 documents, all but the last exactly 1000, and there are `ceil(len / 1000)` of them |
| DbFunctions.SentBatches | leader_bot/db_functions.py:42-44 | the batches sent form a prefix of all batches |
| DbFunctions.SentBatchesMeaning | leader_bot/db_functions.py:42-51 | every batch sent was inserted; all are sent exactly when every insert succeeds; otherwise the first batch not sent is the one whose insert failed |
| DbFunctions.InsertDiscordUsers | leader_bot/db_functions.py:38-51 | the loop inserts the batches up to the first failure and answers True exactly when all of them were inserted |
| Leaderboard.InsertDescSorted | leader_bot/leaderboard_functions.py:91 | inserting into a non-increasing list keeps it non-increasing, and the new head is the inserted element or the old head |
| Leaderboard.InsertDescPermutes | leader_bot/leaderboard_functions.py:91 | insertion adds exactly the one element |
| Leaderboard.InsertDescWithKey | leader_bot/leaderboard_functions.py:91 | insertion places the element after every element already there with the same key |
| Leaderboard.SortDescProperties | leader_bot/leaderboard_functions.py:91 | `sort(key, reverse=True)` gives a non-increasing permutation of its input in which elements with equal keys keep their input order (the same holds for the `sorted` of line 159) |
| Leaderboard.LastNewlineBefore | leader_bot/leaderboard_functions.py:112 | `rfind("\n", 0, limit)`: the position of a newline before `limit` with none after it below `limit`, or -1 when there is none |
| Leaderboard.CutPositionMeaning | leader_bot/leaderboard_functions.py:112-114 | a long message is cut at its last newline before `limit`, or at `limit` when none precedes it |
| Leaderboard.SplitMessageFits | leader_bot/leaderboard_functions.py:106-118 | every chunk is at most `limit` characters long |
| Leaderboard.SplitMessage | leader_bot/leaderboard_functions.py:106-118 | `split_message`: cut at the last newline before the limit, or at the limit, strip the leading whitespace of the rest and repeat (its properties are `Leaderboard.SplitMessageFits` and `Leaderboard.SplitMessageKeepsText`) |
| Leaderboard.SplitMessageKeepsText | leader_bot/leaderboard_functions.py:106-118 | the chunks in order hold every non-whitespace character of the message in order: only whitespace at the cuts is lost |
| Leaderboard.SplitMessageCut | leader_bot/leaderboard_functions.py:106-118 | a message that fits is exactly `[message]`; a longer one yields a first chunk that is a prefix cut at the last newline before `limit` (or at `limit`), followed by the split of the rest with its leading whitespace stripped |
| Leaderboard.SplitMessageStep | leader_bot/leaderboard_functions.py:111-116 | one turn of the loop emits the prefix up to the cut and continues on the stripped rest |
| Leaderboard.SplitMessageLoop | leader_bot/leaderboard_functions.py:106-118 | the `while` loop returns the chunks of the recursive split |
| Leaderboard.LastDayOfMonthMeaning | leader_bot/leaderboard_functions.py:53-60 | the computation succeeds for months 1 to 11, December before year 9999 and month 0 after year 1; for a real month it is the month's length, the day before the first of the next month (January of the next year after December) |
| Leaderboard.FirstDateMeaning | leader_bot/leaderboard_functions.py:66-74 | the first date exists exactly when the user has an in-month date, is never empty and is the least such date |
| Leaderboard.UserStandingMeaning | leader_bot/leaderboard_functions.py:64-89 | a user yields a tuple exactly when they have the month key, an in-month qualified date and at least `commit_filter` contributions; the tuple holds the handle, the month's count and the days from the earliest in-month date to the earlier of now and the month's last day, plus one |
| Leaderboard.StandingsStopAtError | leader_bot/leaderboard_functions.py:64-89 | once the items before a position raise, the loop's outcome is that error |
| Leaderboard.StandingsMembers | leader_bot/leaderboard_functions.py:64-89 | when the loop completes every item was processed, each tuple comes from a qualifying item and each qualifying item contributes its tuple |
| Leaderboard.StandingsInOrder | leader_bot/leaderboard_functions.py:64-89 | the tuples of a prefix of the items are a prefix of the tuples, so they keep the items' order |
| Leaderboard.CollectStandings | leader_bot/leaderboard_functions.py:64-89 | the loop over `data.items()` builds the tuple list, or raises at the first bad item |
| Leaderboard.RankedRowsAt | leader_bot/leaderboard_functions.py:96-101 | row `i` of the numbered list is rank `i + 1` with the fields of tuple `i` |
| Leaderboard.NumberRows | leader_bot/leaderboard_functions.py:93-101 | the `enumerate` loop yields the header followed by the numbered rows |
| Leaderboard.NumberedRowsShape | leader_bot/leaderboard_functions.py:91-101 | after the header the rows are ranked 1, 2, ... consecutively with non-increasing contributions |
| Leaderboard.RankingOfSorted | leader_bot/leaderboard_functions.py:91-101 | sorting and numbering the tuples gives a ranking of them: header, consecutive ranks, non-increasing contributions, each tuple once, ties in list order |
| Leaderboard.CreateLeaderboardByMonth | leader_bot/leaderboard_functions.py:46-103 | the method returns the computed leaderboard: window, loop, sort and numbering |
| LeaderboardData.DictSetMeaning | leader_bot/leaderboard_functions.py:20-22 | `d[k] = v` on an insertion-ordered dict adds the key, gives it the new value, keeps the other values and never duplicates a key |
| LeaderboardData.GettersOfUsers | leader_bot/leaderboard_functions.py:16-44 | with every user present, `get_data_for_year_month` and `get_qualified_dates` build dicts over the same handles, each handle once, with the values of the last user carrying it |
| LeaderboardData.CreateLeaderboardOfUsers | leader_bot/leaderboard_functions.py:46-103 | given the users, the leaderboard is computed over the two getters' dicts |
| LeaderboardData.LeaderboardOfNoUsers | leader_bot/leaderboard_functions.py:46-103 | with no users the leaderboard is the header row alone |
| LeaderboardData.CreateLeaderboardAsWritten | leader_bot/leaderboard_functions.py:46-64 | as written, once the year and month are valid the leaderboard raises `AttributeError` at `data.items()`, where with no users it would be the header row |
| Leaderboard.LeaderboardShape | leader_bot/leaderboard_functions.py:46-103 | a leaderboard that is built is a ranking of the tuples the loop collected |
| Leaderboard.RankingMembers | leader_bot/leaderboard_functions.py:93-101 | a ranking shows a tuple exactly when the tuple is in its list |
| Leaderboard.QualifiesMeaning | leader_bot/leaderboard_functions.py:64-89 | an item yields a tuple exactly when its user qualifies, with the user's handle and month's count |
| Leaderboard.LeaderboardMembers | leader_bot/leaderboard_functions.py:46-103 | a handle is on the leaderboard exactly when some item for it qualifies for the month, and then with that item's contributions for the month |
| Leaderboard.RankTextMeaning | leader_bot/leaderboard_functions.py:136-139 | ranks 1 to 3 are the three medals; a rank above 3 is its decimal digits followed by `". "`; only ranks below -2 raise (Python's negative index); lines 164-167 repeat the rule |
| Leaderboard.RankText | leader_bot/leaderboard_functions.py:136-139 | the medal for ranks up to 3, with Python's negative indexing, else the rank and `". "` (stated by `Leaderboard.RankTextMeaning`) |
| Leaderboard.Mention | leader_bot/leaderboard_functions.py:141-146 | `<@id>` when the lookup gives a non-empty id, else the handle |
| Leaderboard.LeaderboardTitle | leader_bot/leaderboard_functions.py:123-128 | the requested date in a month closure with a non-empty date, else today written as `%B %d, %Y`, inside the trophy title line |
| Leaderboard.LeaderboardLine | leader_bot/leaderboard_functions.py:130-148 | one message line of `leaderboard[1:]`: rank text, mention, contributions and days; the header row raises `TypeError` (stated by `Leaderboard.LeaderboardLineOk`) |
| Leaderboard.LeaderboardLineOk | leader_bot/leaderboard_functions.py:130-148 | an entry has a line exactly when it is a ranked row with a rank of at least -2 |
| Leaderboard.LinesOk | leader_bot/leaderboard_functions.py:130-148 | the lines exist exactly when every entry has one |
| Leaderboard.LinesStopAtError | leader_bot/leaderboard_functions.py:130-148 | the first entry without a line decides the error |
| Leaderboard.AppendLines | leader_bot/leaderboard_functions.py:130-148 | the `+=` loop appends the entries' lines to the title in order, or raises the first entry's error; the streak loop at lines 161-176 is the same loop |
| Leaderboard.FormatLeaderboardOk | leader_bot/leaderboard_functions.py:121-150 | the message is produced exactly when every entry after the header is a ranked row with a rank of at least -2 |
| Leaderboard.FormatLeaderboardOfRanking | leader_bot/leaderboard_functions.py:121-150 | a leaderboard built by `create_leaderboard_by_month` always formats, into chunks of at most 2000 characters |
| Leaderboard.FormatLeaderboardForDiscord | leader_bot/leaderboard_functions.py:121-150 | the method returns the title, the lines and the split |
| Leaderboard.Enumerate | leader_bot/leaderboard_functions.py:161-162 | each item is paired with its position plus one |
| Leaderboard.FormatStreaksOk | leader_bot/leaderboard_functions.py:153-178 | the streak message never fails and every chunk is at most 2000 characters |
| Leaderboard.StreakTextWording | leader_bot/leaderboard_functions.py:176 | a streak of 1 or less reads "day", a longer one "days" |
| Leaderboard.StreakLineWording | leader_bot/leaderboard_functions.py:164-176 | every ranked streak has a line, ending in its streak text |
| Leaderboard.FormatStreaksForDiscord | leader_bot/leaderboard_functions.py:153-178 | the method returns the title, one line per streak in sorted order, and the split |
| SheetFunctions.UserRow | leader_bot/sheet_functions.py:281 | the inserted row has three cells: the handle, the GitHub name and the repositories joined with `", "` and stripped |
| SheetFunctions.InsertUser | leader_bot/sheet_functions.py:280-282 | `insert_user` appends exactly one row, the user's row |
| SheetFunctions.InsertedReposReadBack | leader_bot/sheet_functions.py:281-296 | repositories without `", "` inside them, whose join has no surrounding blanks, are read back by `add_repository_for_user`'s split as the same list |
| SheetFunctions.SplitFree | leader_bot/sheet_functions.py:296 | a cell without the separator splits into itself alone |
| SheetFunctions.SplitAppend | leader_bot/sheet_functions.py:296-299 | appending the separator and a separator-free piece adds exactly that piece to the split |
| SheetFunctions.SplitJoin | leader_bot/sheet_functions.py:296-299 | splitting a join of separator-free pieces gives the pieces back |
| SheetFunctions.EditRowsMeaning | leader_bot/sheet_functions.py:293-326 | the row loop succeeds exactly when every row's step does, and then row `i` of the result is row `i` edited; otherwise the exception is that of the first failing row |
| SheetFunctions.EditRowsStopAtError | leader_bot/sheet_functions.py:293-326 | once a row raises, later rows do not change the outcome |
| SheetFunctions.RepoCellMeaning | leader_bot/sheet_functions.py:296-299 | a repository already listed leaves the cell as it was; another is appended after `", "` |
| SheetFunctions.RepoCellIdempotent | leader_bot/sheet_functions.py:296-299 | adding the same separator-free repository twice is adding it once |
| SheetFunctions.AddRepositoryStepMeaning | leader_bot/sheet_functions.py:294-300 | a row is processed exactly when it is non-empty and, if it matches, has a third cell; a matching row changes only in that cell, any other row not at all |
| SheetFunctions.AddRepositoryMeaning | leader_bot/sheet_functions.py:285-306 | an empty sheet writes nothing; the edit succeeds exactly when every row can be read; without the handle nothing is written; otherwise all rows are written back, the matching ones with the repository added and the others unchanged |
| SheetFunctions.AddRepositoryIdempotent | leader_bot/sheet_functions.py:285-306 | adding a separator-free repository again to the written rows writes the same rows |
| SheetFunctions.AddRepositoryForUser | leader_bot/sheet_functions.py:285-306 | the row loop computes the edit, or the first row's exception |
| SheetFunctions.UpdateUserMeaning | leader_bot/sheet_functions.py:309-342 | an empty sheet writes nothing; the edit succeeds exactly when every row can be read and every matching row has the cells being set; without the handle nothing is written; otherwise the sheet is rewritten with the matching rows getting only the values that were given and every other cell and row unchanged |
| SheetFunctions.UpdateUserNothingGiven | leader_bot/sheet_functions.py:319-326 | with neither a GitHub name nor repositories the rows are written back as they were |
| SheetFunctions.UpdateUserStepIdempotent | leader_bot/sheet_functions.py:320-325 | an edited row is left as it is by the same edit |
| SheetFunctions.UpdateUserIdempotent | leader_bot/sheet_functions.py:309-342 | updating the written rows again with the same values writes the same rows |
| SheetFunctions.UpdateUserRows | leader_bot/sheet_functions.py:309-342 | the row loop computes the edit, or the first row's exception |
| SheetFunctions.KeptRowsMeaning | leader_bot/sheet_functions.py:353-357 | the loop raises `IndexError` exactly when some row is empty; otherwise it keeps exactly the rows of other users and drops at least one row when the handle is present |
| SheetFunctions.KeptRowsAppend | leader_bot/sheet_functions.py:353-357 | deleting from two runs of rows is deleting from each, so surviving rows keep their order |
| SheetFunctions.KeptRowsIdempotent | leader_bot/sheet_functions.py:353-357 | deleting the same handle again keeps every row |
| SheetFunctions.KeptRowsStopAtError | leader_bot/sheet_functions.py:353-357 | once a row raises, later rows do not change the outcome |
| SheetFunctions.DeleteUserMeaning | leader_bot/sheet_functions.py:345-373 | an empty sheet or a missing handle writes nothing; otherwise the sheet is rewritten with every row of other users and no row of this one |
| SheetFunctions.DeleteUserRows | leader_bot/sheet_functions.py:345-373 | the row loop computes the deletion |
| SheetFunctions.Dashes | leader_bot/sheet_functions.py:227 | `"➖" * n` is n dashes |
| SheetFunctions.RowLinesAppend | leader_bot/sheet_functions.py:229-230 | the lines of two runs of rows are those of the first followed by those of the second |
| SheetFunctions.FormatLineCount | leader_bot/sheet_functions.py:216-232 | with no cell holding a line break, a non-empty sheet renders as one line per row plus the separator line |
| SheetFunctions.FormatHeader | leader_bot/sheet_functions.py:220-227 | the rendering begins with the header line and under it eight dashes per header |
| SheetFunctions.FormatAppendRow | leader_bot/sheet_functions.py:229-230 | each further data row adds its line at the end |
| SheetFunctions.FormatForDiscordLoop | leader_bot/sheet_functions.py:216-232 | the `+=` loop builds the rendering: `"No data found."` for an empty sheet, else header, separator and one line per row |
| Utils.ConvertToIso8601 | leader_bot/utils.py:8-12 | succeeds exactly when `strptime("%Y-%m-%d")` does, raising its error otherwise; the result is a 20-character zero-padded date followed by `T00:00:00Z` |
| Utils.ConvertKeepsDate | leader_bot/utils.py:8-12 | the timestamp's date part parses back to the day the input named |
| Utils.ConvertCanonical | leader_bot/utils.py:8-12 | a zero-padded existing date maps to itself followed by `T00:00:00Z` |
| Utils.LeapDay | leader_bot/utils.py:10 | February 29 of 2024 exists |
| Utils.NoLeapDay | leader_bot/utils.py:10 | February 29 of 2023 is a `ValueError` |
| Utils.MalformedDates | leader_bot/utils.py:10 | a month past 12 or a letter in a field is a parse error |
| Text.LStrip | leader_bot/leaderboard_functions.py:116 | `lstrip()` removes exactly the leading whitespace: the result is a suffix, what was removed is all whitespace, and the result does not start with whitespace |
| Text.RStrip | leader_bot/sheet_functions.py:281 | `rstrip()` removes exactly the trailing whitespace |
| Text.Strip | leader_bot/sheet_functions.py:281 | `strip()` is `lstrip()` after `rstrip()` |
| Text.RStripChar | github_tracker_bot/commit_scraper.py:49 | `rstrip("/")` removes exactly the trailing slashes: the result is a prefix, everything removed is a slash, and the result does not end with one |
| Text.StartsWithIsPrefix | leader_bot/db_functions.py:83 | `startswith` holds exactly when the argument is a prefix |
| Text.FindFrom | leader_bot/sheet_functions.py:296 | the position found is an occurrence at or after the start with none between; none found means no occurrence from the start on |
| Text.FindIsFirst | leader_bot/sheet_functions.py:296 | an occurrence with none before it is the one found |
| Text.SplitFirst | leader_bot/sheet_functions.py:296 | the first occurrence of the separator ends the first piece and the rest is the split of what follows it |
| Text.JoinSplit | leader_bot/sheet_functions.py:296-299 | joining the split pieces with the separator gives the string back |
| Text.JoinAppend | leader_bot/sheet_functions.py:298-299 | joining one more part appends the separator and the part |
| Text.LessIrreflexive | leader_bot/leaderboard_functions.py:66-73 | no string is below itself in Python's string order |
| Text.LessTransitive | leader_bot/leaderboard_functions.py:66-73 | the string order is transitive |
| Text.LessTotal | leader_bot/leaderboard_functions.py:66-73 | any two distinct strings are ordered one way or the other |
| Text.LessAsymmetric | leader_bot/leaderboard_functions.py:66-73 | two strings are never each below the other |
| Text.InsertSorted | leader_bot/db_functions.py:91 | inserting into a strictly increasing list keeps it strictly increasing and adds exactly the element |
| Text.SortedDistinct | leader_bot/db_functions.py:91 | the result is strictly increasing and holds exactly the input's elements |
| Text.StrictlySortedDistinct | leader_bot/db_functions.py:91 | a strictly increasing list has no repeated element |
| Text.LeastExists | leader_bot/leaderboard_functions.py:66-73 | a non-empty set of strings has a least element |
| Text.LeastUnique | leader_bot/leaderboard_functions.py:66-73 | the least element is unique |
| Text.SortedElements | leader_bot/db_functions.py:91 | lists a set's elements strictly increasing, each exactly once |
| Text.SortedElementsCard | leader_bot/db_functions.py:91 | the listing has as many entries as the set has elements |
| Text.Min | leader_bot/leaderboard_functions.py:66-73 | `min` of a non-empty list is an element no greater than any other |
| Text.NatToString | leader_bot/leaderboard_functions.py:139 | `str(n)` is a non-empty run of decimal digits |
| Text.DigitsValueOfNatToString | leader_bot/leaderboard_functions.py:139 | the digits of `str(n)` denote `n` |
| Text.ZFill | leader_bot/leaderboard_functions.py:50 | `zfill(w)` pads to width `w` with zeros on the left (after a sign) and leaves longer strings alone |
| Text.ParseIntUnpadded | leader_bot/leaderboard_functions.py:53-58 | `int(s)` of an optionally signed run of digits is its value |
| Calendar.MakeDate | leader_bot/leaderboard_functions.py:60-76 | `datetime(y, m, d)` succeeds exactly on a valid date, and is that date |
| Calendar.PrevDayThenNext | leader_bot/leaderboard_functions.py:60 | the day before a date is the day whose next day it is, which is what `- timedelta(days=1)` relies on |
| Calendar.NextDayOrdinal | github_tracker_bot/helpers/helper_functions.py:80 | the next calendar day has the next day number, so `+ timedelta(days=1)` is `+ 1` on day numbers |
| Calendar.OrdinalBounds | github_tracker_bot/helpers/helper_functions.py:80 | the day numbers of representable dates run from 1 to that of 9999-12-31 |
| Calendar.DaysBetweenMidnight | leader_bot/leaderboard_functions.py:78-80 | `(a - b).days` with `b` at midnight is the difference of day numbers, whatever the time of `a` |
| Calendar.FormatThenParse | github_tracker_bot/helpers/helper_functions.py:43-60 | a rendered date is zero-padded and parses back to itself |
| Calendar.ParseThenFormat | github_tracker_bot/helpers/helper_functions.py:60-65 | a zero-padded date that parses renders back to the same text |
| Calendar.IsoParseOfFormat | github_tracker_bot/helpers/helper_functions.py:33-45 | a rendered date is parsed by `isoparse` as its midnight |
| Calendar.IsoParse | github_tracker_bot/helpers/helper_functions.py:33-41 | `isoparse(...).replace(tzinfo=None)` on the modelled forms: a parsed value is a valid naive datetime whose date is the leading `YYYY-MM-DD`, whose time is the `HH:MM:SS` after the separator when there is one, followed by nothing or a valid offset; a date alone gives its midnight; an accepted string is all ASCII, and a non-ASCII separator is the `ValueError` of `_takes_ascii` before anything else is read |
| Calendar.IsoParseNoonWith | github_tracker_bot/helpers/helper_functions.py:33-41 | a timestamp parses exactly when what follows the seconds is empty or a valid offset, and the offset does not move the time |
| Calendar.OffsetSpellings | github_tracker_bot/helpers/helper_functions.py:33-41 | offsets with hours above 23, minutes above 59 or a one-digit hour are rejected, as `dateutil` rejects them; `z`, `+HH`, `-HHMM` and `+HH:MM` are accepted; `+05:3`, `+05030` and `+ 5:30`, which `dateutil` reads, are rejected |
| Calendar.NonAsciiSeparator | github_tracker_bot/helpers/helper_functions.py:33-41 | a non-ASCII character between the date and the time is a `ValueError`, even when the date is invalid |
| Calendar.ParseYmd | leader_bot/db_functions.py:92 | `strptime(s, "%Y-%m-%d")`: a parsed date is a valid calendar date; a wrong shape or an impossible date is a `ValueError` |

## Left out

- Network and services: `fetch_diff`, PyGithub, `aiohttp`, the OpenAI call, Google Sheets and Drive, `read_sheet`, `insert_data`, `update_data`, `write_to_json` and every logger call are not part of this model. The model takes their answers as inputs, or returns what would be written (`SheetFunctions.SheetWrite`).
- Tokenizer and system prompt: tiktoken and the prompt text are the parameters of `TokenBudget.Tokenizer`. Token counts are whatever that function says.
- `str()` of a day batch: Python's rendering of a list of dicts is the `Renderer` parameter; its exact quoting and escaping are not modelled.
- Concurrency: the `asyncio.gather` of the day tasks runs sequentially in list order. `gather` keeps that order in its results, so the results are the same.
- Clock and Discord: `datetime.now()` and `get_discord_user_id` are parameters (`now`, `today`, `IdLookup`).
- MongoDB: the pymongo driver is replaced by a sequence of documents in natural order. `find_one` reads the first match, `update_one` and `delete_one` act on it, and `insert_one` always succeeds.
- `MongoStore.FromDict`: a field of the wrong JSON type is reported as a `TypeError`, where Python would in some cases accept it or fail later.
- `Bot.EntryToDecision` (and so `Bot.CreateAiDecisionsClass`): each field must have the type the dataclass annotates, and any other type is reported as a `TypeError`. The Python dataclasses check no types. An `is_qualified` of `"false"` or `null` from the model's JSON reply would be kept, and later counted by its truthiness: `"false"` counts as qualified. The model does not capture that.
- `dateutil.parser.isoparse`: only the forms the bot exchanges are modelled: `YYYY-MM-DD`, optionally followed by a separator and `HH:MM:SS`, then optionally `Z`, `z` or a `+HH`, `+HHMM` or `+HH:MM` offset (either sign) with hours below 24 and minutes below 60, as `dateutil` checks them. Other ISO 8601 forms are rejected: week dates, ordinal dates, compact forms, `HH` or `HH:MM` times, fractions of a second and `24:00:00`. So are offsets that `dateutil` reads with `int()` but that are not a sign and two-digit fields: `+05:3` (minutes `int("3")`), `+05030` (minutes `int("030")`) and `+ 5:30` (hours `int(" 5")`). The offset is dropped, as `.replace(tzinfo=None)` does.
- `Calendar.ParseYmd`: strptime's `\d` also matches non-ASCII decimal digits, in the four year digits and in the second digit of a `[12]\d` day, and `int()` reads them, so `"٢٠٢٤-05-01"` is 2024-05-01 in Python. The model accepts only ASCII digits there and rejects such strings with a `ValueError`. The month alternatives and the other day alternatives are ASCII-only in strptime too. `Utils.ConvertToIso8601`, `Stats.ParseAll` and the other strptime callers inherit this.
- `strftime("%Y")` for years below 1000: the platform's `%Y` may print fewer than four digits. The model always pads to four (`Calendar.FormatYmd`, `Utils.ConvertToIso8601`).
- Sorting by timestamp: `sorted(..., key=isoparse)` over commits is modelled as string order on the dates. That equals time order for the fixed-width `YYYY-MM-DDTHH:MM:SSZ` stamps GitHub returns, but not for arbitrary strings, nor for aware stamps with different offsets, which Python compares as instants. Whether a key raises is modelled (`ProcessCommits.SortKeyError`): a stamp outside the forms `Calendar.IsoParse` accepts is reported as the `ValueError` dateutil raises, so a form dateutil reads but the model does not, such as a fraction of a second, raises in the model only.
- Set iteration order: Python leaves the order of `list(set)` unspecified. The model lists sets in increasing string order (`Text.SortedElements`).
- Dict order: dicts that are iterated (`processed_commits`, `data.items()`, `streaks.items()`) are sequences of pairs in insertion order. Dicts that are only looked up are maps.
- `Text.ParseInt`: `int()` on strings with underscores or non-ASCII digits is not modelled. Such strings are rejected.
- In-place list edits: `list.sort()`, `append` on a user's lists and the row edits of the sheet functions are modelled on values. The object identity and aliasing of those lists are not modelled. The one in-place edit whose effect the caller sees, `handle_daily_exceed_data`, works on an `array`.
- `SheetFunctions`: a failed clear request in `update_user` and `delete_user` is only logged and the rows are still written. The model's `ReplaceRows` covers both cases.
- `CommitScraper.FetchCommits`: the `while url` loop is unbounded. A `Link` chain that cycles never ends, so the method requires a ghost bound within which the chain ends, and any such bound gives the same result (`CommitScraper.FollowFuel`).
- `Leaderboard.SplitMessage` requires `limit >= 1`. Both callers pass the default limit of 2000 (leader_bot/leaderboard_functions.py:150 and 178). For a negative limit the Python loop never ends. For a limit of 0 it never ends once the message holds a non-whitespace character. For a limit of 0 and a message that is empty or all whitespace, the loop does end: `[""]` for the empty message and `["", ""]` for whitespace. The model does not cover those two cases.
- `ProcessCommits.ProcessCommitsWithDiffs` takes the downloaded diffs as a parameter. In the source, the `fetch_diff` comprehension (github_tracker_bot/process_commits.py:125-128) reads `commit_info["repo"]` and `commit_info["sha"]` of every info before any concatenation, so a missing `repo` or `sha` raises that `KeyError` there. This happens even past the length of the diffs, and before another pair's missing key. The model reports the error of the first pair that raises in `ProcessCommits.Processed`.
- `convert_to_dict` (github_tracker_bot/bot_functions.py:265-277) is not modelled: it is a plain field copy that no core operation uses.
- `fetch_db_get_users` calls `get_users`, which github_tracker_bot/mongo_data_handler.py does not define (leader_bot/db_functions.py:34), so every caller fails as written (see "## Findings"). The corrected operations take the users' answer instead: `DbFunctions.CalculateMonthlyStreak` takes the user list as a parameter.
- `Leaderboard.CreateLeaderboardByMonth` takes the `data` and `qualified_dates` dicts as parameters, in place of calling the getters, whose fetch always fails. `LeaderboardData.CreateLeaderboardOfFetch` models the getters over the fetch's answer.
- `get_user_data_for_a_month_from_db` and `get_discord_user_id` (leader_bot/db_functions.py:54-63,109-116) call `helpers` code and Mongo queries that are not part of this model.
- `DbFunctions.InsertDiscordUsers`: `insert_many` is the `Inserter` parameter and answers only success or failure. The inserted ids are not modelled.
- `Stats.TallyCounts` states each month's count, not the total. The sum of all counts equalling the number of dates is stated separately by `Stats.TallySum` over the ghost `Stats.MapSum`.

## Findings

| source | as written | input that shows it | evidently intended | confidence | as-written member | corrected member |
|---|---|---|---|---|---|---|
| github_tracker_bot/bot_functions.py:202-207 | `get_result` awaits `get_user_commits_in_repo(username, repo_link, since_date, until_date)`, but that function takes two parameters (github_tracker_bot/commit_scraper.py:42). The call raises `TypeError`, the `except` logs it, and the function returns None | any call, e.g. `get_result("alice", "https://github.com/org/repo", "2024-05-01", "2024-05-02")` | the commits of the user in the repository for the date window are fetched, and the day results are built from them | not executed | Bot.GetResultAsWrittenIsNone | Bot.GetResultMeaning |
| leader_bot/db_functions.py:33-35 | `fetch_db_get_users` calls `mongo_manager.get_users()`, which `MongoDBManagement` does not define, so it raises `AttributeError`. `calculate_monthly_streak` catches it (lines 104-106) and returns `{}` for every month | any call, e.g. `calculate_monthly_streak("2024-05")` with a stored user who has qualified dates in May 2024 | the users are fetched, and each user with in-month dates is reported with their longest run | not executed | DbFunctions.CalculateMonthlyStreakAsWritten | DbFunctions.MonthlyStreaksMeaning |
| leader_bot/leaderboard_functions.py:16-64 | `get_data_for_year_month` and `get_qualified_dates` call the same fetch, log its `AttributeError` and return None. `create_leaderboard_by_month` then raises `AttributeError` at `data.items()` (line 64) on every call whose year and month are valid | `create_leaderboard_by_month("2024", "5")` | the leaderboard of the users who qualify in the month, ranked by contributions | not executed | LeaderboardData.CreateLeaderboardAsWritten | Leaderboard.LeaderboardMembers |

The corrected `get_result` takes the fetcher's answer as a parameter (`Bot.GetResultOf`, `Bot.GetResult`). The fetcher in the source also never hands back its commits: `get_user_commits_in_repo` has no `return` after the fetch (github_tracker_bot/commit_scraper.py:55-70). `CommitScraper.GetUserCommitsInRepo` models that code as written, and `CommitScraper.FetchCommits` is the listing the corrected fetcher would return.

The corrected streak and leaderboard take what a working fetch would return. `DbFunctions.CalculateMonthlyStreak` takes the user list. `Leaderboard.CreateLeaderboardByMonth` takes the two dicts, and `LeaderboardData.CreateLeaderboardOfUsers` shows that these are the dicts the getters build from the users.

## Behaviours kept as written

The model keeps these behaviours of the code:

- `calculate_streak([])` is 1, not 0. `current_streak` starts at 1 and is folded into the maximum after the loop (github_tracker_bot/helpers/helper_functions.py:76-88, `Stats.StreakOfBounds`).
- `get_user_commits_in_repo` never hands back its commits. It returns None, never an empty list, on every path that does not raise. When the listing fails, `len(commits)` raises a `TypeError` that nothing catches (github_tracker_bot/commit_scraper.py:42-70).
- MongoDB allows several documents with one handle, and `find_one` reads the first of them. So the store is a sequence of documents, not a map keyed by handle. `MongoStore.CreateThenFind` states what a duplicate handle does.
