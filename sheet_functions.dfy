/** The roster sheet edits: the rows the bot writes back to the Google Sheet
    when a user is inserted, gains a repository, is updated or is deleted, and
    the Discord rendering of the sheet. The sheet is the list of rows it
    returned when read; a row is a list of cells, the handle in the first,
    the GitHub name in the second and the comma-separated repositories in
    the third. */
module SheetFunctions {
  import opened Wrappers
  import Text

  type Row = seq<string>

  /** The separator between the repositories of one cell. */
  const RepoSep := ", "

  /** What an edit does to the sheet. */
  datatype SheetWrite =
    | NoData                          // the sheet read back empty: error logged, nothing written
    | UserNotFound                    // no row has the handle: error logged, nothing written
    | AppendRows(appended: seq<Row>)  // `insert_data`: rows appended after the last one
    | UpdateRows(rows: seq<Row>)      // `update_data` over the sheet's range
    | ReplaceRows(rows: seq<Row>)     // the sheet cleared, then `update_data`

  // ---------------------------------------------------------------- insert

  /** The single row `insert_user` appends. */
  function UserRow(handle: string, github: string, repos: seq<string>): (row: Row)
    ensures |row| == 3 && row[0] == handle && row[1] == github
    ensures row[2] == Text.Strip(Text.Join(repos, RepoSep))
  {
    [handle, github, Text.Strip(Text.Join(repos, RepoSep))]
  }

  function InsertUser(handle: string, github: string, repos: seq<string>): (w: SheetWrite)
    ensures w.AppendRows? && |w.appended| == 1 && w.appended[0] == UserRow(handle, github, repos)
  {
    AppendRows([UserRow(handle, github, repos)])
  }

  /** `p` occurs nowhere in `s`. */
  predicate Free(s: string, p: string) {
    forall j :: 0 <= j <= |s| - |p| ==> !Text.OccursAt(s, p, j)
  }

  /** The repositories written by `insert_user` are read back by the split that
      `add_repository_for_user` does, when none of them contains the separator
      and the joined cell has no surrounding blanks for `strip` to remove. */
  lemma InsertedReposReadBack(handle: string, github: string, repos: seq<string>)
    requires repos != [] && forall i :: 0 <= i < |repos| ==> Free(repos[i], RepoSep)
    requires Text.Strip(Text.Join(repos, RepoSep)) == Text.Join(repos, RepoSep)
    ensures Text.Split(UserRow(handle, github, repos)[2], RepoSep) == repos
  {
    SplitJoin(repos);
  }

  // ------------------------------------------------------- separator facts

  /** A string without the separator splits into itself. */
  lemma SplitFree(t: string)
    requires Free(t, RepoSep)
    ensures Text.Split(t, RepoSep) == [t]
  {
    assert Text.Find(t, RepoSep).None?;
  }

  /** Appending the separator and a piece without it adds exactly that piece
      to the split: `", "` cannot overlap itself, so no occurrence straddles
      the join. */
  lemma {:induction false} SplitAppend(s: string, t: string)
    requires Free(t, RepoSep)
    decreases |s|
    ensures Text.Split(s + RepoSep + t, RepoSep) == Text.Split(s, RepoSep) + [t]
  {
    var u := s + RepoSep + t;
    match Text.Find(s, RepoSep)
    case None =>
      forall j | 0 <= j < |s| ensures !Text.OccursAt(u, RepoSep, j) {
        if j + 2 <= |s| {
          assert u[j..j + 2] == s[j..j + 2];
          assert !Text.OccursAt(s, RepoSep, j);
        } else {
          assert u[j + 1] == ',';
          assert j + 2 <= |u| ==> u[j..j + 2][1] == u[j + 1];
        }
      }
      assert Text.OccursAt(u, RepoSep, |s|) by { assert u[|s|..|s| + 2] == RepoSep; }
      Text.FindIsFirst(u, RepoSep, |s|);
      assert u[|s| + 2..] == t;
      assert u[..|s|] == s;
      SplitFree(t);
    case Some(i) =>
      forall j | 0 <= j < i ensures !Text.OccursAt(u, RepoSep, j) {
        assert u[j..j + 2] == s[j..j + 2];
        assert !Text.OccursAt(s, RepoSep, j);
      }
      assert Text.OccursAt(u, RepoSep, i) by { assert u[i..i + 2] == s[i..i + 2]; }
      Text.FindIsFirst(u, RepoSep, i);
      var rest := s[i + 2..];
      assert u[i + 2..] == rest + RepoSep + t;
      assert u[..i] == s[..i];
      SplitAppend(rest, t);
      assert Text.Split(s, RepoSep) == [s[..i]] + Text.Split(rest, RepoSep);
  }

  /** Splitting a join of separator-free pieces gives the pieces back. */
  lemma {:induction false} SplitJoin(xs: seq<string>)
    requires xs != [] && forall i :: 0 <= i < |xs| ==> Free(xs[i], RepoSep)
    decreases |xs|
    ensures Text.Split(Text.Join(xs, RepoSep), RepoSep) == xs
  {
    if |xs| == 1 {
      SplitFree(xs[0]);
    } else {
      var init := xs[..|xs| - 1];
      SplitJoin(init);
      Text.JoinAppend(init, xs[|xs| - 1], RepoSep);
      assert init + [xs[|xs| - 1]] == xs;
      SplitAppend(Text.Join(init, RepoSep), xs[|xs| - 1]);
    }
  }

  // ------------------------------------------------------ row-by-row loops

  /** The loop over the rows, in order: every row goes through `step`, and the
      first row whose step raises ends the loop with that exception. */
  function EditRows(data: seq<Row>, step: Row -> Result<Row>): (r: Result<seq<Row>>)
    decreases |data|
  {
    if data == [] then Ok([])
    else
      match EditRows(data[..|data| - 1], step)
      case Err(e) => Err(e)
      case Ok(prefix) =>
        match step(data[|data| - 1])
        case Err(e) => Err(e)
        case Ok(row) => Ok(prefix + [row])
  }

  /** The edit succeeds iff every row's step does; then row `i` of the result is
      the step applied to row `i`; otherwise the exception is the first row's. */
  lemma {:induction false} EditRowsMeaning(data: seq<Row>, step: Row -> Result<Row>)
    decreases |data|
    ensures EditRows(data, step).Ok? <==> forall i :: 0 <= i < |data| ==> step(data[i]).Ok?
    ensures EditRows(data, step).Ok? ==>
              |EditRows(data, step).value| == |data|
              && forall i :: 0 <= i < |data| ==> EditRows(data, step).value[i] == step(data[i]).value
    ensures EditRows(data, step).Err? ==>
              exists k :: 0 <= k < |data| && step(data[k]) == Err(EditRows(data, step).error)
                          && forall i :: 0 <= i < k ==> step(data[i]).Ok?
  {
    if data != [] {
      var init := data[..|data| - 1];
      EditRowsMeaning(init, step);
      assert forall i :: 0 <= i < |init| ==> init[i] == data[i];
    }
  }

  /** A raised exception ends the loop: later rows do not matter. */
  lemma {:induction false} EditRowsStopAtError(data: seq<Row>, step: Row -> Result<Row>, k: nat)
    requires k <= |data| && EditRows(data[..k], step).Err?
    decreases |data| - k
    ensures EditRows(data, step) == EditRows(data[..k], step)
  {
    if k < |data| {
      assert data[..k + 1][..k] == data[..k];
      EditRowsStopAtError(data, step, k + 1);
    } else {
      assert data[..k] == data;
    }
  }

  /** The handle column: some row starts with `handle`. */
  predicate HasHandle(data: seq<Row>, handle: string) {
    exists i :: 0 <= i < |data| && data[i] != [] && data[i][0] == handle
  }

  // -------------------------------------------------------- add repository

  /** The repositories cell after adding `repo`: unchanged when the split
      already lists it, otherwise the split with `repo` appended, joined. */
  function RepoCell(cell: string, repo: string): string {
    var current := Text.Split(cell, RepoSep);
    if repo in current then cell else Text.Join(current + [repo], RepoSep)
  }

  /** Adding a listed repository changes nothing; adding another appends the
      separator and the repository to the cell. */
  lemma RepoCellMeaning(cell: string, repo: string)
    ensures repo in Text.Split(cell, RepoSep) ==> RepoCell(cell, repo) == cell
    ensures repo !in Text.Split(cell, RepoSep) ==> RepoCell(cell, repo) == cell + RepoSep + repo
  {
    Text.JoinSplit(cell, RepoSep);
    Text.JoinAppend(Text.Split(cell, RepoSep), repo, RepoSep);
  }

  /** Adding the same repository twice is adding it once, for a repository
      that does not itself contain the separator. */
  lemma RepoCellIdempotent(cell: string, repo: string)
    requires Free(repo, RepoSep)
    ensures RepoCell(RepoCell(cell, repo), repo) == RepoCell(cell, repo)
  {
    RepoCellMeaning(cell, repo);
    if repo !in Text.Split(cell, RepoSep) {
      SplitAppend(cell, repo);
      assert repo in Text.Split(cell + RepoSep + repo, RepoSep);
    }
  }

  /** One row of the `add_repository_for_user` loop: `row[0]` raises on an
      empty row and `row[2]` on a matching row with fewer than three cells. */
  function AddRepositoryStep(row: Row, handle: string, repo: string): Result<Row> {
    if row == [] then Err(IndexError)
    else if row[0] != handle then Ok(row)
    else if |row| < 3 then Err(IndexError)
    else Ok(row[2 := RepoCell(row[2], repo)])
  }

  function AddRepositoryStepFor(handle: string, repo: string): Row -> Result<Row> {
    row => AddRepositoryStep(row, handle, repo)
  }

  lemma AddRepositoryStepMeaning(row: Row, handle: string, repo: string)
    ensures AddRepositoryStep(row, handle, repo).Ok? <==> row != [] && (row[0] == handle ==> |row| >= 3)
    ensures AddRepositoryStep(row, handle, repo).Ok? ==>
              var r := AddRepositoryStep(row, handle, repo).value;
              |r| == |row| && r[0] == row[0]
              && (forall j :: 0 <= j < |row| && j != 2 ==> r[j] == row[j])
              && (row[0] == handle ==> r[2] == RepoCell(row[2], repo))
              && (row[0] != handle ==> r == row)
  {
  }

  /** `add_repository_for_user` on the rows read from the sheet. */
  function AddRepository(data: seq<Row>, handle: string, repo: string): Result<SheetWrite> {
    if data == [] then Ok(NoData)
    else
      match EditRows(data, AddRepositoryStepFor(handle, repo))
      case Err(e) => Err(e)
      case Ok(rows) => if HasHandle(data, handle) then Ok(UpdateRows(rows)) else Ok(UserNotFound)
  }

  /** Only matching rows change, and in them only the repositories cell; no
      write happens when the sheet is empty or no row has the handle. */
  lemma AddRepositoryMeaning(data: seq<Row>, handle: string, repo: string)
    ensures data == [] ==> AddRepository(data, handle, repo) == Ok(NoData)
    ensures AddRepository(data, handle, repo).Ok? <==>
              forall i :: 0 <= i < |data| ==> data[i] != [] && (data[i][0] == handle ==> |data[i]| >= 3)
    ensures AddRepository(data, handle, repo).Ok? && data != [] && !HasHandle(data, handle) ==>
              AddRepository(data, handle, repo) == Ok(UserNotFound)
    ensures AddRepository(data, handle, repo).Ok? && HasHandle(data, handle) ==>
              var w := AddRepository(data, handle, repo).value;
              w.UpdateRows? && |w.rows| == |data|
              && forall i :: 0 <= i < |data| ==>
                   (data[i][0] != handle ==> w.rows[i] == data[i])
                   && (data[i][0] == handle ==> w.rows[i] == data[i][2 := RepoCell(data[i][2], repo)])
  {
    var step := AddRepositoryStepFor(handle, repo);
    EditRowsMeaning(data, step);
    forall i | 0 <= i < |data| ensures step(data[i]) == AddRepositoryStep(data[i], handle, repo) {
    }
  }

  /** Adding a repository twice writes the same rows as adding it once. */
  lemma AddRepositoryIdempotent(data: seq<Row>, handle: string, repo: string)
    requires Free(repo, RepoSep)
    requires AddRepository(data, handle, repo).Ok? && AddRepository(data, handle, repo).value.UpdateRows?
    ensures var rows := AddRepository(data, handle, repo).value.rows;
            AddRepository(rows, handle, repo) == Ok(UpdateRows(rows))
  {
    var rows := AddRepository(data, handle, repo).value.rows;
    var step := AddRepositoryStepFor(handle, repo);
    AddRepositoryMeaning(data, handle, repo);
    assert HasHandle(data, handle);
    var k :| 0 <= k < |data| && data[k] != [] && data[k][0] == handle;
    forall i | 0 <= i < |rows| ensures rows[i] != [] && rows[i][0] == data[i][0] && step(rows[i]) == Ok(rows[i]) {
      if data[i][0] == handle {
        RepoCellIdempotent(data[i][2], repo);
        assert rows[i][2 := RepoCell(rows[i][2], repo)] == rows[i];
      }
    }
    assert HasHandle(rows, handle) by { assert rows[k][0] == handle; }
    EditRowsMeaning(rows, step);
    assert EditRows(rows, step).value == rows;
  }

  /** The loop of `add_repository_for_user`, row by row. */
  method AddRepositoryForUser(data: seq<Row>, handle: string, repo: string) returns (r: Result<SheetWrite>)
    ensures r == AddRepository(data, handle, repo)
  {
    if data == [] {
      return Ok(NoData);
    }
    var updated: seq<Row> := [];
    var userFound := false;
    for i := 0 to |data|
      invariant EditRows(data[..i], AddRepositoryStepFor(handle, repo)) == Ok(updated)
      invariant userFound <==> HasHandle(data[..i], handle)
    {
      assert data[..i + 1][..i] == data[..i];
      var row := data[i];
      if row == [] {
        EditRowsStopAtError(data, AddRepositoryStepFor(handle, repo), i + 1);
        return Err(IndexError);
      }
      if row[0] == handle {
        userFound := true;
        if |row| < 3 {
          EditRowsStopAtError(data, AddRepositoryStepFor(handle, repo), i + 1);
          return Err(IndexError);
        }
        var currentRepos := Text.Split(row[2], RepoSep);
        if repo !in currentRepos {
          currentRepos := currentRepos + [repo];
          row := row[2 := Text.Join(currentRepos, RepoSep)];
        } else {
          assert row[2 := RepoCell(row[2], repo)] == row;
        }
      }
      assert AddRepositoryStepFor(handle, repo)(data[i]) == Ok(row);
      updated := updated + [row];
      assert HasHandle(data[..i + 1], handle) <==> HasHandle(data[..i], handle) || data[i][0] == handle by {
        assert data[..i + 1][i] == data[i];
        assert forall j :: 0 <= j < i ==> data[..i + 1][j] == data[..i][j];
      }
    }
    assert data[..|data|] == data;
    if !userFound {
      return Ok(UserNotFound);
    }
    return Ok(UpdateRows(updated));
  }

  // ----------------------------------------------------------- update user

  /** The repositories cell `update_user` writes: `", ".join(repos).strip()`. */
  function RepoList(repos: seq<string>): string {
    Text.Strip(Text.Join(repos, RepoSep))
  }

  /** One row of the `update_user` loop: a matching row gets the GitHub name
      and the repositories that were given; assigning `row[1]` or `row[2]`
      past the end of the row raises. */
  function UpdateUserStep(row: Row, handle: string, github: Option<string>, repos: Option<seq<string>>): Result<Row> {
    if row == [] then Err(IndexError)
    else if row[0] != handle then Ok(row)
    else if github.Some? && |row| < 2 then Err(IndexError)
    else if repos.Some? && |row| < 3 then Err(IndexError)
    else
      var named := if github.Some? then row[1 := github.value] else row;
      Ok(if repos.Some? then named[2 := RepoList(repos.value)] else named)
  }

  function UpdateUserStepFor(handle: string, github: Option<string>, repos: Option<seq<string>>): Row -> Result<Row> {
    row => UpdateUserStep(row, handle, github, repos)
  }

  /** `update_user` on the rows read from the sheet: the sheet is cleared and
      the edited rows written back. */
  function UpdateUser(data: seq<Row>, handle: string, github: Option<string>, repos: Option<seq<string>>): Result<SheetWrite> {
    if data == [] then Ok(NoData)
    else
      match EditRows(data, UpdateUserStepFor(handle, github, repos))
      case Err(e) => Err(e)
      case Ok(rows) => if HasHandle(data, handle) then Ok(ReplaceRows(rows)) else Ok(UserNotFound)
  }

  /** Only matching rows change, and in them only the cells whose new value
      was given. */
  lemma UpdateUserMeaning(data: seq<Row>, handle: string, github: Option<string>, repos: Option<seq<string>>)
    ensures data == [] ==> UpdateUser(data, handle, github, repos) == Ok(NoData)
    ensures UpdateUser(data, handle, github, repos).Ok? <==>
              forall i :: 0 <= i < |data| ==>
                data[i] != [] && (data[i][0] == handle && github.Some? ==> |data[i]| >= 2)
                && (data[i][0] == handle && repos.Some? ==> |data[i]| >= 3)
    ensures UpdateUser(data, handle, github, repos).Ok? && data != [] && !HasHandle(data, handle) ==>
              UpdateUser(data, handle, github, repos) == Ok(UserNotFound)
    ensures UpdateUser(data, handle, github, repos).Ok? && HasHandle(data, handle) ==>
              var w := UpdateUser(data, handle, github, repos).value;
              w.ReplaceRows? && |w.rows| == |data|
              && forall i :: 0 <= i < |data| ==>
                   |w.rows[i]| == |data[i]| && w.rows[i][0] == data[i][0]
                   && (data[i][0] != handle ==> w.rows[i] == data[i])
                   && (data[i][0] == handle ==>
                         (forall j :: 3 <= j < |data[i]| ==> w.rows[i][j] == data[i][j])
                         && (github.Some? ==> w.rows[i][1] == github.value)
                         && (github.None? && |data[i]| >= 2 ==> w.rows[i][1] == data[i][1])
                         && (repos.Some? ==> w.rows[i][2] == RepoList(repos.value))
                         && (repos.None? && |data[i]| >= 3 ==> w.rows[i][2] == data[i][2]))
  {
    var step := UpdateUserStepFor(handle, github, repos);
    EditRowsMeaning(data, step);
    forall i | 0 <= i < |data| ensures step(data[i]) == UpdateUserStep(data[i], handle, github, repos) {
    }
  }

  /** With neither a new GitHub name nor new repositories the rows are
      written back unchanged. */
  lemma UpdateUserNothingGiven(data: seq<Row>, handle: string)
    requires UpdateUser(data, handle, None, None).Ok? && HasHandle(data, handle)
    ensures UpdateUser(data, handle, None, None) == Ok(ReplaceRows(data))
  {
    UpdateUserMeaning(data, handle, None, None);
    var rows := UpdateUser(data, handle, None, None).value.rows;
    assert rows == data;
  }

  /** A row edited once is left as it is by the same edit. */
  lemma UpdateUserStepIdempotent(row: Row, handle: string, github: Option<string>, repos: Option<seq<string>>)
    requires UpdateUserStep(row, handle, github, repos).Ok?
    ensures var r := UpdateUserStep(row, handle, github, repos).value;
            r != [] && r[0] == row[0] && UpdateUserStep(r, handle, github, repos) == Ok(r)
  {
    var r := UpdateUserStep(row, handle, github, repos).value;
    if row[0] == handle {
      var named := if github.Some? then r[1 := github.value] else r;
      assert named == r;
      assert (if repos.Some? then named[2 := RepoList(repos.value)] else named) == r;
    }
  }

  /** Updating twice with the same values writes what updating once does. */
  lemma UpdateUserIdempotent(data: seq<Row>, handle: string, github: Option<string>, repos: Option<seq<string>>)
    requires UpdateUser(data, handle, github, repos).Ok? && UpdateUser(data, handle, github, repos).value.ReplaceRows?
    ensures var rows := UpdateUser(data, handle, github, repos).value.rows;
            UpdateUser(rows, handle, github, repos) == Ok(ReplaceRows(rows))
  {
    var step := UpdateUserStepFor(handle, github, repos);
    var rows := EditRows(data, step).value;
    EditRowsMeaning(data, step);
    var k :| 0 <= k < |data| && data[k] != [] && data[k][0] == handle;
    forall i | 0 <= i < |rows| ensures rows[i] != [] && rows[i][0] == data[i][0] && step(rows[i]) == Ok(rows[i]) {
      assert step(data[i]) == UpdateUserStep(data[i], handle, github, repos);
      UpdateUserStepIdempotent(data[i], handle, github, repos);
    }
    assert HasHandle(rows, handle) by { assert rows[k][0] == handle; }
    EditRowsMeaning(rows, step);
    assert EditRows(rows, step).value == rows;
  }

  /** The loop of `update_user`, row by row. */
  method UpdateUserRows(data: seq<Row>, handle: string, github: Option<string>, repos: Option<seq<string>>)
    returns (r: Result<SheetWrite>)
    ensures r == UpdateUser(data, handle, github, repos)
  {
    if data == [] {
      return Ok(NoData);
    }
    ghost var step := UpdateUserStepFor(handle, github, repos);
    var updated: seq<Row> := [];
    var userFound := false;
    for i := 0 to |data|
      invariant EditRows(data[..i], step) == Ok(updated)
      invariant userFound <==> HasHandle(data[..i], handle)
    {
      assert data[..i + 1][..i] == data[..i];
      var row := data[i];
      if row == [] {
        EditRowsStopAtError(data, step, i + 1);
        return Err(IndexError);
      }
      if row[0] == handle {
        userFound := true;
        if github.Some? {
          if |row| < 2 {
            EditRowsStopAtError(data, step, i + 1);
            return Err(IndexError);
          }
          row := row[1 := github.value];
        }
        if repos.Some? {
          if |row| < 3 {
            EditRowsStopAtError(data, step, i + 1);
            return Err(IndexError);
          }
          row := row[2 := RepoList(repos.value)];
        }
      }
      assert step(data[i]) == Ok(row);
      updated := updated + [row];
      assert HasHandle(data[..i + 1], handle) <==> HasHandle(data[..i], handle) || data[i][0] == handle by {
        assert data[..i + 1][i] == data[i];
        assert forall j :: 0 <= j < i ==> data[..i + 1][j] == data[..i][j];
      }
    }
    assert data[..|data|] == data;
    if !userFound {
      return Ok(UserNotFound);
    }
    return Ok(ReplaceRows(updated));
  }

  // ----------------------------------------------------------- delete user

  /** The rows the `delete_user` loop keeps: those whose handle differs, in
      order; `row[0]` raises on an empty row. */
  function KeptRows(data: seq<Row>, handle: string): Result<seq<Row>>
    decreases |data|
  {
    if data == [] then Ok([])
    else
      match KeptRows(data[..|data| - 1], handle)
      case Err(e) => Err(e)
      case Ok(prefix) =>
        var row := data[|data| - 1];
        if row == [] then Err(IndexError)
        else if row[0] != handle then Ok(prefix + [row])
        else Ok(prefix)
  }

  /** The loop succeeds iff no row is empty; it then keeps exactly the rows
      of other users, and drops at least one row when the handle is there. */
  lemma {:induction false} KeptRowsMeaning(data: seq<Row>, handle: string)
    decreases |data|
    ensures KeptRows(data, handle).Ok? <==> forall i :: 0 <= i < |data| ==> data[i] != []
    ensures KeptRows(data, handle).Err? ==> KeptRows(data, handle) == Err(IndexError)
    ensures KeptRows(data, handle).Ok? ==>
              var kept := KeptRows(data, handle).value;
              (forall x :: x in kept <==> x in data && x[0] != handle)
              && |kept| <= |data|
              && (HasHandle(data, handle) ==> |kept| < |data|)
  {
    if data != [] {
      var init := data[..|data| - 1];
      KeptRowsMeaning(init, handle);
      assert data == init + [data[|data| - 1]];
      assert forall i :: 0 <= i < |init| ==> init[i] == data[i];
      if KeptRows(data, handle).Ok? && HasHandle(data, handle) {
        var k :| 0 <= k < |data| && data[k] != [] && data[k][0] == handle;
        if k < |init| {
          assert init[k] == data[k];
        }
      }
    }
  }

  /** Deleting keeps the order of the surviving rows: it distributes over
      splitting the sheet in two. */
  lemma {:induction false} KeptRowsAppend(a: seq<Row>, b: seq<Row>, handle: string)
    requires KeptRows(a, handle).Ok? && KeptRows(b, handle).Ok?
    decreases |b|
    ensures KeptRows(a + b, handle) == Ok(KeptRows(a, handle).value + KeptRows(b, handle).value)
  {
    if b == [] {
      assert a + b == a;
      assert KeptRows(a, handle).value + [] == KeptRows(a, handle).value;
    } else {
      var init := b[..|b| - 1];
      assert (a + b)[..|a + b| - 1] == a + init;
      assert (a + b)[|a + b| - 1] == b[|b| - 1];
      assert KeptRows(init, handle).Ok?;
      KeptRowsAppend(a, init, handle);
      var pa, pi, row := KeptRows(a, handle).value, KeptRows(init, handle).value, b[|b| - 1];
      assert KeptRows(a + b, handle) == Ok(if row[0] != handle then (pa + pi) + [row] else pa + pi);
      assert (pa + pi) + [row] == pa + (pi + [row]);
    }
  }

  /** Deleting twice deletes nothing more. */
  lemma {:induction false} KeptRowsIdempotent(data: seq<Row>, handle: string)
    requires KeptRows(data, handle).Ok?
    decreases |data|
    ensures KeptRows(KeptRows(data, handle).value, handle) == KeptRows(data, handle)
  {
    if data != [] {
      var init := data[..|data| - 1];
      var row := data[|data| - 1];
      KeptRowsIdempotent(init, handle);
      var p := KeptRows(init, handle).value;
      if row[0] != handle {
        KeptRowsAppend(p, [row], handle);
        assert KeptRows([row], handle) == Ok([row]) by {
          assert [row][..0] == [];
        }
      }
    }
  }

  /** `delete_user` on the rows read from the sheet: the sheet is cleared and
      the kept rows written back. */
  function DeleteUser(data: seq<Row>, handle: string): Result<SheetWrite> {
    if data == [] then Ok(NoData)
    else
      match KeptRows(data, handle)
      case Err(e) => Err(e)
      case Ok(rows) => if HasHandle(data, handle) then Ok(ReplaceRows(rows)) else Ok(UserNotFound)
  }

  /** No write when the sheet is empty or the handle is not there; otherwise
      the rows of other users, and no row of this one, are written back. */
  lemma DeleteUserMeaning(data: seq<Row>, handle: string)
    ensures data == [] ==> DeleteUser(data, handle) == Ok(NoData)
    ensures DeleteUser(data, handle).Ok? <==> forall i :: 0 <= i < |data| ==> data[i] != []
    ensures DeleteUser(data, handle).Ok? && data != [] && !HasHandle(data, handle) ==>
              DeleteUser(data, handle) == Ok(UserNotFound)
    ensures DeleteUser(data, handle).Ok? && HasHandle(data, handle) ==>
              var w := DeleteUser(data, handle).value;
              w.ReplaceRows? && !HasHandle(w.rows, handle) && |w.rows| < |data|
              && forall x :: x in w.rows <==> x in data && x[0] != handle
  {
    KeptRowsMeaning(data, handle);
  }

  /** The loop of `delete_user`, row by row. */
  method DeleteUserRows(data: seq<Row>, handle: string) returns (r: Result<SheetWrite>)
    ensures r == DeleteUser(data, handle)
  {
    if data == [] {
      return Ok(NoData);
    }
    var updated: seq<Row> := [];
    var userFound := false;
    for i := 0 to |data|
      invariant KeptRows(data[..i], handle) == Ok(updated)
      invariant userFound <==> HasHandle(data[..i], handle)
    {
      assert data[..i + 1][..i] == data[..i];
      var row := data[i];
      if row == [] {
        KeptRowsStopAtError(data, handle, i + 1);
        return Err(IndexError);
      }
      if row[0] != handle {
        updated := updated + [row];
      } else {
        userFound := true;
      }
      assert HasHandle(data[..i + 1], handle) <==> HasHandle(data[..i], handle) || data[i][0] == handle by {
        assert data[..i + 1][i] == data[i];
        assert forall j :: 0 <= j < i ==> data[..i + 1][j] == data[..i][j];
      }
    }
    assert data[..|data|] == data;
    if !userFound {
      return Ok(UserNotFound);
    }
    return Ok(ReplaceRows(updated));
  }

  lemma {:induction false} KeptRowsStopAtError(data: seq<Row>, handle: string, k: nat)
    requires k <= |data| && KeptRows(data[..k], handle).Err?
    decreases |data| - k
    ensures KeptRows(data, handle) == KeptRows(data[..k], handle)
  {
    if k < |data| {
      assert data[..k + 1][..k] == data[..k];
      KeptRowsStopAtError(data, handle, k + 1);
    } else {
      assert data[..k] == data;
    }
  }

  // -------------------------------------------------------------- render

  const HeaderEmoji := "\U{1F539}"
  const RowEmoji := "\U{27A1}\U{FE0F}"
  const Dash := '\U{2796}'
  const NoDataMessage := "No data found."

  /** One line of the rendering: the emoji, a blank and the cells joined with `" | "`. */
  function CellLine(emoji: string, cells: Row): string {
    emoji + " " + Text.Join(cells, " | ") + "\n"
  }

  /** `"➖" * n`. */
  function Dashes(n: nat): (r: string)
    ensures |r| == n && forall i :: 0 <= i < |r| ==> r[i] == Dash
  {
    seq(n, _ => Dash)
  }

  /** The lines of the data rows, in order. */
  function RowLines(rows: seq<Row>): string
    decreases |rows|
  {
    if rows == [] then "" else RowLines(rows[..|rows| - 1]) + CellLine(RowEmoji, rows[|rows| - 1])
  }

  /** The header line and the separator under it: eight dashes per header. */
  function HeaderLines(headers: Row): string {
    CellLine(HeaderEmoji, headers) + Dashes(|headers| * 8) + "\n"
  }

  /** `format_for_discord`: the first row is the header. */
  function FormatForDiscord(data: seq<Row>): string {
    if data == [] then NoDataMessage else HeaderLines(data[0]) + RowLines(data[1..])
  }

  /** The lines of two runs of rows are the lines of the first, then those of the second. */
  lemma {:induction false} RowLinesAppend(a: seq<Row>, b: seq<Row>)
    decreases |b|
    ensures RowLines(a + b) == RowLines(a) + RowLines(b)
  {
    if b == [] {
      assert a + b == a;
    } else {
      var init := b[..|b| - 1];
      assert (a + b)[..|a + b| - 1] == a + init;
      assert (a + b)[|a + b| - 1] == b[|b| - 1];
      RowLinesAppend(a, init);
    }
  }

  /** How often `c` occurs in `s`. */
  function Count(s: string, c: char): nat
    decreases |s|
  {
    if s == [] then 0 else (if s[0] == c then 1 else 0) + Count(s[1..], c)
  }

  lemma {:induction false} CountAppend(s: string, t: string, c: char)
    decreases |s|
    ensures Count(s + t, c) == Count(s, c) + Count(t, c)
  {
    if s != [] {
      assert (s + t)[1..] == s[1..] + t;
      CountAppend(s[1..], t, c);
    } else {
      assert s + t == t;
    }
  }

  lemma {:induction false} CountAbsent(s: string, c: char)
    requires forall i :: 0 <= i < |s| ==> s[i] != c
    decreases |s|
    ensures Count(s, c) == 0
  {
    if s != [] {
      CountAbsent(s[1..], c);
    }
  }

  /** No cell of the row holds a line break. */
  predicate SingleLine(cells: Row) {
    forall i, k :: 0 <= i < |cells| && 0 <= k < |cells[i]| ==> cells[i][k] != '\n'
  }

  lemma {:induction false} JoinSingleLine(cells: Row, sep: string)
    requires SingleLine(cells) && Count(sep, '\n') == 0
    decreases |cells|
    ensures Count(Text.Join(cells, sep), '\n') == 0
  {
    if |cells| == 1 {
      CountAbsent(cells[0], '\n');
    } else if |cells| > 1 {
      CountAbsent(cells[0], '\n');
      assert SingleLine(cells[1..]) by {
        forall i, k | 0 <= i < |cells| - 1 && 0 <= k < |cells[1..][i]| ensures cells[1..][i][k] != '\n' {
          assert cells[1..][i] == cells[i + 1];
        }
      }
      JoinSingleLine(cells[1..], sep);
      CountAppend(cells[0] + sep, Text.Join(cells[1..], sep), '\n');
      CountAppend(cells[0], sep, '\n');
    }
  }

  /** A line of single-line cells holds exactly one line break, at its end. */
  lemma CellLineBreaks(emoji: string, cells: Row)
    requires SingleLine(cells) && Count(emoji + " ", '\n') == 0
    ensures Count(CellLine(emoji, cells), '\n') == 1
  {
    var sep := " | ";
    assert Count(sep, '\n') == 0 by { CountAbsent(sep, '\n'); }
    JoinSingleLine(cells, sep);
    CountAppend(emoji + " " + Text.Join(cells, sep), "\n", '\n');
    CountAppend(emoji + " ", Text.Join(cells, sep), '\n');
  }

  lemma {:induction false} RowLinesBreaks(rows: seq<Row>)
    requires forall i :: 0 <= i < |rows| ==> SingleLine(rows[i])
    decreases |rows|
    ensures Count(RowLines(rows), '\n') == |rows|
  {
    if rows != [] {
      RowLinesBreaks(rows[..|rows| - 1]);
      assert Count(RowEmoji + " ", '\n') == 0 by { CountAbsent(RowEmoji + " ", '\n'); }
      CellLineBreaks(RowEmoji, rows[|rows| - 1]);
      CountAppend(RowLines(rows[..|rows| - 1]), CellLine(RowEmoji, rows[|rows| - 1]), '\n');
    }
  }

  /** With no line break inside a cell, the rendering of a non-empty sheet has
      one line per row plus the separator line. */
  lemma FormatLineCount(data: seq<Row>)
    requires data != [] && forall i :: 0 <= i < |data| ==> SingleLine(data[i])
    ensures Count(FormatForDiscord(data), '\n') == |data| + 1
  {
    assert forall i :: 0 <= i < |data| - 1 ==> data[1..][i] == data[i + 1];
    RowLinesBreaks(data[1..]);
    assert Count(HeaderEmoji + " ", '\n') == 0 by { CountAbsent(HeaderEmoji + " ", '\n'); }
    CellLineBreaks(HeaderEmoji, data[0]);
    var d := Dashes(|data[0]| * 8);
    CountAbsent(d, '\n');
    CountAppend(d, "\n", '\n');
    CountAppend(CellLine(HeaderEmoji, data[0]), d + "\n", '\n');
    assert HeaderLines(data[0]) == CellLine(HeaderEmoji, data[0]) + (d + "\n");
    CountAppend(HeaderLines(data[0]), RowLines(data[1..]), '\n');
  }

  /** The rendering starts with the header line and, under it, a separator
      of eight dashes per header. */
  lemma FormatHeader(data: seq<Row>)
    requires data != []
    ensures var n := 8 * |data[0]|;
            var h := CellLine(HeaderEmoji, data[0]);
            var m := FormatForDiscord(data);
            |h| + n + 1 <= |m| && m[..|h|] == h
            && (forall i :: |h| <= i < |h| + n ==> m[i] == Dash) && m[|h| + n] == '\n'
  {
    var h := CellLine(HeaderEmoji, data[0]);
    var d := Dashes(|data[0]| * 8);
    assert FormatForDiscord(data) == h + d + "\n" + RowLines(data[1..]);
    LayoutPieces(h, d, RowLines(data[1..]));
  }

  lemma LayoutPieces(h: string, d: string, rest: string)
    ensures var m := h + d + "\n" + rest;
            |h| + |d| + 1 <= |m| && m[..|h|] == h && m[|h| + |d|] == '\n'
            && forall i :: |h| <= i < |h| + |d| ==> m[i] == d[i - |h|]
  {
  }

  /** Each data row adds its own line at the end of the rendering. */
  lemma FormatAppendRow(data: seq<Row>, row: Row)
    requires data != []
    ensures FormatForDiscord(data + [row]) == FormatForDiscord(data) + CellLine(RowEmoji, row)
  {
    assert (data + [row])[0] == data[0];
    assert (data + [row])[1..] == data[1..] + [row];
    RowLinesAppend(data[1..], [row]);
    assert RowLines([row]) == CellLine(RowEmoji, row) by { assert [row][..0] == []; }
  }

  /** The loop of `format_for_discord`, accumulating the message. */
  method FormatForDiscordLoop(data: seq<Row>) returns (message: string)
    ensures message == FormatForDiscord(data)
  {
    if data == [] {
      return NoDataMessage;
    }
    var headers := data[0];
    var rows := data[1..];
    message := HeaderEmoji + " " + Text.Join(headers, " | ") + "\n";
    message := message + Dashes(|headers| * 8) + "\n";
    for i := 0 to |rows|
      invariant message == HeaderLines(headers) + RowLines(rows[..i])
    {
      assert rows[..i + 1][..i] == rows[..i];
      message := message + (RowEmoji + " " + Text.Join(rows[i], " | ") + "\n");
    }
    assert rows[..|rows|] == rows;
  }
}
