/** github_tracker_bot/helpers/handle_daily_commits_exceed_data.py: when the string
    form of a day's batch of commits is over the token budget, every commit's diff is
    overwritten in place by a fixed notice. */
module ExceedHandler {
  import opened Commits
  import opened TokenBudget

  /** The text that replaces each diff of an over-budget batch. */
  const Placeholder := "The diff file exceeds OPENAI token limit. The diff data possibly includes spam data."

  /** Python's `str(daily_commit_data)`, the string form of a batch, is not part of
      this model; `Render` stands for it. */
  datatype Renderer = Renderer(render: seq<Commit> -> string)

  /** The budget decision, taken once on the string form of the whole batch. */
  function BatchFits(t: Tokenizer, r: Renderer, batch: seq<Commit>): bool {
    CalculateTokenNumber(t, r.render(batch))
  }

  /** Every diff of the batch replaced by the notice, all other fields kept. */
  function Redacted(batch: seq<Commit>): (b: seq<Commit>)
    ensures |b| == |batch|
    ensures forall i :: 0 <= i < |b| ==> b[i] == batch[i].(diff := Placeholder)
  {
    seq(|batch|, i requires 0 <= i < |batch| => batch[i].(diff := Placeholder))
  }

  /** The batch after `handle_daily_exceed_data`. */
  function Handled(t: Tokenizer, r: Renderer, batch: seq<Commit>): seq<Commit> {
    if BatchFits(t, r, batch) then batch else Redacted(batch)
  }

  /** `handle_daily_exceed_data(daily_commit_data)`: within budget it returns the same
      batch untouched; over budget it overwrites every diff in place and returns None
      (here `null`). */
  method HandleDailyExceedData(t: Tokenizer, r: Renderer, batch: array<Commit>) returns (returned: array?<Commit>)
    modifies batch
    ensures batch[..] == Handled(t, r, old(batch[..]))
    ensures returned == (if BatchFits(t, r, old(batch[..])) then batch else null)
  {
    var stringData := r.render(batch[..]);
    var fits := CalculateTokenNumber(t, stringData);
    if !fits {
      for i := 0 to batch.Length
        invariant batch[..i] == Redacted(old(batch[..]))[..i]
        invariant batch[i..] == old(batch[..])[i..]
      {
        batch[i] := batch[i].(diff := Placeholder);
        assert batch[..i + 1] == batch[..i] + [batch[i]];
      }
      assert batch[..] == batch[..batch.Length];
      return null;
    } else {
      return batch;
    }
  }

  /** Over budget, every diff becomes exactly the notice; within budget nothing changes. */
  lemma HandledContents(t: Tokenizer, r: Renderer, batch: seq<Commit>)
    ensures BatchFits(t, r, batch) ==> Handled(t, r, batch) == batch
    ensures !BatchFits(t, r, batch) ==> forall i :: 0 <= i < |batch| ==> Handled(t, r, batch)[i].diff == Placeholder
  {
  }

  /** All or nothing: either every diff is replaced or the batch is unchanged. */
  lemma AllOrNothing(t: Tokenizer, r: Renderer, batch: seq<Commit>)
    ensures Handled(t, r, batch) == batch
         || forall i :: 0 <= i < |batch| ==> Handled(t, r, batch)[i].diff == Placeholder
  {
    HandledContents(t, r, batch);
  }

  /** The batch keeps its length and order, and every field but `diff`. */
  lemma HandledKeepsOtherFields(t: Tokenizer, r: Renderer, batch: seq<Commit>)
    ensures |Handled(t, r, batch)| == |batch|
    ensures forall i :: 0 <= i < |batch| ==> Handled(t, r, batch)[i] == batch[i].(diff := Handled(t, r, batch)[i].diff)
  {
  }

  /** Applying the handler twice leaves the same batch as applying it once, whatever
      the second budget decision is. */
  lemma HandledIdempotent(t: Tokenizer, r: Renderer, batch: seq<Commit>)
    ensures Handled(t, r, Handled(t, r, batch)) == Handled(t, r, batch)
  {
    var once := Handled(t, r, batch);
    if !BatchFits(t, r, batch) {
      assert Redacted(once) == once;
    }
  }
}
