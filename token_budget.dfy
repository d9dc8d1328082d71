/** The token budget check of github_tracker_bot/helpers/calculate_token.py. The
    tokenizer (tiktoken for "gpt-4o") and the system prompt are not part of this model:
    they are the parameters of a `Tokenizer`. */
module TokenBudget {
  /** `count(s)` is the number of tokens `enc.encode(s)` yields for `s`. */
  datatype Tokenizer = Tokenizer(count: string -> nat, systemPrompt: string)

  /** The allowance reserved for the reply message. */
  const MessageTokens := 1000

  /** The budget the prompt plus reply must stay strictly under. */
  const TokenLimit := 120000

  /** The encoded length of the prompt sent for `data`: system prompt, a space, the data. */
  function EncodedLength(t: Tokenizer, data: string): nat {
    t.count(t.systemPrompt + " " + data)
  }

  /** `calculate_token_number(data)`: whether the request for `data` fits the budget. */
  function CalculateTokenNumber(t: Tokenizer, data: string): (fits: bool)
    ensures fits <==> EncodedLength(t, data) < TokenLimit - MessageTokens
  {
    EncodedLength(t, data) + MessageTokens < TokenLimit
  }

  /** The comparison is strict: an encoded length of exactly 119000 is over budget,
      one token less fits. */
  lemma StrictThreshold(t: Tokenizer, data: string)
    ensures EncodedLength(t, data) == 119000 ==> !CalculateTokenNumber(t, data)
    ensures EncodedLength(t, data) == 118999 ==> CalculateTokenNumber(t, data)
  {
  }

  /** The verdict depends on the data only through its encoded length: the overhead is
      the same for every input. */
  lemma OverheadIsConstant(t: Tokenizer, a: string, b: string)
    requires EncodedLength(t, a) == EncodedLength(t, b)
    ensures CalculateTokenNumber(t, a) == CalculateTokenNumber(t, b)
  {
  }

  /** Fitting is downward closed: a request that encodes to fewer tokens than one that
      fits also fits. */
  lemma FitsMonotone(t: Tokenizer, a: string, b: string)
    requires CalculateTokenNumber(t, b) && EncodedLength(t, a) <= EncodedLength(t, b)
    ensures CalculateTokenNumber(t, a)
  {
  }

  /** About 50000 tokens fit; about 130000 do not. */
  lemma TestSizes(t: Tokenizer, small: string, large: string)
    requires EncodedLength(t, small) == 50000 && EncodedLength(t, large) == 130000
    ensures CalculateTokenNumber(t, small) && !CalculateTokenNumber(t, large)
  {
  }
}
