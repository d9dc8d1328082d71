/** Date normalisation shared by the bot: a `YYYY-MM-DD` date becomes the
    ISO 8601 timestamp of its midnight in UTC. */
module Utils {
  import opened Wrappers
  import Calendar

  /** What `strftime("%Y-%m-%dT%H:%M:%SZ")` adds after the date at midnight. */
  const MidnightSuffix := "T00:00:00Z"

  /** `datetime.strptime(s, "%Y-%m-%d").strftime("%Y-%m-%dT%H:%M:%SZ")`:
      the parse error, or the zero-padded date followed by `T00:00:00Z`. */
  function ConvertToIso8601(s: string): (r: Result<string>)
    ensures r.Ok? <==> Calendar.ParseYmd(s).Ok?
    ensures r.Err? ==> r == Err(Calendar.ParseYmd(s).error)
    ensures r.Ok? ==> |r.value| == 20 && Calendar.IsCanonicalYmd(r.value[..10])
                      && r.value[10..] == MidnightSuffix
  {
    match Calendar.ParseYmd(s)
    case Err(e) => Err(e)
    case Ok(d) =>
      Calendar.FormatThenParse(d);
      Ok(Calendar.FormatYmd(d) + MidnightSuffix)
  }

  /** The timestamp names the same calendar day as the input: its date part
      parses back to the date the input parsed to. */
  lemma ConvertKeepsDate(s: string)
    requires ConvertToIso8601(s).Ok?
    ensures Calendar.ParseYmd(ConvertToIso8601(s).value[..10]) == Calendar.ParseYmd(s)
  {
    var d := Calendar.ParseYmd(s).value;
    Calendar.FormatThenParse(d);
    assert ConvertToIso8601(s).value[..10] == Calendar.FormatYmd(d);
  }

  /** A zero-padded date that exists maps to itself followed by `T00:00:00Z`. */
  lemma ConvertCanonical(s: string)
    requires Calendar.IsCanonicalYmd(s) && Calendar.ParseYmd(s).Ok?
    ensures ConvertToIso8601(s) == Ok(s + MidnightSuffix)
  {
    Calendar.ParseThenFormat(s);
  }

  /** Leap days exist in leap years only. */
  lemma LeapDay()
    ensures ConvertToIso8601("2024-02-29") == Ok("2024-02-29T00:00:00Z")
  {
    var s := "2024-02-29";
    assert Calendar.IsCanonicalYmd(s);
    assert Calendar.ParseYmd(s) == Ok(Calendar.Date(2024, 2, 29));
    ConvertCanonical(s);
    assert s + MidnightSuffix == "2024-02-29T00:00:00Z";
  }

  lemma NoLeapDay()
    ensures ConvertToIso8601("2023-02-29") == Err(ValueError("day is out of range for month"))
  {
  }

  /** A month past 12 or a letter in a field is a parse error. */
  lemma MalformedDates()
    ensures ConvertToIso8601("2024-13-01").Err?
    ensures ConvertToIso8601("2024-0a-01").Err?
  {
  }
}
