/** The elapsed-time phrase shared by the power notification, the power-status reply and the
    generator-status reply: a number of minutes, shown as hours and minutes once it exceeds an hour. */
module Elapsed {
  import opened Common
  import opened Constants

  /** The three shapes of the phrase: "M min.", "H h." and "H h. and M min.". */
  datatype Span = Minutes(mins: int) | Hours(hours: int) | HoursAndMinutes(hours: int, mins: int)

  /** The number of minutes a span stands for. */
  function SpanMinutes(s: Span): int
  {
    match s
    case Minutes(m) => m
    case Hours(h) => h * MinsInHour
    case HoursAndMinutes(h, m) => h * MinsInHour + m
  }

  /** The spans the phrasing can produce: minutes up to an hour, otherwise whole hours or hours with
      a non-zero remainder below an hour. */
  predicate Canonical(s: Span)
  {
    match s
    case Minutes(m) => m <= MinsInHour
    case Hours(h) => h >= 2
    case HoursAndMinutes(h, m) => h >= 1 && 0 < m < MinsInHour
  }

  /** Splits a number of minutes: above one hour into hours and the remaining minutes. */
  function SplitMinutes(totalMins: int): (r: Span)
    ensures SpanMinutes(r) == totalMins
    ensures Canonical(r)
    ensures r.Minutes? <==> totalMins <= MinsInHour
  {
    if totalMins > MinsInHour then
      var hours := totalMins / MinsInHour;
      var mins := totalMins % MinsInHour;
      if mins == 0 then Hours(hours) else HoursAndMinutes(hours, mins)
    else
      Minutes(totalMins)
  }

  /** Every canonical span is the phrasing of the minutes it stands for. */
  lemma SplitOfSpanMinutes(s: Span)
    requires Canonical(s)
    ensures SplitMinutes(SpanMinutes(s)) == s
  {
    match s
    case Minutes(m) =>
    case Hours(h) =>
      DivModUnique(h * MinsInHour, h, 0);
    case HoursAndMinutes(h, m) =>
      DivModUnique(h * MinsInHour + m, h, m);
  }

  lemma DivModUnique(n: int, q: int, r: int)
    requires n == q * MinsInHour + r && 0 <= r < MinsInHour
    ensures n / MinsInHour == q && n % MinsInHour == r
  {
  }

  /** The minutes of the phrase for a number of seconds: Python's floor division by 60. */
  function MinutesOf(seconds: int): int { seconds / SecsInMinute }

  const SecsInDay: int := 24 * 60 * 60

  /** `timedelta.seconds` of a difference of whole seconds: the part below one day, never negative,
      and congruent to the difference modulo a day. */
  function TimedeltaSeconds(diff: int): (r: int)
    ensures 0 <= r < SecsInDay
    ensures (diff - r) % SecsInDay == 0
    ensures 0 <= diff < SecsInDay ==> r == diff
  {
    diff % SecsInDay
  }

  /** The phrase for an optional time difference in seconds: none for a missing or zero difference. */
  function Phrase(timeDiff: Option<int>): (r: Option<Span>)
    ensures r.None? <==> (timeDiff.None? || timeDiff.value == 0)
    ensures r.Some? ==> SpanMinutes(r.value) * SecsInMinute <= timeDiff.value < (SpanMinutes(r.value) + 1) * SecsInMinute
  {
    if timeDiff.None? || timeDiff.value == 0 then None else Some(SplitMinutes(MinutesOf(timeDiff.value)))
  }

  /** The text of a span, as the three call sites format it. */
  function Render(s: Span): seq<Token>
  {
    match s
    case Minutes(m) => [Num(m), Lit(" "), Key(WordMinutes), Lit("\\.")]
    case Hours(h) => [Num(h), Lit(" "), Key(WordHours), Lit("\\.")]
    case HoursAndMinutes(h, m) =>
      [Num(h), Lit(" "), Key(WordHours), Lit("\\. "), Key(WordAnd), Lit(" "), Num(m), Lit(" "), Key(WordMinutes), Lit("\\.")]
  }

  /** Reads the span back from its text. */
  function Parse(t: seq<Token>): (r: Option<Span>)
  {
    if |t| == 4 && t[0].Num? && t[2] == Key(WordMinutes) then Some(Minutes(t[0].n))
    else if |t| == 4 && t[0].Num? && t[2] == Key(WordHours) then Some(Hours(t[0].n))
    else if |t| == 10 && t[0].Num? && t[6].Num? then Some(HoursAndMinutes(t[0].n, t[6].n))
    else None
  }

  /** The text of a span determines the span. */
  lemma ParseRender(s: Span)
    ensures Parse(Render(s)) == Some(s)
  {
  }

  /** Worked examples: 125 minutes read "2 h. and 5 min.", 45 minutes "45 min.", exactly an hour stays
      "60 min.", 121 minutes "2 h. and 1 min.", 2 hours "2 h." and under a minute "0 min.". */
  lemma Examples()
    ensures Phrase(Some(125 * 60)) == Some(HoursAndMinutes(2, 5))
    ensures Phrase(Some(45 * 60)) == Some(Minutes(45))
    ensures Phrase(Some(60 * 60)) == Some(Minutes(60))
    ensures Phrase(Some(120 * 60)) == Some(Hours(2))
    ensures Phrase(Some(59)) == Some(Minutes(0))
    ensures Phrase(Some(0)) == None && Phrase(None) == None
  {
  }
}
