/** The bot's fixed constants: the night window, unit sizes and the generator work-time tables. */
module Constants {

  const NightStartHour: int := 22
  const NightEndHour: int := 8
  const SecsInMinute: int := 60
  const MinsInHour: int := 60
  const PowerSurgeWarnMins: int := 5
  const MinutesInDay: int := 24 * 60

  /** One row of a work-time table: minutes of the day [start, end) and whether the generator should run. */
  datatype Interval = Interval(start: int, end: int, isOn: bool)

  const GenWorktimeScheduleWeekday: seq<Interval> := [
    Interval(0, 6 * 60 + 30, false),
    Interval(6 * 60 + 30, 10 * 60, true),
    Interval(10 * 60, 11 * 60, false),
    Interval(11 * 60, 14 * 60, true),
    Interval(14 * 60, 15 * 60, false),
    Interval(15 * 60, 18 * 60 + 30, true),
    Interval(18 * 60 + 30, 19 * 60, false),
    Interval(19 * 60, 21 * 60, true),
    Interval(21 * 60, 22 * 60, false),
    Interval(22 * 60, 24 * 60, true)
  ]

  const GenWorktimeScheduleWeekend: seq<Interval> := [
    Interval(0, 7 * 60, false),
    Interval(7 * 60, 10 * 60, true),
    Interval(10 * 60, 11 * 60, false),
    Interval(11 * 60, 14 * 60, true),
    Interval(14 * 60, 15 * 60, false),
    Interval(15 * 60, 18 * 60 + 30, true),
    Interval(18 * 60 + 30, 19 * 60, false),
    Interval(19 * 60, 21 * 60, true),
    Interval(21 * 60, 22 * 60, false),
    Interval(22 * 60, 24 * 60, true)
  ]

  /** The rows of `s` are non-empty intervals laid end to end from `lo` to `hi`. */
  predicate Chain(s: seq<Interval>, lo: int, hi: int)
  {
    if s == [] then lo == hi
    else s[0].start == lo && s[0].start < s[0].end && Chain(s[1..], s[0].end, hi)
  }

  /** A table tiles the day: its rows are laid end to end from minute 0 to minute 1440. */
  predicate TilesDay(s: seq<Interval>) { Chain(s, 0, MinutesInDay) }

  /** The table starts with a break and consecutive rows alternate between break and work. */
  predicate Alternates(s: seq<Interval>)
  {
    && (s != [] ==> !s[0].isOn)
    && forall i :: 0 <= i < |s| - 1 ==> s[i].isOn != s[i + 1].isOn
  }

  lemma WeekdayTilesDay()
    ensures TilesDay(GenWorktimeScheduleWeekday)
  {
    var s := GenWorktimeScheduleWeekday;
    assert Chain(s[9..], 1320, 1440);
    assert Chain(s[8..], 1260, 1440);
    assert Chain(s[7..], 1140, 1440);
    assert Chain(s[6..], 1110, 1440);
    assert Chain(s[5..], 900, 1440);
    assert Chain(s[4..], 840, 1440);
    assert Chain(s[3..], 660, 1440);
    assert Chain(s[2..], 600, 1440);
    assert Chain(s[1..], 390, 1440);
  }

  lemma WeekendTilesDay()
    ensures TilesDay(GenWorktimeScheduleWeekend)
  {
    var s := GenWorktimeScheduleWeekend;
    assert Chain(s[9..], 1320, 1440);
    assert Chain(s[8..], 1260, 1440);
    assert Chain(s[7..], 1140, 1440);
    assert Chain(s[6..], 1110, 1440);
    assert Chain(s[5..], 900, 1440);
    assert Chain(s[4..], 840, 1440);
    assert Chain(s[3..], 660, 1440);
    assert Chain(s[2..], 600, 1440);
    assert Chain(s[1..], 420, 1440);
  }

  lemma WeekdayAlternates()
    ensures Alternates(GenWorktimeScheduleWeekday)
  {
  }

  lemma WeekendAlternates()
    ensures Alternates(GenWorktimeScheduleWeekend)
  {
  }

  /** The weekday and weekend tables differ only in the first boundary: 06:30 against 07:00. */
  lemma TablesDifferOnlyInFirstBoundary()
    ensures |GenWorktimeScheduleWeekday| == |GenWorktimeScheduleWeekend| == 10
    ensures forall i :: 2 <= i < 10 ==> GenWorktimeScheduleWeekday[i] == GenWorktimeScheduleWeekend[i]
    ensures GenWorktimeScheduleWeekday[0].end == GenWorktimeScheduleWeekday[1].start == 6 * 60 + 30
    ensures GenWorktimeScheduleWeekend[0].end == GenWorktimeScheduleWeekend[1].start == 7 * 60
    ensures GenWorktimeScheduleWeekday[0].start == GenWorktimeScheduleWeekend[0].start
    ensures GenWorktimeScheduleWeekday[1].end == GenWorktimeScheduleWeekend[1].end
  {
  }

  /** In a chain, every minute in [lo, hi) lies in some row. */
  lemma {:induction false} ChainCovers(s: seq<Interval>, lo: int, hi: int, m: int)
    requires Chain(s, lo, hi) && lo <= m < hi
    ensures exists i :: 0 <= i < |s| && s[i].start <= m < s[i].end
    decreases |s|
  {
    if m >= s[0].end {
      ChainCovers(s[1..], s[0].end, hi, m);
      var j :| 0 <= j < |s[1..]| && s[1..][j].start <= m < s[1..][j].end;
      assert s[j + 1] == s[1..][j];
    }
  }

  /** In a chain every row starts at or after `lo` and ends at or before `hi`, and a later row starts
      no earlier than an earlier row ends. */
  lemma {:induction false} ChainOrdered(s: seq<Interval>, lo: int, hi: int, i: int, j: int)
    requires Chain(s, lo, hi) && 0 <= i < j < |s|
    ensures s[i].end <= s[j].start
    decreases |s|
  {
    if i == 0 {
      ChainStartsAfter(s[1..], s[0].end, hi, j - 1);
    } else {
      ChainOrdered(s[1..], s[0].end, hi, i - 1, j - 1);
    }
  }

  lemma {:induction false} ChainStartsAfter(s: seq<Interval>, lo: int, hi: int, k: int)
    requires Chain(s, lo, hi) && 0 <= k < |s|
    ensures lo <= s[k].start
    decreases |s|
  {
    if k > 0 {
      ChainStartsAfter(s[1..], s[0].end, hi, k - 1);
    }
  }

  /** In a chain, each row is non-empty and ends where the next one starts, and the last row ends
      at `hi`. */
  lemma {:induction false} ChainAdjacent(s: seq<Interval>, lo: int, hi: int, i: int)
    requires Chain(s, lo, hi) && 0 <= i < |s|
    ensures s[i].start < s[i].end
    ensures i + 1 < |s| ==> s[i].end == s[i + 1].start
    ensures i + 1 == |s| ==> s[i].end == hi
    decreases |s|
  {
    if i > 0 {
      ChainAdjacent(s[1..], s[0].end, hi, i - 1);
    } else if |s| == 1 {
      assert s[1..] == [];
    }
  }

  /** In a chain, no minute lies in two rows. */
  lemma ChainUnique(s: seq<Interval>, lo: int, hi: int, m: int, i: int, j: int)
    requires Chain(s, lo, hi)
    requires 0 <= i < |s| && s[i].start <= m < s[i].end
    requires 0 <= j < |s| && s[j].start <= m < s[j].end
    ensures i == j
  {
    if i < j {
      ChainOrdered(s, lo, hi, i, j);
    } else if j < i {
      ChainOrdered(s, lo, hi, j, i);
    }
  }
}
