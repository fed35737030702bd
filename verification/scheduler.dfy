/** The device poller: reads the smart plug with retries, and appends a status row only when the
    reading differs from the latest recorded one. */
module Scheduler {
  import opened Common
  import opened Models
  import opened Retry

  // ---------------------------------------------------------------------------
  // Retry predicates
  // ---------------------------------------------------------------------------

  /** The scheduler's own retry predicate: it looks for the mixed-case word "TimedOut" in the
      lower-cased class name and message. */
  function IsRetryableException(e: Exc): bool
  {
    Contains(Lower(e.name), "TimedOut") || Contains(Lower(e.message), "TimedOut")
  }

  /** The predicate never holds: a lower-cased string cannot contain an upper-case letter. */
  lemma IsRetryableExceptionNeverHolds(e: Exc)
    ensures !IsRetryableException(e)
  {
    NoUpperInLowered(e.name, "TimedOut", 0);
    NoUpperInLowered(e.message, "TimedOut", 0);
  }

  /** The device read is retried on any exception. */
  function AnyException(e: Exc): bool { true }

  // ---------------------------------------------------------------------------
  // Reading the device
  // ---------------------------------------------------------------------------

  /** Five attempts, waits of 2^(n-1) seconds clamped to [1, 10]. */
  const DevicePolicy := Policy(5, 1, 10)

  /** What `is_device_on` produces: the plug's on flag, or DeviceTimeoutError once retries run out. */
  datatype DeviceReading = DeviceOn(on: bool) | DeviceTimeoutError

  function DeviceReadingOf(r: RetryOutcome<bool>): DeviceReading
  {
    match r
    case Succeeded(v, _, _) => DeviceOn(v)
    case Rejected(_, _, _) => DeviceTimeoutError
    case Exhausted(_, _, _) => DeviceTimeoutError
  }

  function DeviceOutcome(attempt: nat -> Attempt<bool>): RetryOutcome<bool>
  {
    RetryOutcomeOf(DevicePolicy, attempt, AnyException)
  }

  /** Reads the plug; `attempt(n)` is what the status query does on attempt n. */
  method IsDeviceOn(attempt: nat -> Attempt<bool>) returns (r: DeviceReading)
    ensures r == DeviceReadingOf(DeviceOutcome(attempt))
  {
    var outcome := Run(DevicePolicy, attempt, AnyException);
    r := DeviceReadingOf(outcome);
  }

  /** The reading `poll_once` records: a timeout means the power is off. */
  function PolledValue(r: DeviceReading): bool
  {
    match r
    case DeviceOn(v) => v
    case DeviceTimeoutError => false
  }

  /** At most five attempts are made; the read times out exactly when all five raise, and otherwise
      reports the first successful answer. */
  lemma DeviceReadSemantics(attempt: nat -> Attempt<bool>)
    ensures 1 <= OutcomeAttempts(DeviceOutcome(attempt)) <= 5
    ensures DeviceReadingOf(DeviceOutcome(attempt)).DeviceTimeoutError? <==> forall j :: 1 <= j <= 5 ==> attempt(j).Raised?
    ensures DeviceReadingOf(DeviceOutcome(attempt)).DeviceOn? ==>
      exists k :: 1 <= k <= 5 && attempt(k) == Returned(DeviceReadingOf(DeviceOutcome(attempt)).on)
    ensures (forall j :: 1 <= j <= 5 ==> attempt(j).Raised?) ==> !PolledValue(DeviceReadingOf(DeviceOutcome(attempt)))
  {
    var o := DeviceOutcome(attempt);
    RetryOutcomeWellFormed(DevicePolicy, attempt, AnyException);
    if o.Succeeded? {
      assert attempt(o.attempts).Returned?;
    }
  }

  // ---------------------------------------------------------------------------
  // The status log and the transition detector
  // ---------------------------------------------------------------------------

  function Values(events: seq<StatusEvent>): (r: seq<bool>)
    ensures |r| == |events|
    ensures forall i :: 0 <= i < |events| ==> r[i] == events[i].value
  {
    if events == [] then [] else Values(events[..|events| - 1]) + [events[|events| - 1].value]
  }

  /** No two adjacent entries are equal: the log holds transitions only. */
  predicate NoRepeats(vals: seq<bool>)
  {
    forall i :: 0 <= i < |vals| - 1 ==> vals[i] != vals[i + 1]
  }

  /** The log of values after one reading. */
  function Record(vals: seq<bool>, reading: bool): seq<bool>
  {
    if vals != [] && vals[|vals| - 1] == reading then vals else vals + [reading]
  }

  /** The log of values after a series of readings. */
  function RecordAll(vals: seq<bool>, readings: seq<bool>): seq<bool>
    decreases |readings|
  {
    if readings == [] then vals else RecordAll(Record(vals, readings[0]), readings[1..])
  }

  /** For any series of readings the log never holds two adjacent equal values. */
  lemma {:induction false} RecordAllNoRepeats(vals: seq<bool>, readings: seq<bool>)
    requires NoRepeats(vals)
    ensures NoRepeats(RecordAll(vals, readings))
    decreases |readings|
  {
    if readings != [] {
      RecordAllNoRepeats(Record(vals, readings[0]), readings[1..]);
    }
  }

  /** The log only grows, and after a non-empty series its last value is the last reading. */
  lemma {:induction false} RecordAllExtends(vals: seq<bool>, readings: seq<bool>)
    ensures vals <= RecordAll(vals, readings)
    ensures |RecordAll(vals, readings)| <= |vals| + |readings|
    ensures readings != [] ==>
      (RecordAll(vals, readings) != [] && RecordAll(vals, readings)[|RecordAll(vals, readings)| - 1] == readings[|readings| - 1])
    decreases |readings|
  {
    if readings != [] {
      RecordAllExtends(Record(vals, readings[0]), readings[1..]);
    }
  }

  /** Feeding the current value again, any number of times, leaves the log unchanged. */
  lemma {:induction false} RecordAllRepeat(vals: seq<bool>, readings: seq<bool>)
    requires vals != []
    requires forall i :: 0 <= i < |readings| ==> readings[i] == vals[|vals| - 1]
    ensures RecordAll(vals, readings) == vals
    decreases |readings|
  {
    if readings != [] {
      RecordAllRepeat(vals, readings[1..]);
    }
  }

  /** Readings on, on, off, off, on record exactly on, off, on. */
  lemma RecordAllExample()
    ensures RecordAll([], [true, true, false, false, true]) == [true, false, true]
  {
  }

  /** The `statuses` table as the scheduler sees it, in insertion order (which is creation order). */
  class StatusLog {
    var events: seq<StatusEvent>

    /** Ids are assigned 1, 2, 3, ... on insertion and adjacent rows differ in value. */
    ghost predicate Valid()
      reads this
    {
      && (forall i :: 0 <= i < |events| ==> events[i].id == i + 1)
      && NoRepeats(Values(events))
    }

    constructor ()
      ensures Valid() && events == []
    {
      events := [];
    }

    /** The value of the most recent row, if any. */
    function LastEventValue(): (r: Option<bool>)
      reads this
      ensures r.None? <==> events == []
      ensures r.Some? ==> r.value == events[|events| - 1].value
    {
      if events == [] then None else Some(events[|events| - 1].value)
    }

    /** Appends a row stamped `now` when the log is empty or its last value differs from `value`;
        reports whether it appended. */
    method RecordEventIfChanged(value: bool, now: int) returns (changed: bool)
      requires Valid()
      modifies this
      ensures Valid()
      ensures changed <==> (old(events) == [] || old(events)[|old(events)| - 1].value != value)
      ensures events == if changed then old(events) + [StatusEvent(|old(events)| + 1, value, now)] else old(events)
      ensures Values(events) == Record(old(Values(events)), value)
    {
      var lastValue := LastEventValue();
      if lastValue.Some? && lastValue.value == value {
        changed := false;
        return;
      }
      ghost var before := events;
      events := events + [StatusEvent(|events| + 1, value, now)];
      assert Values(events) == Values(before) + [value];
      changed := true;
    }
  }

  // ---------------------------------------------------------------------------
  // Polling
  // ---------------------------------------------------------------------------

  /** One tick of the polling loop: how the device answers, whether the database session works,
      and the database clock. */
  datatype Tick = Tick(device: nat -> Attempt<bool>, storeAvailable: bool, now: int)

  /** One poll: read the device (a timeout reads as off) and record the value if it changed. A tick
      whose database session fails raises; the caller catches it. */
  method PollOnce(log: StatusLog, tick: Tick) returns (raised: bool, changed: bool)
    requires log.Valid()
    modifies log
    ensures log.Valid()
    ensures raised <==> !tick.storeAvailable
    ensures raised ==> log.events == old(log.events) && !changed
    ensures old(log.events) <= log.events
    ensures !raised ==> Values(log.events) == Record(old(Values(log.events)), PolledValue(DeviceReadingOf(DeviceOutcome(tick.device))))
  {
    var reading := IsDeviceOn(tick.device);
    var value := PolledValue(reading);
    if !tick.storeAvailable {
      raised, changed := true, false;
      return;
    }
    raised := false;
    changed := log.RecordEventIfChanged(value, tick.now);
  }

  /** The value a tick records, if it reaches the database. */
  function TickReading(t: Tick): seq<bool>
  {
    if t.storeAvailable then [PolledValue(DeviceReadingOf(DeviceOutcome(t.device)))] else []
  }

  /** The values the ticks that reached the database recorded, in order. */
  function TickReadings(ticks: seq<Tick>): seq<bool>
  {
    if ticks == [] then [] else TickReadings(ticks[..|ticks| - 1]) + TickReading(ticks[|ticks| - 1])
  }

  lemma {:induction false} RecordAllAppend(vals: seq<bool>, a: seq<bool>, b: seq<bool>)
    ensures RecordAll(vals, a + b) == RecordAll(RecordAll(vals, a), b)
    decreases |a|
  {
    if a == [] {
      assert a + b == b;
    } else {
      assert (a + b)[1..] == a[1..] + b;
      RecordAllAppend(Record(vals, a[0]), a[1..], b);
    }
  }

  lemma TickReadingsStep(ticks: seq<Tick>, i: int)
    requires 0 <= i < |ticks|
    ensures TickReadings(ticks[..i + 1]) == TickReadings(ticks[..i]) + TickReading(ticks[i])
  {
    assert ticks[..i + 1][..i] == ticks[..i];
  }

  /** The polling loop over a finite run of ticks: a tick that raises is logged and the loop goes on,
      so the log ends as the readings of the ticks that reached the database would make it. */
  method RunPollingLoop(log: StatusLog, ticks: seq<Tick>) returns (errors: nat)
    requires log.Valid()
    modifies log
    ensures log.Valid()
    ensures old(log.events) <= log.events
    ensures Values(log.events) == RecordAll(old(Values(log.events)), TickReadings(ticks))
    ensures errors == |ticks| - |TickReadings(ticks)|
  {
    ghost var start := Values(log.events);
    errors := 0;
    var i := 0;
    while i < |ticks|
      invariant 0 <= i <= |ticks|
      invariant log.Valid()
      invariant old(log.events) <= log.events
      invariant Values(log.events) == RecordAll(start, TickReadings(ticks[..i]))
      invariant errors == i - |TickReadings(ticks[..i])|
    {
      ghost var before := log.events;
      var raised, changed := PollOnce(log, ticks[i]);
      if raised {
        errors := errors + 1;
      }
      TickReadingsStep(ticks, i);
      RecordAllAppend(start, TickReadings(ticks[..i]), TickReading(ticks[i]));
      i := i + 1;
    }
    assert ticks[..i] == ticks;
  }
}
