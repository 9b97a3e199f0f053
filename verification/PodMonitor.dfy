/**
 Pod startup latency monitor (slo-monitor/src/monitors/pod_monitor.go).

 The handlers run as goroutines under one mutex, so they may execute in any order; a history
 is an arbitrary sequence of handler executions and purges.  `Lifetime` cuts out of a history
 the events that concern the current entry of one pod, and `Entry` folds them.  The monitor
 itself, with its lazily purged `toDelete` list, is proved to store exactly those entries.
 */
module PodMonitor {
  import opened Common
  import opened Wrappers

  // ----- Go's time package -----

  /** Nanoseconds since the Unix epoch.  The zero time.Time is January 1 of year 1. */
  const ZERO_TIME: int := -62135596800_000_000_000
  const UNIX_EPOCH: int := 0
  type Time = t: int | ZERO_TIME <= t witness 0

  const MIN_DURATION: int := -0x8000_0000_0000_0000
  const MAX_DURATION: int := 0x7fff_ffff_ffff_ffff

  predicate IsZero(t: Time) { t == ZERO_TIME }

  /** time.Time.Sub saturates at the limits of a 64-bit duration. */
  function Sub(t: Time, u: Time): int {
    if t - u < MIN_DURATION then MIN_DURATION else if t - u > MAX_DURATION then MAX_DURATION else t - u
  }

  /** Subtraction of two durations wraps around. */
  function Minus(d: int, e: int): int {
    (d - e - MIN_DURATION) % 0x1_0000_0000_0000_0000 + MIN_DURATION
  }

  // ----- One entry -----

  datatype Milestones = Milestones(
    created: Time, startedPulling: Time, finishedPulling: Time, observedRunning: Time,
    deletedTimestamp: Time, seenPulled: int, needPulled: int, accountedFor: bool)
  {
    predicate IsComplete() {
      && !IsZero(created) && !IsZero(startedPulling) && !IsZero(finishedPulling) && !IsZero(observedRunning)
      && seenPulled == needPulled && !accountedFor
    }
  }

  const NO_MILESTONES := Milestones(ZERO_TIME, ZERO_TIME, ZERO_TIME, ZERO_TIME, ZERO_TIME, 0, 0, false)

  datatype Event =
    | PodDeleted(key: string, now: Time)
    | Pulling(key: string, at: Time)
    | Pulled(key: string, at: Time, alreadyPresent: bool)
    | Running(key: string, created: Time, running: Time, needPulled: nat)
    | Purge(now: Time)

  /** A data point: the latency without and with image pulling. */
  datatype Observation = Observation(startup: int, full: int)

  function Observe(data: Milestones): Observation {
    var full := Sub(data.observedRunning, data.created);
    var startup := Minus(full, Sub(data.finishedPulling, data.startedPulling));
    Observation(if startup < 0 then 0 else startup, full)
  }

  // ----- What the two histograms receive -----

  function Distance(x: int, y: int): nat {
    if x <= y then y - x else x - y
  }

  predicate IsDuration(d: int) {
    MIN_DURATION <= d <= MAX_DURATION
  }

  /** Of all durations, `d` is the one nearest to `x`. */
  ghost predicate IsNearest(d: int, x: int) {
    IsDuration(d) && forall e :: IsDuration(e) ==> Distance(d, x) <= Distance(e, x)
  }

  /** `d` is the duration that 64-bit arithmetic makes of the difference of `x` and `y`. */
  ghost predicate IsWrapped(d: int, x: int, y: int) {
    IsDuration(d) && exists n: int :: Scaled(n) == x - y - d
  }

  function Scaled(n: int): int {
    n * 0x1_0000_0000_0000_0000
  }

  /** The data point of a complete entry: the time from creation to running, and the same without the time that
      pulling took, or zero if that is negative. */
  ghost predicate Publishes(data: Milestones, startup: int, full: int) {
    && IsNearest(full, data.observedRunning - data.created)
    && exists pulling, rest ::
         IsNearest(pulling, data.finishedPulling - data.startedPulling) && IsWrapped(rest, full, pulling) &&
         startup == NotNegative(rest)
  }

  lemma SubIsNearest(t: Time, u: Time)
    ensures IsNearest(Sub(t, u), t - u)
  {
  }

  lemma MinusIsWrapped(d: int, e: int)
    ensures IsWrapped(Minus(d, e), d, e)
  {
    var x := d - e - MIN_DURATION;
    assert Scaled(x / 0x1_0000_0000_0000_0000) == d - e - Minus(d, e);
  }

  lemma ObservationIsPublished(data: Milestones)
    ensures Publishes(data, Observe(data).startup, Observe(data).full)
  {
    SubIsNearest(data.observedRunning, data.created);
    SubIsNearest(data.finishedPulling, data.startedPulling);
    MinusIsWrapped(Observe(data).full, Sub(data.finishedPulling, data.startedPulling));
    hide Sub, Minus, IsNearest, IsWrapped;
  }

  lemma {:induction false} PublishedIsUnique(data: Milestones, startup: int, full: int, startup': int, full': int)
    requires Publishes(data, startup, full) && Publishes(data, startup', full')
    ensures startup == startup' && full == full'
  {
    hide IsNearest, IsWrapped;
    NearestIsUnique(full, full', data.observedRunning - data.created);
    var pulling, rest :| IsNearest(pulling, data.finishedPulling - data.startedPulling) &&
      IsWrapped(rest, full, pulling) && startup == NotNegative(rest);
    var pulling', rest' :| IsNearest(pulling', data.finishedPulling - data.startedPulling) &&
      IsWrapped(rest', full', pulling') && startup' == NotNegative(rest');
    NearestIsUnique(pulling, pulling', data.finishedPulling - data.startedPulling);
    WrappedIsUnique(rest, rest', full, pulling);
  }

  lemma NearestIsUnique(d: int, e: int, x: int)
    requires IsNearest(d, x) && IsNearest(e, x)
    ensures d == e
  {
    var middle := if d <= x <= e || e <= x <= d then x else d;
    assert IsDuration(middle) && IsDuration(d) && IsDuration(e);
    assert Distance(d, x) <= Distance(middle, x) && Distance(e, x) <= Distance(middle, x);
    assert Distance(d, x) <= Distance(e, x);
  }

  lemma WrappedIsUnique(d: int, e: int, x: int, y: int)
    requires IsWrapped(d, x, y) && IsWrapped(e, x, y)
    ensures d == e
  {
    var m: int :| Scaled(m) == x - y - d;
    var n: int :| Scaled(n) == x - y - e;
    assert Scaled(m) - Scaled(n) == e - d;
  }

  /** What a handler makes of the entry it found, before updateMetric looks at it. */
  function Handled(found: Option<Milestones>, event: Event): Milestones
    requires !event.Purge?
  {
    var data := if found.Some? then found.value else NO_MILESTONES;
    match event
    case PodDeleted(_, now) =>
      var data := if found.None? then data.(startedPulling := UNIX_EPOCH) else data;
      data.(deletedTimestamp := now)
    case Pulling(_, at) =>
      var data := if found.None? then data.(finishedPulling := UNIX_EPOCH, needPulled := -1) else data;
      if IsZero(data.startedPulling) || data.startedPulling > at then data.(startedPulling := at) else data
    case Pulled(_, at, alreadyPresent) =>
      // As written, this branch is taken when the entry was found.
      var data := if found.Some? then data.(startedPulling := UNIX_EPOCH, needPulled := -1) else data;
      var later := IsZero(data.finishedPulling) || data.finishedPulling < at;
      var data := if later then data.(finishedPulling := at) else data;
      var data := if alreadyPresent then data.(startedPulling := at) else data;
      data.(seenPulled := data.seenPulled + 1)
    case Running(_, created, running, needPulled) =>
      var data := if found.None? then data.(startedPulling := UNIX_EPOCH, finishedPulling := UNIX_EPOCH) else data;
      data.(created := created, observedRunning := running, needPulled := needPulled)
  }

  /** Whether the handler of `event` adds a data point to both histograms. */
  predicate Fires(found: Option<Milestones>, event: Event) {
    !event.Purge? && !event.PodDeleted? && Handled(found, event).IsComplete()
  }

  function Step(found: Option<Milestones>, event: Event): Milestones
    requires !event.Purge?
  {
    Handled(found, event).(accountedFor := Handled(found, event).accountedFor || Fires(found, event))
  }

  // ----- Histories -----

  predicate About(event: Event, key: string) {
    !event.Purge? && event.key == key
  }

  /** The deletion time an entry carries after these events, if any of them was a deletion. */
  function LastDeletion(events: seq<Event>): Option<Time> {
    if events == [] then None
    else if events[|events| - 1].PodDeleted? then Some(events[|events| - 1].now)
    else LastDeletion(events[..|events| - 1])
  }

  predicate Due(deletion: Option<Time>, purgeAfter: int, now: Time) {
    deletion.Some? && deletion.value + purgeAfter <= now
  }

  /** The events about `key` since its current entry was created; empty when it has none. */
  ghost function Lifetime(log: seq<Event>, purgeAfter: int, key: string): seq<Event> {
    if log == [] then []
    else
      var before := Lifetime(log[..|log| - 1], purgeAfter, key);
      var event := log[|log| - 1];
      if About(event, key) then before + [event]
      else if event.Purge? && Due(LastDeletion(before), purgeAfter, event.now) then []
      else before
  }

  /** A lifetime: events about one pod. */
  ghost predicate OnePod(events: seq<Event>) {
    forall i :: 0 <= i < |events| ==> !events[i].Purge?
  }

  ghost function Entry(events: seq<Event>): Option<Milestones>
    requires OnePod(events)
  {
    if events == [] then None
    else Some(Step(Entry(events[..|events| - 1]), events[|events| - 1]))
  }

  /** How many of the events added a data point. */
  ghost function Contributions(events: seq<Event>): nat
    requires OnePod(events)
  {
    if events == [] then 0
    else Contributions(events[..|events| - 1])
         + if Fires(Entry(events[..|events| - 1]), events[|events| - 1]) then 1 else 0
  }

  ghost function PulledCount(events: seq<Event>): nat {
    if events == [] then 0
    else PulledCount(events[..|events| - 1]) + if events[|events| - 1].Pulled? then 1 else 0
  }

  ghost predicate IsLatestPulled(events: seq<Event>, at: Time) {
    && (exists i :: 0 <= i < |events| && events[i].Pulled? && events[i].at == at)
    && (forall i :: 0 <= i < |events| && events[i].Pulled? ==> events[i].at <= at)
  }

  /** All data points of a history, in order. */
  ghost function Observed(log: seq<Event>, purgeAfter: int): seq<Observation> {
    if log == [] then []
    else
      var init, event := log[..|log| - 1], log[|log| - 1];
      Observed(init, purgeAfter) +
      if event.Purge? then []
      else
        LifetimeIsOnePod(init, purgeAfter, event.key);
        var found := Entry(Lifetime(init, purgeAfter, event.key));
        if Fires(found, event) then [Observe(Handled(found, event))] else []
  }

  lemma LifetimeIsOnePod(log: seq<Event>, purgeAfter: int, key: string)
    ensures OnePod(Lifetime(log, purgeAfter, key))
    ensures forall i :: 0 <= i < |Lifetime(log, purgeAfter, key)| ==> About(Lifetime(log, purgeAfter, key)[i], key)
  {
  }

  // ----- What every order of handler executions guarantees -----

  /** A pod contributes to the histograms at most once between its creation and its purge,
      and `accountedFor` says exactly whether it has. */
  lemma {:induction false} AccountedAtMostOnce(events: seq<Event>)
    requires OnePod(events) && events != []
    ensures Contributions(events) == if Entry(events).value.accountedFor then 1 else 0
  {
    var init := events[..|events| - 1];
    if init != [] {
      AccountedAtMostOnce(init);
    }
  }

  /** A Pulled event never completes an entry, even though its handler calls updateMetric:
      on an entry that exists it sets `needPulled` to -1, and a new one has no creation time.
      Data points come from Running and Pulling events only. */
  lemma PulledNeverFires(events: seq<Event>, event: Event)
    requires OnePod(events) && event.Pulled?
    ensures !Fires(Entry(events), event)
  {
    SeenPulledCounts(events);
  }

  lemma {:induction false} SeenPulledCounts(events: seq<Event>)
    requires OnePod(events)
    ensures events != [] ==> Entry(events).value.seenPulled == PulledCount(events)
  {
    if events != [] {
      SeenPulledCounts(events[..|events| - 1]);
    }
  }

  /** `finishedPulling` is the latest of the Pulled timestamps and of the epoch, the latter only
      when a Pulling or a Running event created the entry. */
  ghost function PullFloor(events: seq<Event>): Time
    requires events != []
  {
    if events[0].Pulling? || events[0].Running? then UNIX_EPOCH else ZERO_TIME
  }

  lemma {:induction false} FinishedPullingIsMaximum(events: seq<Event>)
    requires OnePod(events) && events != []
    ensures
      var finished := Entry(events).value.finishedPulling;
      && PullFloor(events) <= finished
      && (forall i :: 0 <= i < |events| && events[i].Pulled? ==> events[i].at <= finished)
      && (finished == PullFloor(events) ||
          exists i :: 0 <= i < |events| && events[i].Pulled? && events[i].at == finished)
  {
    var init := events[..|events| - 1];
    if init != [] {
      FinishedPullingIsMaximum(init);
      var finished := Entry(events).value.finishedPulling;
      if finished != PullFloor(events) {
        if finished == Entry(init).value.finishedPulling {
          var i :| 0 <= i < |init| && init[i].Pulled? && init[i].at == finished;
          assert events[i].Pulled? && events[i].at == finished;
        } else {
          assert events[|init|].Pulled? && events[|init|].at == finished;
        }
      }
      forall i | 0 <= i < |events| && events[i].Pulled? ensures events[i].at <= finished {
        if i < |init| {
          assert init[i].Pulled?;
        }
      }
    }
  }

  /** Once a Pulled event has arrived, `finishedPulling` is the latest of their timestamps exactly
      when that timestamp is not before the epoch or no Pulling or Running event created the entry. */
  lemma FinishedPullingExact(events: seq<Event>, latest: Time)
    requires OnePod(events) && IsLatestPulled(events, latest)
    ensures Entry(events).value.finishedPulling == latest <==> PullFloor(events) <= latest
  {
    FinishedPullingIsMaximum(events);
  }

  /** Timestamps from the epoch on, as every real cluster reports them. */
  ghost predicate PostEpoch(events: seq<Event>) {
    forall i :: 0 <= i < |events| && (events[i].Pulling? || events[i].Pulled?) ==> UNIX_EPOCH <= events[i].at
  }

  /** A Pulled event that finds an entry discards the start of pulling, and nothing but a Pulled event
      for an image already present sets it again. */
  lemma {:induction false} StartOfPullingIsLost(events: seq<Event>, i: nat)
    requires OnePod(events) && PostEpoch(events)
    requires 0 < i < |events| && events[i].Pulled?
    requires forall j :: i <= j < |events| && events[j].Pulled? ==> !events[j].alreadyPresent
    ensures Entry(events).value.startedPulling == UNIX_EPOCH
  {
    var init := events[..|events| - 1];
    if i < |init| {
      StartOfPullingIsLost(init, i);
    }
  }

  /** The event at `i` sets the start of pulling, whatever it was: a Pulled event that finds an entry or an image
      already present, or a deletion or a Running event that creates the entry. */
  predicate SetsStart(events: seq<Event>, i: nat)
    requires i < |events|
  {
    match events[i]
    case Pulled(_, _, alreadyPresent) => i > 0 || alreadyPresent
    case PodDeleted(_, _) => i == 0
    case Running(_, _, _, _) => i == 0
    case _ => false
  }

  function StartSet(event: Event): Time {
    if event.Pulled? && event.alreadyPresent then event.at else UNIX_EPOCH
  }

  /** The last such event, or -1. */
  function LastSet(events: seq<Event>): (i: int)
    ensures -1 <= i < |events|
    ensures i >= 0 ==> SetsStart(events, i)
    ensures forall j :: i < j < |events| ==> !SetsStart(events, j)
  {
    if events == [] then -1
    else if SetsStart(events, |events| - 1) then |events| - 1
    else
      assert forall j :: 0 <= j < |events| - 1 ==> SetsStart(events[..|events| - 1], j) == SetsStart(events, j);
      LastSet(events[..|events| - 1])
  }

  /** `start` is the earliest of what the event at `i` sets, if there is one, and the Pulling events after it. */
  ghost predicate StartIs(events: seq<Event>, i: int, start: Time)
    requires -1 <= i < |events|
  {
    && (i >= 0 ==> start <= StartSet(events[i]))
    && (forall j :: i < j < |events| && events[j].Pulling? ==> start <= events[j].at)
    && ((i >= 0 && start == StartSet(events[i]))
        || (exists j :: i < j < |events| && events[j].Pulling? && events[j].at == start)
        || (i == -1 && IsZero(start) && forall j :: 0 <= j < |events| ==> !events[j].Pulling?))
  }

  /** What every history makes of the start of pulling. */
  lemma {:induction false} StartOfPulling(events: seq<Event>)
    requires OnePod(events) && PostEpoch(events) && events != []
    ensures StartIs(events, LastSet(events), Entry(events).value.startedPulling)
  {
    hide StartIs, Step, LastSet, PostEpoch;
    var init, last := events[..|events| - 1], events[|events| - 1];
    assert events == init + [last];
    PostEpochParts(init, last);
    if init == [] {
      assert events == [last] && Entry(init) == None;
      StartFirst(last);
    } else {
      StartOfPulling(init);
      StartStep(init, last, Entry(init).value);
    }
  }

  lemma PostEpochParts(events: seq<Event>, last: Event)
    requires PostEpoch(events + [last])
    ensures PostEpoch(events) && (last.Pulling? || last.Pulled? ==> UNIX_EPOCH <= last.at)
  {
    var all := events + [last];
    assert all[|events|] == last;
    assert forall k :: 0 <= k < |events| ==> all[k] == events[k];
  }

  lemma LastSetStep(events: seq<Event>, last: Event)
    ensures LastSet(events + [last]) == if SetsStart(events + [last], |events|) then |events| else LastSet(events)
  {
    assert (events + [last])[..|events|] == events;
  }

  lemma StartFirst(last: Event)
    requires !last.Purge? && (last.Pulling? || last.Pulled? ==> UNIX_EPOCH <= last.at)
    ensures StartIs([last], LastSet([last]), Step(None, last).startedPulling)
  {
    assert [last] == [] + [last];
    LastSetStep([], last);
  }

  lemma StartStep(events: seq<Event>, last: Event, data: Milestones)
    requires events != [] && !last.Purge? && PostEpoch(events + [last])
    requires StartIs(events, LastSet(events), data.startedPulling)
    ensures StartIs(events + [last], LastSet(events + [last]), Step(Some(data), last).startedPulling)
  {
    var all, i, n := events + [last], LastSet(events), |events|;
    LastSetStep(events, last);
    assert all[n] == last;
    PostEpochParts(events, last);
    ZeroStart(events, i, data.startedPulling);
    var start := Step(Some(data), last).startedPulling;
    if last.Pulling? {
      var earlier := IsZero(data.startedPulling) || last.at < data.startedPulling;
      assert start == if earlier then last.at else data.startedPulling;
    } else if last.Pulled? {
      assert start == StartSet(last);
    } else {
      assert start == data.startedPulling;
    }
    hide Step, LastSet, StartSet, PostEpoch;
    StartExtends(events, last, i, data.startedPulling);
  }

  lemma ZeroStart(events: seq<Event>, i: int, start: Time)
    requires PostEpoch(events) && -1 <= i < |events| && StartIs(events, i, start)
    requires i >= 0 ==> SetsStart(events, i)
    ensures IsZero(start) ==> i == -1 && forall j :: 0 <= j < |events| ==> !events[j].Pulling?
  {
  }

  /** An event that does not set the start leaves the earliest one the earliest, unless it is an earlier Pulling
      event. */
  lemma StartExtends(events: seq<Event>, last: Event, i: int, start: Time)
    requires -1 <= i < |events| && StartIs(events, i, start)
    ensures !last.Pulling? ==> StartIs(events + [last], i, start)
    ensures last.Pulling? && IsZero(start) && i == -1 && (forall j :: 0 <= j < |events| ==> !events[j].Pulling?) ==>
      StartIs(events + [last], i, last.at)
    ensures last.Pulling? && last.at < start ==> StartIs(events + [last], i, last.at)
    ensures last.Pulling? && start <= last.at && !IsZero(start) ==> StartIs(events + [last], i, start)
  {
    hide StartSet;
    var all, n := events + [last], |events|;
    assert all[n] == last;
    assert forall k :: 0 <= k < n ==> all[k] == events[k];
    if j :| i < j < n && events[j].Pulling? && events[j].at == start {
      assert all[j].Pulling? && all[j].at == start;
    }
  }

  /** `started` is the first moment at which pulling is reported to have started. */
  ghost predicate IsEarliestPulling(events: seq<Event>, started: Time) {
    && (exists i :: 0 <= i < |events| && events[i].Pulling? && events[i].at == started)
    && (forall i :: 0 <= i < |events| && events[i].Pulling? ==> started <= events[i].at)
  }

  /** The start of pulling is still the first one reported: nothing set it, or the last event that did
      set it to no earlier moment and the first report is that moment itself or came later. */
  ghost predicate KeepsFirstStart(events: seq<Event>, started: Time) {
    var i := LastSet(events);
    || i == -1
    || (started <= StartSet(events[i]) &&
        (started == StartSet(events[i]) ||
         exists j :: i < j < |events| && events[j].Pulling? && events[j].at == started))
  }

  lemma FirstStartIsKeptExactly(events: seq<Event>, start: Time, started: Time)
    requires events != [] && StartIs(events, LastSet(events), start) && IsEarliestPulling(events, started)
    ensures start == started <==> KeepsFirstStart(events, started)
  {
    hide LastSet, StartSet;
    var i := LastSet(events);
    var k :| 0 <= k < |events| && events[k].Pulling? && events[k].at == started;
  }

  /** No subtraction in the latencies saturates or wraps around. */
  predicate Representable(data: Milestones) {
    var full, pulling := data.observedRunning - data.created, data.finishedPulling - data.startedPulling;
    && MIN_DURATION <= full <= MAX_DURATION
    && MIN_DURATION <= pulling <= MAX_DURATION
    && MIN_DURATION <= full - pulling <= MAX_DURATION
  }

  lemma WithoutWrap(data: Milestones)
    requires Representable(data)
    ensures Observe(data).startup ==
      NotNegative((data.observedRunning - data.created) - (data.finishedPulling - data.startedPulling))
  {
  }

  /** The first moment at which pulling is reported to have started; None when nothing was pulled. */
  ghost function FirstStart(events: seq<Event>): (started: Option<Time>)
    ensures match started
      case Some(t) => IsEarliestPulling(events, t)
      case None => forall i :: 0 <= i < |events| ==> !events[i].Pulling?
  {
    if events == [] then None
    else
      var init, last := events[..|events| - 1], events[|events| - 1];
      var before := FirstStart(init);
      EarliestStep(init, last);
      assert events == init + [last];
      if last.Pulling? && (before.None? || last.at < before.value) then Some(last.at) else before
  }

  lemma EarliestStep(init: seq<Event>, last: Event)
    ensures forall t :: IsEarliestPulling(init, t) ==>
      IsEarliestPulling(init + [last], if last.Pulling? && last.at < t then last.at else t)
    ensures last.Pulling? && (forall i :: 0 <= i < |init| ==> !init[i].Pulling?) ==>
      IsEarliestPulling(init + [last], last.at)
  {
    var events := init + [last];
    assert events[|init|] == last && forall i :: 0 <= i < |init| ==> events[i] == init[i];
  }

  /** Neither a Pulled event nor the epoch, where that is the floor, is later than what was last set as the start. */
  ghost predicate NothingLater(events: seq<Event>) {
    var i := LastSet(events);
    && i >= 0 && PullFloor(events) <= StartSet(events[i])
    && forall j :: 0 <= j < |events| && events[j].Pulled? ==> events[j].at <= StartSet(events[i])
  }

  /** When nothing was pulled, no time counts as pulling exactly when no end of it is later than the start set. */
  lemma NothingPulledExactly(events: seq<Event>)
    requires OnePod(events) && PostEpoch(events) && events != [] && FirstStart(events).None?
    requires
      var data := Entry(events).value;
      !IsZero(data.startedPulling) && !IsZero(data.finishedPulling)
    ensures
      var data := Entry(events).value;
      && LastSet(events) >= 0 && data.startedPulling == StartSet(events[LastSet(events)]) <= data.finishedPulling
      && (data.startedPulling == data.finishedPulling <==> NothingLater(events))
  {
    hide Entry, LastSet, FirstStart;
    StartOfPulling(events);
    FinishedPullingIsMaximum(events);
    var i := LastSet(events);
    assert i >= 0;
  }

  /** What is published leaves out the time that pulling took, if anything was pulled at all. */
  ghost predicate LeavesOutPulling(events: seq<Event>) {
    match FirstStart(events)
    case Some(started) => KeepsFirstStart(events, started)
    case None => NothingLater(events)
  }

  /** What the name of the histogram promises: the latency without the time from the first start reported to the
      end of pulling, and all of it when nothing was pulled. */
  ghost function Promised(events: seq<Event>, data: Milestones): int {
    var full := data.observedRunning - data.created;
    match FirstStart(events)
    case Some(started) => full - (data.finishedPulling - started)
    case None => full
  }

  /**
   The latency that should leave out image pulling, for every history that ends with the event that adds the data
   point, whether anything was pulled or not. What is left out is the time since the start that the last event to
   set it and the Pulling events after that one determine; so the promise is kept exactly when that is the first
   start reported, or the end of pulling if none was, or neither the promised nor the published latency is positive.
   */
  lemma {:induction false} PullTimeIsLeftOutExactly(events: seq<Event>, last: Event)
    requires OnePod(events) && PostEpoch(events + [last]) && Fires(Entry(events), last)
    requires Representable(Handled(Entry(events), last))
    ensures
      var all, data := events + [last], Handled(Entry(events), last);
      var published := (data.observedRunning - data.created) - (data.finishedPulling - data.startedPulling);
      var promised := Promised(all, data);
      && StartIs(all, LastSet(all), data.startedPulling)
      && Observe(data).startup == NotNegative(published)
      && (Observe(data).startup == NotNegative(promised) <==>
          LeavesOutPulling(all) || (promised <= 0 && published <= 0))
  {
    hide Observe, Representable, IsEarliestPulling, StartIs, LastSet, KeepsFirstStart, NothingLater, PostEpoch;
    hide FirstStart;
    var all := events + [last];
    assert all[..|events|] == events && all[|events|] == last;
    assert OnePod(all) by {
      assert forall i :: 0 <= i < |events| ==> all[i] == events[i];
    }
    EntryOfLast(events, last);
    StartOfPulling(all);
    WithoutWrap(Handled(Entry(events), last));
    match FirstStart(all)
    case Some(started) => FirstStartIsKeptExactly(all, Entry(all).value.startedPulling, started);
    case None => NothingPulledExactly(all);
    hide Handled, Fires, Entry;
  }

  lemma EntryOfLast(events: seq<Event>, last: Event)
    requires OnePod(events) && OnePod(events + [last]) && !last.Purge?
    ensures Entry(events + [last]).Some?
    ensures Entry(events + [last]).value.startedPulling == Handled(Entry(events), last).startedPulling
    ensures Entry(events + [last]).value.finishedPulling == Handled(Entry(events), last).finishedPulling
  {
    assert (events + [last])[..|events|] == events;
  }

  /** The entry after a history, found step by step. */
  lemma EntryStep(events: seq<Event>, last: Event, data: Milestones)
    requires OnePod(events) && Entry(events) == Some(data) && !last.Purge?
    ensures OnePod(events + [last]) && Entry(events + [last]) == Some(Step(Some(data), last))
  {
    assert (events + [last])[..|events|] == events;
  }

  const PULLING := NO_MILESTONES.(startedPulling := 10, finishedPulling := UNIX_EPOCH, needPulled := -1)
  const RESET := PULLING.(startedPulling := UNIX_EPOCH, finishedPulling := 20, seenPulled := 1)
  const PRESENT := RESET.(startedPulling := 25, finishedPulling := 25, seenPulled := 2)

  lemma EntryOfReset()
    ensures var events := [Pulling("pod", 10)] + [Pulled("pod", 20, false)];
      OnePod(events) && Entry(events) == Some(RESET)
  {
    assert [Pulling("pod", 10)][..0] == [];
    assert Step(None, Pulling("pod", 10)) == PULLING;
    assert Entry([Pulling("pod", 10)]) == Some(PULLING);
    assert Step(Some(PULLING), Pulled("pod", 20, false)) == RESET;
    EntryStep([Pulling("pod", 10)], Pulled("pod", 20, false), PULLING);
  }

  /** A pod that took 100 from creation to running, 10 of it to pull: 80 are published. */
  lemma PullTimeIsNotLeftOut()
    ensures
      var events, last := [Pulling("pod", 10)] + [Pulled("pod", 20, false)], Running("pod", 1, 101, 1);
      OnePod(events) && Fires(Entry(events), last) && Observe(Handled(Entry(events), last)) == Observation(80, 100)
  {
    EntryOfReset();
    hide Entry, OnePod;
  }

  /** With an image already present it took 15 to pull, and all of the 100 are published. */
  lemma PullTimeIsNotLeftOutEither()
    ensures
      var events := [Pulling("pod", 10)] + [Pulled("pod", 20, false)] + [Pulled("pod", 25, true)];
      var last := Running("pod", 1, 101, 2);
      OnePod(events) && Fires(Entry(events), last) && Observe(Handled(Entry(events), last)) == Observation(100, 100)
  {
    EntryOfReset();
    assert Step(Some(RESET), Pulled("pod", 25, true)) == PRESENT;
    EntryStep([Pulling("pod", 10)] + [Pulled("pod", 20, false)], Pulled("pod", 25, true), RESET);
    hide Entry, OnePod;
  }

  const FOUND := NO_MILESTONES.(startedPulling := 25, finishedPulling := 25, seenPulled := 1)
  const FOUND_BEFORE := FOUND.(startedPulling := 10, needPulled := -1, seenPulled := 2)

  /** Two images found present, handled in the other order: nothing was pulled, and 85 of the 100 are published. */
  lemma NothingPulledIsLeftOut()
    ensures
      var events, last := [Pulled("pod", 25, true)] + [Pulled("pod", 10, true)], Running("pod", 1, 101, 2);
      && OnePod(events) && FirstStart(events + [last]) == None
      && Fires(Entry(events), last) && Observe(Handled(Entry(events), last)) == Observation(85, 100)
  {
    assert [Pulled("pod", 25, true)][..0] == [];
    assert Step(None, Pulled("pod", 25, true)) == FOUND;
    assert Entry([Pulled("pod", 25, true)]) == Some(FOUND);
    assert Step(Some(FOUND), Pulled("pod", 10, true)) == FOUND_BEFORE;
    EntryStep([Pulled("pod", 25, true)], Pulled("pod", 10, true), FOUND);
    hide Entry, OnePod;
  }

  /** One image found present is published as it should be. */
  lemma OneFoundIsPublishedInFull()
    ensures
      var events, last := [Pulled("pod", 25, true)], Running("pod", 1, 101, 1);
      && OnePod(events) && FirstStart(events + [last]) == None
      && Fires(Entry(events), last) && Observe(Handled(Entry(events), last)) == Observation(100, 100)
  {
    assert [Pulled("pod", 25, true)][..0] == [];
    assert Step(None, Pulled("pod", 25, true)) == FOUND;
  }

  // ----- Which pods are measured -----

  /** The start of pulling is set: if a Pulled event created the entry, by that event or a later one. */
  ghost predicate HasStart(events: seq<Event>) {
    events != [] && events[0].Pulled? && !events[0].alreadyPresent ==>
      exists j :: 0 < j < |events| && (events[j].Pulling? || events[j].Pulled?)
  }

  /** So is its end: if a deletion created the entry, by some Pulled event. */
  ghost predicate HasFinish(events: seq<Event>) {
    events != [] && events[0].PodDeleted? ==> PulledCount(events) > 0
  }

  /** The Running event at `k` is the last one, and no Pulled event was handled after it. */
  ghost predicate IsCurrentRunning(events: seq<Event>, k: nat) {
    && k < |events| && events[k].Running?
    && forall j :: k < j < |events| ==> !events[j].Running? && !events[j].Pulled?
  }

  /** The events so far complete the pod, as that Running event reports it. */
  ghost predicate CompletesAt(events: seq<Event>, k: nat) {
    && IsCurrentRunning(events, k)
    && !IsZero(events[k].created) && !IsZero(events[k].running)
    && PulledCount(events) == events[k].needPulled
    && HasStart(events) && HasFinish(events)
  }

  ghost predicate Completes(events: seq<Event>) {
    exists k: nat :: CompletesAt(events, k)
  }

  /** What an entry knows of its last Running event. */
  ghost predicate KnowsRunning(data: Milestones, events: seq<Event>) {
    && (forall k: nat :: IsCurrentRunning(events, k) ==>
          data.created == events[k].created && data.observedRunning == events[k].running &&
          data.needPulled == events[k].needPulled)
    && ((forall k: nat :: !IsCurrentRunning(events, k)) ==> IsZero(data.created) || data.needPulled == -1)
  }

  lemma CurrentRunningStep(events: seq<Event>, last: Event, k: nat)
    ensures IsCurrentRunning(events + [last], k) <==>
      if k == |events| then last.Running? else IsCurrentRunning(events, k) && !last.Running? && !last.Pulled?
  {
    var all := events + [last];
    if k < |events| && IsCurrentRunning(all, k) {
      assert all[|events|] == last;
      forall j | k < j < |events| ensures !events[j].Running? && !events[j].Pulled? {
        assert all[j] == events[j];
      }
    }
  }

  lemma {:induction false} EntryKnowsRunning(events: seq<Event>)
    requires OnePod(events) && events != []
    ensures KnowsRunning(Entry(events).value, events)
  {
    hide KnowsRunning, Step;
    var init, last := events[..|events| - 1], events[|events| - 1];
    assert events == init + [last];
    if init == [] {
      KnowsRunningFirst(last);
    } else {
      EntryKnowsRunning(init);
      KnowsRunningStep(Entry(init).value, init, last);
    }
  }

  lemma KnowsRunningFirst(last: Event)
    requires !last.Purge?
    ensures KnowsRunning(Step(None, last), [last])
  {
    assert [] + [last] == [last];
    forall k: nat ensures IsCurrentRunning([last], k) <==> k == 0 && last.Running? {
    }
    assert last.Running? ==> IsCurrentRunning([last], 0);
    hide IsCurrentRunning;
  }

  lemma KnowsRunningStep(data: Milestones, events: seq<Event>, last: Event)
    requires KnowsRunning(data, events) && !last.Purge?
    ensures KnowsRunning(Step(Some(data), last), events + [last])
  {
    hide IsCurrentRunning;
    var all := events + [last];
    forall k: nat
      ensures IsCurrentRunning(all, k) <==>
        if k == |events| then last.Running? else IsCurrentRunning(events, k) && !last.Running? && !last.Pulled?
    {
      CurrentRunningStep(events, last, k);
    }
    forall k: nat | IsCurrentRunning(events, k) ensures k < |events| && all[k] == events[k] {
      CurrentRunningBound(events, k);
    }
    assert last.Running? ==> IsCurrentRunning(all, |events|);
    assert !last.Running? && !last.Pulled? ==>
      forall k: nat :: IsCurrentRunning(all, k) <==> IsCurrentRunning(events, k);
  }

  lemma CurrentRunningBound(events: seq<Event>, k: nat)
    requires IsCurrentRunning(events, k)
    ensures k < |events|
  {
  }

  lemma {:induction false} EntryKnowsPulling(events: seq<Event>)
    requires OnePod(events) && PostEpoch(events) && events != []
    ensures !IsZero(Entry(events).value.startedPulling) <==> HasStart(events)
    ensures !IsZero(Entry(events).value.finishedPulling) <==> HasFinish(events)
  {
    var init, last := events[..|events| - 1], events[|events| - 1];
    if init != [] {
      assert events[0] == init[0] && forall i :: 0 <= i < |init| ==> init[i] == events[i];
      EntryKnowsPulling(init);
      HasStartStep(events);
      assert Entry(events).value == Step(Entry(init), last);
      assert PulledCount(events) == PulledCount(init) + if last.Pulled? then 1 else 0;
      assert HasFinish(events) <==> HasFinish(init) || last.Pulled?;
    } else {
      assert Entry(init) == None && PulledCount(init) == 0;
    }
  }

  lemma HasStartStep(events: seq<Event>)
    requires |events| > 1
    ensures
      var init, last := events[..|events| - 1], events[|events| - 1];
      HasStart(events) <==> HasStart(init) || last.Pulling? || last.Pulled?
  {
    var init, last := events[..|events| - 1], events[|events| - 1];
    if j :| 0 < j < |init| && (init[j].Pulling? || init[j].Pulled?) {
      assert events[j] == init[j];
    }
  }

  /** An entry is complete, accounted for or not, exactly when its events complete it. */
  lemma EntryIsComplete(events: seq<Event>)
    requires OnePod(events) && PostEpoch(events) && events != []
    ensures Entry(events).value.(accountedFor := false).IsComplete() <==> Completes(events)
  {
    EntryKnowsRunning(events);
    EntryKnowsPulling(events);
    SeenPulledCounts(events);
    hide Entry, HasStart, HasFinish, IsCurrentRunning, PulledCount;
    var data := Entry(events).value;
    if data.(accountedFor := false).IsComplete() {
      var k: nat :| IsCurrentRunning(events, k);
      CurrentRunningBound(events, k);
      assert CompletesAt(events, k);
    }
  }

  /** The latency published with pulling is that of the Running event that is current when the data point is added. */
  lemma FullLatencyIsOfCurrentRunning(events: seq<Event>, last: Event) returns (k: nat)
    requires OnePod(events) && Fires(Entry(events), last)
    ensures
      var all := events + [last];
      && IsCurrentRunning(all, k)
      && IsNearest(Observe(Handled(Entry(events), last)).full, all[k].running - all[k].created)
  {
    var all := events + [last];
    assert all[..|events|] == events && all[|events|] == last;
    assert OnePod(all) by {
      assert forall i :: 0 <= i < |events| ==> all[i] == events[i];
    }
    EntryKnowsRunning(all);
    SeenPulledCounts(all);
    var data := Entry(all).value;
    assert data.(accountedFor := false) == Handled(Entry(events), last).(accountedFor := false);
    assert data.seenPulled == data.needPulled && !IsZero(data.created) && PulledCount(all) != -1;
    k :| IsCurrentRunning(all, k);
    ObservationIsPublished(Handled(Entry(events), last));
    hide Entry, Handled, Observe, IsNearest, PulledCount, IsCurrentRunning;
  }

  /** A deletion completes nothing. */
  lemma DeletionCompletesNothing(events: seq<Event>, last: Event)
    requires last.PodDeleted? && Completes(events + [last])
    ensures events != [] && Completes(events)
  {
    var all := events + [last];
    assert all[..|events|] == events;
    var k: nat :| CompletesAt(all, k);
    CurrentRunningStep(events, last, k);
    assert all[k] == events[k] && all[0] == events[0];
    if |events| > 0 {
      HasStartStep(all);
    }
    assert CompletesAt(events, k);
  }

  /**
   A pod is measured exactly when, after some of its handlers, the last Running event came after the last Pulled
   one and reports as many containers as there were Pulled events: a pod whose last Pulled event is handled
   too late is not measured unless another Running event follows.
   */
  lemma {:induction false} MeasuredExactly(events: seq<Event>)
    requires OnePod(events) && PostEpoch(events) && events != []
    ensures Contributions(events) == 1 <==> exists j :: 0 < j <= |events| && Completes(events[..j])
    ensures Entry(events).value.accountedFor <==> exists j :: 0 < j <= |events| && Completes(events[..j])
  {
    hide Completes, Handled;
    AccountedAtMostOnce(events);
    var init, last := events[..|events| - 1], events[|events| - 1];
    assert events == init + [last] && events[..|events|] == events;
    assert forall j :: 0 <= j <= |init| ==> init[..j] == events[..j];
    EntryIsComplete(events);
    assert forall i :: 0 <= i < |init| ==> init[i] == events[i];
    if init != [] {
      MeasuredExactly(init);
    }
    if last.PodDeleted? && Completes(events) {
      DeletionCompletesNothing(init, last);
      assert init[..|init|] == init;
    }
    AccountedStep(events);
  }

  lemma AccountedStep(events: seq<Event>)
    requires OnePod(events) && events != []
    ensures
      var init, last := events[..|events| - 1], events[|events| - 1];
      var before := init != [] && Entry(init).value.accountedFor;
      Entry(events).value.accountedFor <==>
        before || (!last.PodDeleted? && Entry(events).value.(accountedFor := false).IsComplete())
  {
  }

  lemma {:induction false} DeletionIsRecorded(events: seq<Event>)
    requires OnePod(events) && events != []
    requires forall i :: 0 <= i < |events| && events[i].PodDeleted? ==> !IsZero(events[i].now)
    ensures Entry(events).value.deletedTimestamp ==
            if LastDeletion(events).Some? then LastDeletion(events).value else ZERO_TIME
    ensures LastDeletion(events).Some? ==> !IsZero(LastDeletion(events).value)
  {
    var init := events[..|events| - 1];
    if init != [] {
      forall i | 0 <= i < |init| && init[i].PodDeleted? ensures !IsZero(init[i].now) {
        assert init[i] == events[i];
      }
      DeletionIsRecorded(init);
    }
  }

  // ----- The monitor -----

  /** Clock readings are never the zero time. */
  ghost predicate RealClock(log: seq<Event>) {
    forall i :: 0 <= i < |log| && log[i].PodDeleted? ==> !IsZero(log[i].now)
  }

  lemma {:induction false} LifetimeClock(log: seq<Event>, purgeAfter: int, key: string)
    requires RealClock(log)
    ensures RealClock(Lifetime(log, purgeAfter, key))
  {
    if log != [] {
      LifetimeClock(log[..|log| - 1], purgeAfter, key);
    }
  }

  /** The stored entries are those the history calls for. */
  ghost predicate Stores(data: map<string, Milestones>, log: seq<Event>, purgeAfter: int) {
    forall k :: OnePod(Lifetime(log, purgeAfter, k)) &&
                if k in data then Entry(Lifetime(log, purgeAfter, k)) == Some(data[k])
                else Lifetime(log, purgeAfter, k) == []
  }

  ghost predicate ListsDeleted(data: map<string, Milestones>, toDelete: seq<string>) {
    forall k :: k in toDelete <==> k in data && !IsZero(data[k].deletedTimestamp)
  }

  lemma StoresOne(data: map<string, Milestones>, log: seq<Event>, purgeAfter: int, event: Event)
    requires Stores(data, log, purgeAfter) && !event.Purge?
    ensures
      var found := if event.key in data then Some(data[event.key]) else None;
      && Stores(data[event.key := Step(found, event)], log + [event], purgeAfter)
      && Observed(log + [event], purgeAfter) == Observed(log, purgeAfter) +
           if Fires(found, event) then [Observe(Handled(found, event))] else []
  {
    var log' := log + [event];
    assert log'[..|log|] == log;
    var found := if event.key in data then Some(data[event.key]) else None;
    var data' := data[event.key := Step(found, event)];
    assert Entry(Lifetime(log, purgeAfter, event.key)) == found;
    forall k ensures OnePod(Lifetime(log', purgeAfter, k)) &&
                     if k in data' then Entry(Lifetime(log', purgeAfter, k)) == Some(data'[k])
                     else Lifetime(log', purgeAfter, k) == []
    {
      if k == event.key {
        var before := Lifetime(log, purgeAfter, k);
        assert (before + [event])[..|before|] == before;
      }
    }
  }

  /** Both histograms received exactly the data points of the history. */
  ghost predicate Histograms(startup: seq<int>, full: seq<int>, log: seq<Event>, purgeAfter: int) {
    var observed := Observed(log, purgeAfter);
    && |startup| == |full| == |observed|
    && forall i :: 0 <= i < |observed| ==> observed[i] == Observation(startup[i], full[i])
  }

  ghost predicate Consistent(
      data: map<string, Milestones>, toDelete: seq<string>, startup: seq<int>, full: seq<int>,
      log: seq<Event>, purgeAfter: int)
  {
    && RealClock(log)
    && Stores(data, log, purgeAfter)
    && ListsDeleted(data, toDelete)
    && Histograms(startup, full, log, purgeAfter)
  }

  function Lookup(data: map<string, Milestones>, key: string): Option<Milestones> {
    if key in data then Some(data[key]) else None
  }

  lemma ListsDeletedOne(data: map<string, Milestones>, toDelete: seq<string>, event: Event)
    requires ListsDeleted(data, toDelete)
    requires !event.Purge? && (event.PodDeleted? ==> !IsZero(event.now))
    ensures ListsDeleted(
              data[event.key := Step(Lookup(data, event.key), event)],
              if event.PodDeleted? then toDelete + [event.key] else toDelete)
  {
    assert Step(Lookup(data, event.key), event).deletedTimestamp ==
      if event.PodDeleted? then event.now
      else if event.key in data then data[event.key].deletedTimestamp else ZERO_TIME;
  }

  lemma HistogramsOne(
      startup: seq<int>, full: seq<int>, log: seq<Event>, purgeAfter: int, event: Event, found: Option<Milestones>)
    requires Histograms(startup, full, log, purgeAfter) && !event.Purge?
    requires Observed(log + [event], purgeAfter) == Observed(log, purgeAfter) +
               if Fires(found, event) then [Observe(Handled(found, event))] else []
    ensures
      var fires, point := Fires(found, event), Observe(Handled(found, event));
      Histograms(
        if fires then startup + [point.startup] else startup,
        if fires then full + [point.full] else full,
        log + [event], purgeAfter)
  {
  }

  /** One handler keeps the monitor consistent with its history. */
  lemma HandlerKeepsConsistent(
      data: map<string, Milestones>, toDelete: seq<string>, startup: seq<int>, full: seq<int>,
      log: seq<Event>, purgeAfter: int, event: Event)
    requires Consistent(data, toDelete, startup, full, log, purgeAfter)
    requires !event.Purge? && (event.PodDeleted? ==> !IsZero(event.now))
    ensures
      var found := Lookup(data, event.key);
      var fires := Fires(found, event);
      var point := Observe(Handled(found, event));
      Consistent(
        data[event.key := Step(found, event)],
        if event.PodDeleted? then toDelete + [event.key] else toDelete,
        if fires then startup + [point.startup] else startup,
        if fires then full + [point.full] else full,
        log + [event], purgeAfter)
  {
    hide Stores, ListsDeleted, Histograms, Observed, Step, Fires;
    StoresOne(data, log, purgeAfter, event);
    ListsDeletedOne(data, toDelete, event);
    HistogramsOne(startup, full, log, purgeAfter, event, Lookup(data, event.key));
  }

  /** A full scan: drop the entries whose deletion is at least `purgeAfter` old. */
  function Purged(data: map<string, Milestones>, purgeAfter: int, now: Time): map<string, Milestones> {
    map k | k in data && (IsZero(data[k].deletedTimestamp) || data[k].deletedTimestamp + purgeAfter > now) :: data[k]
  }

  lemma StoresPurge(
      data: map<string, Milestones>, log: seq<Event>, purgeAfter: int, now: Time, data': map<string, Milestones>)
    requires Stores(data, log, purgeAfter) && RealClock(log)
    requires data' == Purged(data, purgeAfter, now)
    ensures Stores(data', log + [Purge(now)], purgeAfter)
    ensures Observed(log + [Purge(now)], purgeAfter) == Observed(log, purgeAfter)
  {
    var log' := log + [Purge(now)];
    assert log'[..|log|] == log;
    forall k ensures OnePod(Lifetime(log', purgeAfter, k)) &&
                     if k in data' then Entry(Lifetime(log', purgeAfter, k)) == Some(data'[k])
                     else Lifetime(log', purgeAfter, k) == []
    {
      var before := Lifetime(log, purgeAfter, k);
      LifetimeClock(log, purgeAfter, k);
      if before != [] {
        DeletionIsRecorded(before);
      }
    }
  }

  /** The part of a purge that the list makes cheap: only listed entries are looked at. */
  lemma PurgeKeepsConsistent(
      data: map<string, Milestones>, toDelete: seq<string>, startup: seq<int>, full: seq<int>,
      log: seq<Event>, purgeAfter: int, now: Time, data': map<string, Milestones>, left: seq<string>)
    requires Consistent(data, toDelete, startup, full, log, purgeAfter)
    requires data' == map k | k in data && (k in toDelete ==> data[k].deletedTimestamp + purgeAfter > now) :: data[k]
    requires forall k :: k in left <==> k in toDelete && k in data'
    ensures data' == Purged(data, purgeAfter, now)
    ensures Consistent(data', left, startup, full, log + [Purge(now)], purgeAfter)
  {
    hide Stores, Observed;
    StoresPurge(data, log, purgeAfter, now, Purged(data, purgeAfter, now));
  }

  class Monitor {
    const purgeAfter: int
    var podStartupData: map<string, Milestones>
    var toDelete: seq<string>
    var startupLatency: seq<int>
    var fullStartupLatency: seq<int>
    ghost var log: seq<Event>

    ghost predicate Valid()
      reads this
    {
      Consistent(podStartupData, toDelete, startupLatency, fullStartupLatency, log, purgeAfter)
    }

    constructor (purgeAfter: int)
      ensures Valid() && log == [] && this.purgeAfter == purgeAfter
    {
      this.purgeAfter := purgeAfter;
      podStartupData, toDelete := map[], [];
      startupLatency, fullStartupLatency := [], [];
      log := [];
    }

    /** updateMetric: marks a complete entry as accounted for and adds its data point. */
    method UpdateMetric(handled: Milestones) returns (data: Milestones)
      modifies `startupLatency, `fullStartupLatency
      ensures data == handled.(accountedFor := handled.accountedFor || handled.IsComplete())
      ensures startupLatency ==
              if handled.IsComplete() then old(startupLatency) + [Observe(handled).startup] else old(startupLatency)
      ensures fullStartupLatency ==
              if handled.IsComplete() then old(fullStartupLatency) + [Observe(handled).full]
                else old(fullStartupLatency)
      ensures handled.IsComplete() ==>
        exists startup, full ::
          && Publishes(handled, startup, full)
          && startupLatency == old(startupLatency) + [startup]
          && fullStartupLatency == old(fullStartupLatency) + [full]
    {
      ObservationIsPublished(handled);
      data := handled;
      if data.IsComplete() {
        data := data.(accountedFor := true);
        var fullStartupTime := Sub(data.observedRunning, data.created);
        var startupTime := Minus(fullStartupTime, Sub(data.finishedPulling, data.startedPulling));
        if startupTime < 0 {
          startupTime := 0;
        }
        startupLatency := startupLatency + [startupTime];
        fullStartupLatency := fullStartupLatency + [fullStartupTime];
      }
    }

    method HandlePodDelete(key: string, now: Time)
      requires Valid() && !IsZero(now)
      modifies this
      ensures Valid() && log == old(log) + [PodDeleted(key, now)]
      ensures podStartupData == old(podStartupData)[key := Step(Lookup(old(podStartupData), key), PodDeleted(key, now))]
    {
      hide Consistent;
      HandlerKeepsConsistent(podStartupData, toDelete, startupLatency, fullStartupLatency, log, purgeAfter,
        PodDeleted(key, now));
      var data := NO_MILESTONES;
      if key in podStartupData {
        data := podStartupData[key];
      } else {
        data := data.(startedPulling := UNIX_EPOCH);
      }
      data := data.(deletedTimestamp := now);
      podStartupData := podStartupData[key := data];
      toDelete := toDelete + [key];
      log := log + [PodDeleted(key, now)];
    }

    method HandlePullingImageEvent(key: string, at: Time)
      requires Valid()
      modifies this
      ensures Valid() && log == old(log) + [Pulling(key, at)]
      ensures podStartupData == old(podStartupData)[key := Step(Lookup(old(podStartupData), key), Pulling(key, at))]
    {
      hide Consistent;
      HandlerKeepsConsistent(podStartupData, toDelete, startupLatency, fullStartupLatency, log, purgeAfter,
        Pulling(key, at));
      var data := NO_MILESTONES;
      if key in podStartupData {
        data := podStartupData[key];
      } else {
        data := data.(finishedPulling := UNIX_EPOCH, needPulled := -1);
      }
      if IsZero(data.startedPulling) || data.startedPulling > at {
        data := data.(startedPulling := at);
      }
      data := UpdateMetric(data);
      podStartupData := podStartupData[key := data];
      log := log + [Pulling(key, at)];
    }

    method HandlePulledImageEvent(key: string, at: Time, alreadyPresent: bool)
      requires Valid()
      modifies this
      ensures Valid() && log == old(log) + [Pulled(key, at, alreadyPresent)]
      ensures podStartupData == old(podStartupData)[
        key := Step(Lookup(old(podStartupData), key), Pulled(key, at, alreadyPresent))]
    {
      hide Consistent;
      HandlerKeepsConsistent(podStartupData, toDelete, startupLatency, fullStartupLatency, log, purgeAfter,
        Pulled(key, at, alreadyPresent));
      var data := NO_MILESTONES;
      if key in podStartupData {
        data := podStartupData[key];
        data := data.(startedPulling := UNIX_EPOCH, needPulled := -1);
      }
      if IsZero(data.finishedPulling) || data.finishedPulling < at {
        data := data.(finishedPulling := at);
      }
      if alreadyPresent {
        data := data.(startedPulling := at);
      }
      data := data.(seenPulled := data.seenPulled + 1);
      data := UpdateMetric(data);
      podStartupData := podStartupData[key := data];
      log := log + [Pulled(key, at, alreadyPresent)];
    }

    method InsertPodRunningTime(key: string, created: Time, running: Time, needPulled: nat)
      requires Valid()
      modifies this
      ensures Valid() && log == old(log) + [Running(key, created, running, needPulled)]
      ensures podStartupData == old(podStartupData)[
        key := Step(Lookup(old(podStartupData), key), Running(key, created, running, needPulled))]
    {
      hide Consistent;
      HandlerKeepsConsistent(podStartupData, toDelete, startupLatency, fullStartupLatency, log, purgeAfter,
        Running(key, created, running, needPulled));
      var data := NO_MILESTONES;
      if key in podStartupData {
        data := podStartupData[key];
      } else {
        data := data.(startedPulling := UNIX_EPOCH, finishedPulling := UNIX_EPOCH);
      }
      data := data.(created := created, observedRunning := running, needPulled := needPulled);
      data := UpdateMetric(data);
      podStartupData := podStartupData[key := data];
      log := log + [Running(key, created, running, needPulled)];
    }

    /** The list is only an optimisation: the purge removes what a scan of all entries would. */
    method PurgeOutdated(now: Time)
      requires Valid()
      modifies this
      ensures Valid() && log == old(log) + [Purge(now)]
      ensures podStartupData.Keys == set k | k in old(podStartupData) &&
        (IsZero(old(podStartupData)[k].deletedTimestamp) ||
         old(podStartupData)[k].deletedTimestamp + purgeAfter > now)
      ensures forall k :: k in podStartupData ==> podStartupData[k] == old(podStartupData)[k]
    {
      hide Consistent;
      var before, listed := podStartupData, toDelete;
      var left: seq<string> := [];
      for i := 0 to |listed|
        invariant podStartupData == map k |
          k in before && (k in listed[..i] ==> before[k].deletedTimestamp + purgeAfter > now) :: before[k]
        invariant forall k :: k in left <==> k in listed[..i] && k in podStartupData
        invariant unchanged(`toDelete) && unchanged(`log) && unchanged(`startupLatency) &&
          unchanged(`fullStartupLatency)
      {
        var podKey := listed[i];
        assert listed[..i + 1] == listed[..i] + [podKey];
        if podKey in podStartupData {
          var data := podStartupData[podKey];
          if data.deletedTimestamp + purgeAfter > now {
            left := left + [podKey];
          } else {
            podStartupData := podStartupData - {podKey};
          }
        }
      }
      assert listed[..|listed|] == listed;
      PurgeKeepsConsistent(before, listed, startupLatency, fullStartupLatency, log, purgeAfter, now, podStartupData,
        left);
      toDelete := left;
      log := log + [Purge(now)];
    }
  }
}
