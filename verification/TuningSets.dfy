/**
 The pacing loops of clusterloader2/pkg/tuningset over a logical clock that counts
 nanoseconds. Only sleeping and the arbitrary delays of the loop itself let time pass.
 */
module TuningSets {
  import opened Common
  import opened MixedRadix

  const SECOND: nat := 1_000_000_000

  /** The sum of the first `i` delays. */
  function Lag(delay: nat -> nat, i: nat): nat {
    if i == 0 then 0 else Lag(delay, i - 1) + delay(i - 1)
  }

  lemma {:induction false} LagGrows(delay: nat -> nat, i: nat, j: nat)
    requires i <= j
    ensures Lag(delay, i) <= Lag(delay, j)
  {
    if i < j {
      LagGrows(delay, i, j - 1);
    }
  }

  class Clock {
    var now: int

    constructor (now: int)
      ensures this.now == now
    {
      this.now := now;
    }

    /** A sleep that is not positive returns at once. */
    method Sleep(d: int)
      modifies this
      ensures now == old(now) + NotNegative(d)
    {
      if d > 0 {
        now := now + d;
      }
    }

    /** Time the loop takes without asking for it. */
    method Elapse(d: nat)
      modifies this
      ensures now == old(now) + d
    {
      now := now + d;
    }
  }

  /** An action, by its index, and the moment it is started. */
  datatype Launch = Launch(action: nat, time: int)

  /** The first action starts after its delay, and every other one its pause and its delay after the one before it. */
  ghost predicate Paced(start: nat -> int, delay: nat -> nat, pause: nat -> nat) {
    start(0) == delay(0) && forall i: nat :: i > 0 ==> start(i) == start(i - 1) + pause(i) + delay(i)
  }

  /** There is only one way to start like that. */
  lemma {:induction false} PacedIsUnique(
      start: nat -> int, start': nat -> int, delay: nat -> nat, pause: nat -> nat, i: nat)
    requires Paced(start, delay, pause) && Paced(start', delay, pause)
    ensures start(i) == start'(i)
  {
    if i > 0 {
      PacedIsUnique(start, start', delay, pause, i - 1);
    }
  }

  // ----- Bursts with a pause after each (stepped_load.go) -----

  function Abs(x: int): nat {
    if x < 0 then -x else x
  }

  predicate Divisible(i: nat, b: int)
    requires b != 0
  {
    i % b == 0
  }

  lemma DivisibleBySize(i: nat, b: int)
    requires b != 0
    ensures Divisible(i, b) <==> Divisible(i, Abs(b))
  {
    if b < 0 {
      var q, r := i / b, i % b;
      assert i == (-q) * (-b) + r;
      QuotOf(-q, -b, r);
    }
  }

  /** When action `i` starts, counted from the beginning. */
  function SteppedStart(burstSize: nat, stepDelay: int, delay: nat -> nat, i: nat): nat
    requires burstSize > 0
  {
    Mul(Quot(i, burstSize), NotNegative(stepDelay)) + Lag(delay, i + 1)
  }

  /**
   The remainder of a division by a negative number is zero for the same numerators, so only
   the size of `burstSize` matters; a zero stops the program.
   `delay(i)` is the time that passes between the end of the previous step and start `i`.
   */
  method SteppedExecute(clock: Clock, actions: nat, burstSize: int, stepDelay: int, delay: nat -> nat)
    returns (launches: seq<Launch>)
    requires burstSize != 0
    modifies clock
    ensures |launches| == actions
    ensures forall i :: 0 <= i < actions ==>
      launches[i] == Launch(i, old(clock.now) + SteppedStart(Abs(burstSize), stepDelay, delay, i))
    ensures clock.now == old(clock.now) + Mul(Quot(actions, Abs(burstSize)), NotNegative(stepDelay)) +
      Lag(delay, actions)
  {
    hide Mul, Quot, Divisible;
    ghost var b := Abs(burstSize);
    launches := [];
    NextQuot(0, b);
    MulDistributes(0, 0, NotNegative(stepDelay));
    for i := 0 to actions
      invariant |launches| == i
      invariant forall k :: 0 <= k < i ==>
        launches[k] == Launch(k, old(clock.now) + SteppedStart(Abs(burstSize), stepDelay, delay, k))
      invariant clock.now == old(clock.now) + Mul(Quot(i, b), NotNegative(stepDelay)) + Lag(delay, i)
    {
      clock.Elapse(delay(i));
      launches := launches + [Launch(i, clock.now)];
      QuotNext(i, b);
      DivisibleBySize(i + 1, burstSize);
      MulDistributes(Quot(i, b), 1, NotNegative(stepDelay));
      if Divisible(i + 1, burstSize) {
        clock.Sleep(stepDelay);
      }
    }
  }

  lemma QuotNext(i: nat, b: nat)
    requires b > 0
    ensures Quot(i + 1, b) == Quot(i, b) + if Divisible(i + 1, b) then 1 else 0
  {
    Split(i, b);
    Split(i + 1, b);
    var q, r := Quot(i, b), Rem(i, b);
    if r + 1 < b {
      QuotOf(q, b, r + 1);
    } else {
      MulDistributes(q, 1, b);
      QuotOf(q + 1, b, 0);
    }
  }

  /** The pause comes before every action whose index the burst size divides, but for the first: after each burst. */
  lemma SteppedIsPaced(burstSize: nat, stepDelay: int, delay: nat -> nat)
    requires burstSize > 0
    ensures Paced((i: nat) => SteppedStart(burstSize, stepDelay, delay, i), delay,
      (i: nat) => if Divisible(i, burstSize) && stepDelay > 0 then stepDelay else 0)
  {
    hide Mul, Quot;
    var d := NotNegative(stepDelay);
    NextQuot(0, burstSize);
    MulDistributes(0, 0, d);
    forall i: nat | i > 0
      ensures SteppedStart(burstSize, stepDelay, delay, i) == SteppedStart(burstSize, stepDelay, delay, i - 1) +
        (if Divisible(i, burstSize) && stepDelay > 0 then stepDelay else 0) + delay(i)
    {
      QuotNext(i - 1, burstSize);
      MulDistributes(Quot(i - 1, burstSize), 1, d);
    }
  }

  lemma QuotAddBurst(i: nat, b: nat)
    requires b > 0
    ensures Quot(i + b, b) == Quot(i, b) + 1
  {
    hide Mul, Quot, Rem;
    Split(i, b);
    MulDistributes(Quot(i, b), 1, b);
    QuotOf(Quot(i, b) + 1, b, Rem(i, b));
  }

  /** Actions a burst or more apart are at least a step apart, whatever the delays. */
  lemma BurstSpacing(burstSize: nat, stepDelay: int, delay: nat -> nat, i: nat, j: nat)
    requires burstSize > 0 && i <= j
    ensures SteppedStart(burstSize, stepDelay, delay, i) <= SteppedStart(burstSize, stepDelay, delay, j)
    ensures i + burstSize <= j ==>
      SteppedStart(burstSize, stepDelay, delay, i) + NotNegative(stepDelay)
      <= SteppedStart(burstSize, stepDelay, delay, j)
  {
    hide Mul, Quot;
    var d := NotNegative(stepDelay);
    LagGrows(delay, i + 1, j + 1);
    QuotMonotone(i, j, burstSize);
    MulMonotone(Quot(i, burstSize), Quot(j, burstSize), d);
    if i + burstSize <= j {
      QuotAddBurst(i, burstSize);
      QuotMonotone(i + burstSize, j, burstSize);
      MulMonotone(Quot(i, burstSize) + 1, Quot(j, burstSize), d);
      MulDistributes(Quot(i, burstSize), 1, d);
    }
  }

  /** The actions among the first `n` that start in the window of one step that begins at `t`. */
  ghost function StartedIn(burstSize: nat, stepDelay: int, delay: nat -> nat, n: nat, t: int): set<nat>
    requires burstSize > 0
  {
    set i: nat | i < n &&
      t <= SteppedStart(burstSize, stepDelay, delay, i) < t + NotNegative(stepDelay)
  }

  /** No window shorter than a step sees more than one burst. */
  lemma {:induction false} AtMostOneBurst(burstSize: nat, stepDelay: int, delay: nat -> nat, n: nat, t: int)
    requires burstSize > 0
    ensures |StartedIn(burstSize, stepDelay, delay, n, t)| <= burstSize
  {
    hide SteppedStart, NotNegative;
    var started := StartedIn(burstSize, stepDelay, delay, n, t);
    if n > 0 {
      var last: nat := n - 1;
      if last in started {
        var low := NotNegative(n - burstSize);
        assert low == if n < burstSize then 0 else n - burstSize by { NotNegativeIs(n - burstSize); }
        forall i | i in started ensures low <= i < n {
          if i + burstSize <= last {
            BurstSpacing(burstSize, stepDelay, delay, i, last);
          }
        }
        IntervalSize(started, low, n);
      } else {
        assert started == StartedIn(burstSize, stepDelay, delay, last, t);
        AtMostOneBurst(burstSize, stepDelay, delay, last, t);
      }
    }
  }

  lemma NotNegativeIs(d: int)
    ensures NotNegative(d) == if d < 0 then 0 else d
  {
  }

  lemma {:induction false} IntervalSize(s: set<nat>, low: nat, high: nat)
    requires low <= high && forall i :: i in s ==> low <= i < high
    ensures |s| <= high - low
    decreases high
  {
    if low < high {
      var rest := s - {high - 1};
      IntervalSize(rest, low, high - 1);
      assert s <= rest + {high - 1};
      assert |s| <= |rest| + 1 by {
        if high - 1 in s {
          assert s == rest + {high - 1};
        } else {
          assert s == rest;
        }
      }
    } else {
      assert s == {};
    }
  }

  // ----- A fixed pause after every action (qps_load.go, time_limited.go) -----

  function UniformStart(sleep: int, delay: nat -> nat, i: nat): nat {
    Mul(i, NotNegative(sleep)) + Lag(delay, i + 1)
  }

  /** Conversion of a float to an integer drops the fraction. */
  function Truncated(x: real): int {
    if x < 0.0 then -(-x).Floor else x.Floor
  }

  /** The pause of a load of `qps` actions a second, in nanoseconds. */
  function QpsSleep(qps: real): int
    requires qps != 0.0
  {
    Truncated(SECOND as real / qps)
  }

  method QpsExecute(clock: Clock, actions: nat, qps: real, delay: nat -> nat)
    returns (launches: seq<Launch>)
    requires qps != 0.0
    modifies clock
    ensures |launches| == actions
    ensures forall i :: 0 <= i < actions ==>
      launches[i] == Launch(i, old(clock.now) + UniformStart(QpsSleep(qps), delay, i))
    ensures clock.now == old(clock.now) + Mul(actions, NotNegative(QpsSleep(qps))) + Lag(delay, actions)
  {
    hide Mul, QpsSleep;
    var sleepDuration := QpsSleep(qps);
    launches := [];
    MulDistributes(0, 0, NotNegative(sleepDuration));
    for i := 0 to actions
      invariant |launches| == i
      invariant forall k :: 0 <= k < i ==>
        launches[k] == Launch(k, old(clock.now) + UniformStart(sleepDuration, delay, k))
      invariant clock.now == old(clock.now) + Mul(i, NotNegative(sleepDuration)) + Lag(delay, i)
    {
      clock.Elapse(delay(i));
      launches := launches + [Launch(i, clock.now)];
      clock.Sleep(sleepDuration);
      MulDistributes(i, 1, NotNegative(sleepDuration));
    }
  }

  /** The pause comes before every action but the first. */
  lemma UniformIsPaced(sleep: int, delay: nat -> nat)
    ensures Paced((i: nat) => UniformStart(sleep, delay, i), delay, (i: nat) => if sleep > 0 then sleep else 0)
  {
    hide Mul;
    MulDistributes(0, 0, NotNegative(sleep));
    forall i: nat | i > 0
      ensures UniformStart(sleep, delay, i) ==
        UniformStart(sleep, delay, i - 1) + (if sleep > 0 then sleep else 0) + delay(i)
    {
      MulDistributes(i - 1, 1, NotNegative(sleep));
    }
  }

  /** Starts are at least the pauses between them apart; delays add up and are never made good. */
  lemma UniformSpacing(sleep: int, delay: nat -> nat, i: nat, j: nat)
    requires i <= j
    ensures UniformStart(sleep, delay, j) - UniformStart(sleep, delay, i)
         == Mul(j - i, NotNegative(sleep)) + (Lag(delay, j + 1) - Lag(delay, i + 1))
    ensures Lag(delay, i + 1) <= Lag(delay, j + 1)
  {
    hide Mul;
    LagGrows(delay, i + 1, j + 1);
    MulDistributes(i, j - i, NotNegative(sleep));
  }

  predicate IsWhole(x: real) {
    x.Floor as real == x
  }

  /** Two consecutive actions are never less than the promised 1/QPS seconds apart. */
  ghost predicate KeepsRate(qps: real)
    requires qps > 0.0
  {
    forall delay: nat -> nat, i: nat ::
      (UniformStart(QpsSleep(qps), delay, i + 1) - UniformStart(QpsSleep(qps), delay, i)) as real
      >= SECOND as real / qps
  }

  /** That holds exactly when 1/QPS seconds is a whole number of nanoseconds. */
  lemma RateIsKeptExactly(qps: real)
    requires qps > 0.0
    ensures KeepsRate(qps) <==> IsWhole(SECOND as real / qps)
  {
    hide Mul;
    var exact := SECOND as real / qps;
    var sleep := QpsSleep(qps);
    assert exact > 0.0 && sleep == exact.Floor && NotNegative(sleep) == sleep;
    MulDistributes(0, 0, NotNegative(sleep));
    if IsWhole(exact) {
      forall delay: nat -> nat, i: nat
        ensures (UniformStart(sleep, delay, i + 1) - UniformStart(sleep, delay, i)) as real >= exact
      {
        UniformSpacing(sleep, delay, i, i + 1);
      }
    }
    if KeepsRate(qps) {
      var none: nat -> nat := _ => 0;
      UniformSpacing(sleep, none, 0, 1);
      assert Lag(none, 2) == Lag(none, 1) + none(1);
      assert (UniformStart(sleep, none, 0 + 1) - UniformStart(sleep, none, 0)) as real >= exact;
    }
  }

  /** Three actions a second are started a third of a nanosecond too fast. */
  lemma ThreeQpsIsTooFast()
    ensures QpsSleep(3.0) == 333_333_333 && !KeepsRate(3.0)
  {
    var exact := SECOND as real / 3.0;
    assert 333_333_333.0 < exact < 333_333_334.0;
    assert exact.Floor == 333_333_333;
    RateIsKeptExactly(3.0);
  }

  /** Division of 64-bit integers drops the fraction. */
  function TruncatedQuotient(a: int, n: nat): int
    requires n > 0
  {
    if a < 0 then 0 - Quot(-a, n) as int else Quot(a, n)
  }

  /** With no action there is nothing to divide the limit by, and the loop returns at once. */
  method TimeLimitedExecute(clock: Clock, actions: nat, timeLimit: int, delay: nat -> nat)
    returns (launches: seq<Launch>)
    modifies clock
    ensures |launches| == actions
    ensures forall i :: 0 <= i < actions ==>
      launches[i] == Launch(i, old(clock.now) + UniformStart(TruncatedQuotient(timeLimit, actions), delay, i))
    ensures clock.now == old(clock.now) + TotalSleep(timeLimit, actions) + Lag(delay, actions)
  {
    hide Mul, Quot;
    launches := [];
    if actions == 0 {
      return;
    }
    var sleepDuration := TruncatedQuotient(timeLimit, actions);
    MulDistributes(0, 0, NotNegative(sleepDuration));
    for i := 0 to actions
      invariant |launches| == i
      invariant forall k :: 0 <= k < i ==>
        launches[k] == Launch(k, old(clock.now) + UniformStart(sleepDuration, delay, k))
      invariant clock.now == old(clock.now) + Mul(i, NotNegative(sleepDuration)) + Lag(delay, i)
    {
      clock.Elapse(delay(i));
      launches := launches + [Launch(i, clock.now)];
      clock.Sleep(sleepDuration);
      MulDistributes(i, 1, NotNegative(sleepDuration));
    }
  }

  function TotalSleep(timeLimit: int, actions: nat): nat {
    if actions == 0 then 0 else Mul(actions, NotNegative(TruncatedQuotient(timeLimit, actions)))
  }

  /** The sleeps use up the time limit but for less than a nanosecond for each action. */
  lemma TimeLimitIsUsed(timeLimit: int, actions: nat)
    requires actions > 0
    ensures TotalSleep(timeLimit, actions) <= NotNegative(timeLimit) < TotalSleep(timeLimit, actions) + actions
  {
    hide Mul, Quot, Rem;
    if timeLimit >= 0 {
      Split(timeLimit, actions);
      MulCommutes(actions, Quot(timeLimit, actions));
    } else {
      MulCommutes(actions, 0);
      MulDistributes(0, 0, actions);
    }
  }

  lemma MulCommutes(a: nat, b: nat)
    ensures Mul(a, b) == Mul(b, a)
  {
  }

  /** Every action starts within the time limit, apart from the delays. */
  lemma StartsWithinLimit(timeLimit: int, actions: nat, delay: nat -> nat, i: nat)
    requires i < actions
    ensures UniformStart(TruncatedQuotient(timeLimit, actions), delay, i) <= NotNegative(timeLimit) + Lag(delay, i + 1)
  {
    hide Mul, Quot;
    TimeLimitIsUsed(timeLimit, actions);
    MulMonotone(i, actions, NotNegative(TruncatedQuotient(timeLimit, actions)));
  }

  // ----- A schedule with arbitrary gaps (poisson_load.go) -----

  /** The scheduled start of action `i`: the sum of the gaps before it. */
  function Schedule(gap: nat -> int, i: nat): int {
    if i == 0 then 0 else Schedule(gap, i - 1) + gap(i - 1)
  }

  /** When the loop comes to action `i`, and when it starts it. */
  function Ready(gap: nat -> int, delay: nat -> nat, over: nat -> nat, i: nat): int
    decreases i, 0
  {
    (if i == 0 then 0 else PoissonStart(gap, delay, over, i - 1)) + delay(i)
  }

  function PoissonStart(gap: nat -> int, delay: nat -> nat, over: nat -> nat, i: nat): int
    decreases i, 1
  {
    var ready := Ready(gap, delay, over, i);
    ready + NotNegative(Schedule(gap, i) - ready) + over(i)
  }

  lemma ScheduleStep(gap: nat -> int, i: nat)
    ensures Schedule(gap, 0) == 0 && Schedule(gap, i + 1) == Schedule(gap, i) + gap(i)
  {
  }

  lemma PoissonStep(gap: nat -> int, delay: nat -> nat, over: nat -> nat, i: nat)
    ensures
      var ready := (if i == 0 then 0 else PoissonStart(gap, delay, over, i - 1)) + delay(i);
      PoissonStart(gap, delay, over, i) == ready + NotNegative(Schedule(gap, i) - ready) + over(i)
  {
  }

  /** `delay(i)` passes before the wait for action `i` is computed, `over(i)` after it. */
  method PoissonExecute(clock: Clock, actions: nat, gap: nat -> int, delay: nat -> nat, over: nat -> nat)
    returns (launches: seq<Launch>)
    modifies clock
    ensures |launches| == actions
    ensures forall i :: 0 <= i < actions ==>
      launches[i] == Launch(i, old(clock.now) + PoissonStart(gap, delay, over, i))
  {
    hide PoissonStart, Ready, Schedule;
    ScheduleStep(gap, 0);
    launches := [];
    var actionNextLaunch := clock.now;
    for i := 0 to actions
      invariant |launches| == i
      invariant forall k :: 0 <= k < i ==>
        launches[k] == Launch(k, old(clock.now) + PoissonStart(gap, delay, over, k))
      invariant actionNextLaunch == old(clock.now) + Schedule(gap, i)
      invariant clock.now == old(clock.now) + if i == 0 then 0 else PoissonStart(gap, delay, over, i - 1)
    {
      clock.Elapse(delay(i));
      clock.Sleep(actionNextLaunch - clock.now);
      clock.Elapse(over(i));
      launches := launches + [Launch(i, clock.now)];
      actionNextLaunch := actionNextLaunch + gap(i);
      PoissonStep(gap, delay, over, i);
      ScheduleStep(gap, i);
    }
  }

  /** No action starts before its schedule, and it starts with it whenever the loop is there in time. */
  lemma PoissonKeepsSchedule(gap: nat -> int, delay: nat -> nat, over: nat -> nat, i: nat)
    ensures PoissonStart(gap, delay, over, i) >= Schedule(gap, i)
    ensures PoissonStart(gap, delay, over, i) == Schedule(gap, i) + over(i)
       <==> Ready(gap, delay, over, i) <= Schedule(gap, i)
  {
  }

  /** The time the loop itself needs from the scheduled start of `k` to the start of `i`. */
  function Busy(delay: nat -> nat, over: nat -> nat, k: nat, i: nat): nat
    requires k <= i
  {
    if k == i then over(k) else Busy(delay, over, k, i - 1) + delay(i) + over(i)
  }

  /**
   The whole history in one formula: action `i` starts as late as the worst backlog makes it,
   counted from any earlier schedule or from the beginning.
   */
  ghost predicate WorstBacklog(gap: nat -> int, delay: nat -> nat, over: nat -> nat, i: nat, start: int) {
    (forall k: nat :: k <= i ==> Schedule(gap, k) + Busy(delay, over, k, i) <= start) &&
    delay(0) + Busy(delay, over, 0, i) <= start &&
    (start == delay(0) + Busy(delay, over, 0, i) ||
     exists k: nat :: k <= i && start == Schedule(gap, k) + Busy(delay, over, k, i))
  }

  lemma {:induction false} StartIsWorstBacklog(gap: nat -> int, delay: nat -> nat, over: nat -> nat, i: nat)
    ensures WorstBacklog(gap, delay, over, i, PoissonStart(gap, delay, over, i))
  {
    var start, ready := PoissonStart(gap, delay, over, i), Ready(gap, delay, over, i);
    if i == 0 {
      assert Schedule(gap, 0) + Busy(delay, over, 0, 0) <= start;
    } else {
      StartIsWorstBacklog(gap, delay, over, i - 1);
      forall k: nat | k <= i ensures Schedule(gap, k) + Busy(delay, over, k, i) <= start {
        if k < i {
          assert Schedule(gap, k) + Busy(delay, over, k, i - 1) <= PoissonStart(gap, delay, over, i - 1);
        }
      }
      if ready <= Schedule(gap, i) {
        assert start == Schedule(gap, i) + Busy(delay, over, i, i);
      }
    }
  }

  /** Delays that fit into the gaps leave no trace: the schedule is kept, without drift. */
  lemma {:induction false} ShortDelaysDoNotAddUp(gap: nat -> int, delay: nat -> nat, over: nat -> nat, i: nat)
    requires delay(0) == 0
    requires forall k: nat :: k < i ==> over(k) + delay(k + 1) <= gap(k)
    ensures PoissonStart(gap, delay, over, i) == Schedule(gap, i) + over(i)
  {
    if i > 0 {
      ShortDelaysDoNotAddUp(gap, delay, over, i - 1);
    }
  }

  /** A loop that needs no time itself starts the first action at once, and each other one its gap after the last. */
  lemma GapsAreKept(gap: nat -> int, delay: nat -> nat, over: nat -> nat, i: nat)
    requires forall k: nat :: k <= i ==> gap(k) >= 0
    requires forall k: nat :: delay(k) == 0 && over(k) == 0
    ensures PoissonStart(gap, delay, over, 0) == 0
    ensures PoissonStart(gap, delay, over, i + 1) == PoissonStart(gap, delay, over, i) + gap(i)
  {
    hide PoissonStart, Schedule;
    ShortDelaysDoNotAddUp(gap, delay, over, 0);
    ShortDelaysDoNotAddUp(gap, delay, over, i);
    ShortDelaysDoNotAddUp(gap, delay, over, i + 1);
    ScheduleStep(gap, i);
  }
}
