/**
 The API availability measurement (clusterloader2/pkg/measurement/common/api_availability_measurement.go).

 A controller executes start, pause, unpause and gather one at a time (it holds a mutex for the whole
 call) while a poll loop probes the cluster and its hosts.  They talk over two unbuffered
 channels and one that is closed to stop the loop.  An unbuffered send and its receive are one event; a
 history is any sequence of events that were possible.
 */
module AvailabilityProtocol {
  import opened Common
  import opened MixedRadix
  import opened Wrappers

  /** Where the poll loop is; it has exited before the first start and after a stop. */
  datatype Loop =
    | Exited
    | Top            // about to test isPaused
    | PausedSelect   // waits for unpauseCh or stopCh
    | GotUnpause     // received, about to clear isPaused
    | PollSelect     // waits for pauseCh, the timer or stopCh
    | GotPause       // received, about to set isPaused
    | ProbingCluster
    | ProbingHosts

  /** What the controller is blocked on, if anything. */
  datatype Controller = Idle | SendingPause | SendingUnpause | WaitingForLoop

  datatype State = State(
    isRunning: bool, isPaused: bool, stopClosed: bool,
    loop: Loop, controller: Controller,
    cluster: seq<bool>,              // results of the cluster probes of this session
    hosts: map<string, seq<bool>>,   // results of the host probes
    hostIPs: multiset<string>,
    remaining: multiset<string>)     // hosts still to be probed in this round

  const INITIAL := State(false, false, false, Exited, Idle, [], map[], multiset{}, multiset{})

  datatype Event =
    // calls of the controller; `hosts` is None when host probing is off
    | StartCall(hosts: Option<multiset<string>>) | PauseCall | UnpauseCall | GatherCall
    | GatherReturns
    // the loop
    | TestPaused | PauseReceived | SetPaused | UnpauseReceived | ClearPaused | StopReceived
    | TimerFired | ClusterProbed(ok: bool) | HostProbed(ip: string, ok: bool) | HostsProbed

  predicate IsProbe(e: Event) {
    e.ClusterProbed? || e.HostProbed?
  }

  predicate Enabled(s: State, e: Event) {
    match e
    case StartCall(_) => s.controller.Idle?
    case PauseCall => s.controller.Idle?
    case UnpauseCall => s.controller.Idle?
    case GatherCall => s.controller.Idle?
    case GatherReturns => s.controller.WaitingForLoop? && s.loop.Exited?
    case TestPaused => s.loop.Top?
    case PauseReceived => s.loop.PollSelect? && s.controller.SendingPause?
    case SetPaused => s.loop.GotPause?
    case UnpauseReceived => s.loop.PausedSelect? && s.controller.SendingUnpause?
    case ClearPaused => s.loop.GotUnpause?
    case StopReceived => s.stopClosed && (s.loop.PausedSelect? || s.loop.PollSelect?)
    case TimerFired => s.loop.PollSelect?
    case ClusterProbed(_) => s.loop.ProbingCluster?
    case HostProbed(ip, _) => s.loop.ProbingHosts? && ip in s.remaining && ip in s.hosts
    case HostsProbed => s.loop.ProbingHosts? && s.remaining == multiset{}
  }

  function Next(s: State, e: Event): State
    requires Enabled(s, e)
  {
    match e
    case StartCall(hosts) =>
      if s.isRunning then s
      else
        var started := s.(isRunning := true, stopClosed := false, loop := Top, cluster := []);
        if hosts.None? then started
        else started.(hostIPs := hosts.value, hosts := map ip | ip in hosts.value :: [])
    case PauseCall => if !s.isRunning || s.isPaused then s else s.(controller := SendingPause)
    case UnpauseCall => if !s.isRunning || !s.isPaused then s else s.(controller := SendingUnpause)
    case GatherCall => if !s.isRunning then s else s.(stopClosed := true, controller := WaitingForLoop)
    case GatherReturns => s.(isRunning := false, controller := Idle)
    case TestPaused => s.(loop := if s.isPaused then PausedSelect else PollSelect)
    case PauseReceived => s.(loop := GotPause, controller := Idle)
    case SetPaused => s.(loop := Top, isPaused := true)
    case UnpauseReceived => s.(loop := GotUnpause, controller := Idle)
    case ClearPaused => s.(loop := PollSelect, isPaused := false)
    case StopReceived => s.(loop := Exited)
    case TimerFired => s.(loop := ProbingCluster)
    case ClusterProbed(ok) =>
      if s.hosts == map[] then s.(loop := Top, cluster := s.cluster + [ok])
      else s.(loop := ProbingHosts, cluster := s.cluster + [ok], remaining := s.hostIPs)
    case HostProbed(ip, ok) =>
      s.(hosts := s.hosts[ip := s.hosts[ip] + [ok]], remaining := s.remaining - multiset{ip})
    case HostsProbed => s.(loop := Top)
  }

  /** The state after a sequence of events, or None when one of them was not possible. */
  ghost function Run(s: State, events: seq<Event>): Option<State>
    decreases |events|
  {
    if events == [] then Some(s)
    else if Enabled(s, events[0]) then Run(Next(s, events[0]), events[1..])
    else None
  }

  ghost predicate Control(s: State) {
    && (!s.isRunning ==> s.loop.Exited? && s.controller.Idle?)
    && (s.isRunning && s.loop.Exited? ==> s.stopClosed)
    && (s.isRunning ==> (s.stopClosed <==> s.controller.WaitingForLoop?))
    && (s.loop.PausedSelect? || s.loop.GotUnpause? ==> s.isPaused)
    && (s.loop.PollSelect? || s.loop.GotPause? || s.loop.ProbingCluster? || s.loop.ProbingHosts? ==> !s.isPaused)
    && (s.controller.SendingUnpause? ==> !s.loop.GotPause?)
  }

  ghost predicate HostsKnown(s: State) {
    && (forall ip :: ip in s.hostIPs <==> ip in s.hosts)
    && (s.loop.ProbingHosts? ==> s.remaining <= s.hostIPs)
  }

  ghost predicate Inv(s: State) {
    Control(s) && HostsKnown(s)
  }

  lemma ControlNext(s: State, e: Event)
    requires Control(s) && Enabled(s, e)
    ensures Control(Next(s, e))
  {
  }

  lemma HostStaysKnown(s: State, e: Event, ip: string)
    requires Enabled(s, e) && (ip in s.hostIPs <==> ip in s.hosts)
    ensures ip in Next(s, e).hostIPs <==> ip in Next(s, e).hosts
  {
    match e
    case StartCall(_) =>
    case HostProbed(_, _) =>
    case _ => assert Next(s, e).hosts == s.hosts && Next(s, e).hostIPs == s.hostIPs;
  }

  lemma RemainingStaysBounded(s: State, e: Event)
    requires Enabled(s, e) && (s.loop.ProbingHosts? ==> s.remaining <= s.hostIPs)
    ensures Next(s, e).loop.ProbingHosts? ==> Next(s, e).remaining <= Next(s, e).hostIPs
  {
  }

  lemma HostsKnownNext(s: State, e: Event)
    requires HostsKnown(s) && Enabled(s, e)
    ensures HostsKnown(Next(s, e))
  {
    hide Next, Enabled;
    RemainingStaysBounded(s, e);
    forall ip ensures ip in Next(s, e).hostIPs <==> ip in Next(s, e).hosts {
      HostStaysKnown(s, e, ip);
    }
  }

  lemma InvNext(s: State, e: Event)
    requires Inv(s) && Enabled(s, e)
    ensures Inv(Next(s, e))
  {
    hide Control, HostsKnown, Next, Enabled;
    ControlNext(s, e);
    HostsKnownNext(s, e);
  }

  ghost predicate Reachable(s: State) {
    exists events :: Run(INITIAL, events) == Some(s)
  }

  lemma {:induction false} InvRun(s: State, events: seq<Event>)
    requires Inv(s) && Run(s, events).Some?
    ensures Inv(Run(s, events).value)
    decreases |events|
  {
    if events != [] {
      InvNext(s, events[0]);
      InvRun(Next(s, events[0]), events[1..]);
    }
  }

  lemma ReachableInv(s: State)
    requires Reachable(s)
    ensures Inv(s)
  {
    var events :| Run(INITIAL, events) == Some(s);
    InvRun(INITIAL, events);
  }

  // ----- Pausing -----

  /** A pause has been received and no unpause since; a stopped measurement stays paused. */
  predicate PausedPhase(s: State) {
    s.loop.GotPause? || (s.isPaused && (s.loop.Top? || s.loop.PausedSelect? || s.loop.Exited?))
  }

  /** From the moment a pause is received until an unpause is, no probe is recorded, whatever
      else is called in between: not even by a session that is gathered and started again. */
  lemma {:induction false} NothingRecordedWhilePaused(s: State, events: seq<Event>)
    requires Inv(s) && PausedPhase(s) && Run(s, events).Some?
    requires UnpauseReceived !in events
    ensures forall i :: 0 <= i < |events| ==> !IsProbe(events[i])
    ensures PausedPhase(Run(s, events).value)
    decreases |events|
  {
    if events != [] {
      InvNext(s, events[0]);
      assert forall i :: 0 <= i < |events[1..]| ==> events[1..][i] == events[i + 1];
      NothingRecordedWhilePaused(Next(s, events[0]), events[1..]);
      assert forall i :: 0 < i < |events| ==> events[i] == events[1..][i - 1];
    }
  }

  /** Before the next round, and before any wait for it, the flag is tested again. */
  lemma {:induction false} TestedBeforeEveryRound(s: State, events: seq<Event>)
    requires Inv(s) && (s.loop.ProbingCluster? || s.loop.ProbingHosts? || s.loop.Top?) && Run(s, events).Some?
    requires TestPaused !in events
    ensures TimerFired !in events && PauseReceived !in events && UnpauseReceived !in events
    ensures
      var loop := Run(s, events).value.loop;
      loop.ProbingCluster? || loop.ProbingHosts? || loop.Top?
    decreases |events|
  {
    if events != [] {
      InvNext(s, events[0]);
      assert events == [events[0]] + events[1..];
      TestedBeforeEveryRound(Next(s, events[0]), events[1..]);
    }
  }

  /** A session starts out paused exactly when the measurement was paused when it was last stopped:
      start does not reset the flag. */
  lemma StartInheritsPause(s: State, hosts: Option<multiset<string>>)
    requires Reachable(s) && !s.isRunning
    ensures Enabled(s, StartCall(hosts))
    ensures
      var started := Next(s, StartCall(hosts));
      && (PausedPhase(started) <==> s.isPaused)
      && Next(started, TestPaused).loop == if s.isPaused then PausedSelect else PollSelect
  {
    ReachableInv(s);
  }

  // ----- Gathering -----

  /** Once gather has returned, the results do not change until the next start. */
  lemma {:induction false} FrozenUntilStart(s: State, events: seq<Event>)
    requires Inv(s) && !s.isRunning
    requires Run(s, events).Some?
    requires forall i :: 0 <= i < |events| ==> !events[i].StartCall?
    ensures Run(s, events) == Some(s)
    decreases |events|
  {
    if events != [] {
      assert forall i :: 0 <= i < |events[1..]| ==> events[1..][i] == events[i + 1];
      FrozenUntilStart(Next(s, events[0]), events[1..]);
    }
  }

  /** Every point where the loop can block accepts the closed stop channel. */
  lemma BlockedLoopAcceptsStop(s: State)
    requires Reachable(s) && s.controller.WaitingForLoop?
    requires s.loop.PausedSelect? || s.loop.PollSelect?
    ensures Enabled(s, StopReceived) && Enabled(Next(s, StopReceived), GatherReturns)
  {
    ReachableInv(s);
  }

  /** How many events the loop can still take before it exits, unless its timer fires again. */
  function Work(s: State): nat {
    match s.loop
    case Exited => 0
    case PausedSelect => 1
    case PollSelect => 1
    case Top => 2
    case GotUnpause => 2
    case GotPause => 3
    case ProbingHosts => |s.remaining| + 3
    case ProbingCluster => |s.hostIPs| + 4
  }

  /** The probes of the round in flight. */
  function ClusterDue(s: State): nat {
    if s.loop.ProbingCluster? then 1 else 0
  }

  function HostDue(s: State, ip: string): nat {
    if s.loop.ProbingCluster? then s.hostIPs[ip] else if s.loop.ProbingHosts? then s.remaining[ip] else 0
  }

  function Timers(events: seq<Event>): nat {
    if events == [] then 0 else One(events[0].TimerFired?) + Timers(events[1..])
  }

  function ClusterProbes(events: seq<Event>): nat {
    if events == [] then 0 else One(events[0].ClusterProbed?) + ClusterProbes(events[1..])
  }

  function HostProbes(events: seq<Event>, ip: string): nat {
    if events == [] then 0 else One(events[0].HostProbed? && events[0].ip == ip) + HostProbes(events[1..], ip)
  }

  ghost predicate Waiting(s: State) {
    Inv(s) && s.controller.WaitingForLoop?
  }

  /** A step of the loop while gather waits for it: it brings the loop closer to its end, unless the timer fires. */
  lemma WaitingStep(s: State, e: Event, ip: string)
    requires Waiting(s) && Enabled(s, e) && !e.GatherReturns?
    ensures
      var next := Next(s, e);
      && Waiting(next) && next.hostIPs == s.hostIPs
      && if e.TimerFired? then
           Work(next) == |s.hostIPs| + 4 && ClusterDue(next) == 1 && HostDue(next, ip) == s.hostIPs[ip] && Work(s) == 1
         else
           && Work(next) < Work(s)
           && ClusterDue(next) + One(e.ClusterProbed?) <= ClusterDue(s)
           && HostDue(next, ip) + One(e.HostProbed? && e.ip == ip) <= HostDue(s, ip)
  {
    InvNext(s, e);
    RemainingShrinks(s, e, ip);
  }

  lemma RemainingShrinks(s: State, e: Event, ip: string)
    ensures e.HostProbed? && e.ip in s.remaining ==>
      && |s.remaining - multiset{e.ip}| == |s.remaining| - 1
      && (s.remaining - multiset{e.ip})[ip] + One(e.ip == ip) == s.remaining[ip]
  {
  }

  /** Something other than the timer can happen. */
  ghost predicate Moves(s: State) {
    exists e: Event :: !e.TimerFired? && Enabled(s, e)
  }

  lemma WaitingMoves(s: State)
    requires Waiting(s)
    ensures Moves(s)
  {
    var e := match s.loop
      case Exited => GatherReturns
      case Top => TestPaused
      case PausedSelect => StopReceived
      case PollSelect => StopReceived
      case GotUnpause => ClearPaused
      case GotPause => SetPaused
      case ProbingCluster => ClusterProbed(true)
      case ProbingHosts =>
        if s.remaining == multiset{} then HostsProbed
        else var ip :| ip in s.remaining; HostProbed(ip, true);
    assert Enabled(s, e);
  }

  /**
   Under every schedule, with any order and any results of the probes, gather gets to its end: as
   long as it has not returned something can happen, and the events until then, like the probes
   recorded, are bounded by the number `k` of times that the timer still fires.  The timer is armed when
   the select is entered, so it can fire on a closed stop channel only if the loop is held up
   for a whole poll interval right there; without that, at most the round in flight is recorded.
   */
  lemma {:induction false} WaitingEnds(s: State, events: seq<Event>, ip: string)
    requires Waiting(s) && Run(s, events).Some? && GatherReturns !in events
    ensures
      var k, last := Timers(events), Run(s, events).value;
      && Waiting(last) && Moves(last)
      && |events| + Work(last) <= Work(s) + Mul(k, |s.hostIPs| + 4)
      && ClusterProbes(events) <= ClusterDue(s) + k
      && HostProbes(events, ip) <= HostDue(s, ip) + Mul(k, s.hostIPs[ip])
    decreases |events|
  {
    hide Mul, Work, ClusterDue, HostDue, Waiting, Moves, Next, Enabled, One;
    WaitingMoves(s);
    NoTimers(|s.hostIPs| + 4, s.hostIPs[ip]);
    if events != [] {
      var e := events[0];
      assert e in events && forall i :: 0 <= i < |events[1..]| ==> events[1..][i] == events[i + 1];
      WaitingStep(s, e, ip);
      WaitingEnds(Next(s, e), events[1..], ip);
      OneMoreTimer(Timers(events[1..]), |s.hostIPs| + 4, s.hostIPs[ip]);
      Ones();
    }
  }

  lemma Ones()
    ensures One(true) == 1 && One(false) == 0
  {
  }

  lemma NoTimers(a: nat, b: nat)
    ensures Mul(0, a) == 0 && Mul(0, b) == 0
  {
  }

  lemma OneMoreTimer(k: nat, a: nat, b: nat)
    ensures Mul(1 + k, a) == a + Mul(k, a) && Mul(1 + k, b) == b + Mul(k, b)
  {
  }

  lemma GatherEnds(s: State, events: seq<Event>, ip: string)
    requires Reachable(s) && s.controller.WaitingForLoop?
    requires Run(s, events).Some? && GatherReturns !in events
    ensures
      var k := Timers(events);
      && |events| <= Mul(k + 1, |s.hostIPs| + 4)
      && ClusterProbes(events) <= k + 1
      && HostProbes(events, ip) <= Mul(k + 1, s.hostIPs[ip])
      && Moves(Run(s, events).value)
  {
    ReachableInv(s);
    WaitingEnds(s, events, ip);
    OneMoreTimer(Timers(events), |s.hostIPs| + 4, s.hostIPs[ip]);
    DueBounds(s, ip);
    hide Mul;
  }

  lemma DueBounds(s: State, ip: string)
    requires Inv(s)
    ensures Work(s) <= |s.hostIPs| + 4 && ClusterDue(s) <= 1 && HostDue(s, ip) <= s.hostIPs[ip]
  {
    if s.loop.ProbingHosts? {
      assert s.hostIPs == s.remaining + (s.hostIPs - s.remaining);
    }
  }

  lemma RunFirst(s: State, e: Event, rest: seq<Event>)
    requires Enabled(s, e)
    ensures Run(s, [e] + rest) == Run(Next(s, e), rest)
  {
    assert ([e] + rest)[1..] == rest;
  }

  const POLLING := INITIAL.(isRunning := true, loop := PollSelect)

  lemma PollingIsReachable()
    ensures Run(INITIAL, [StartCall(None)] + ([TestPaused] + [])) == Some(POLLING)
  {
    RunFirst(INITIAL, StartCall(None), [TestPaused] + []);
    RunFirst(POLLING.(loop := Top), TestPaused, []);
  }

  /** The bound is the best there is: if the timer does fire `k` times, `k` rounds are recorded after gather was
      called. */
  lemma {:induction false} GatherCanPollOn(k: nat) returns (s: State, events: seq<Event>)
    ensures Reachable(s) && s.controller.WaitingForLoop? && GatherReturns !in events
    ensures Timers(events) == ClusterProbes(events) == k && Run(s, events).Some?
  {
    s := POLLING.(stopClosed := true, controller := WaitingForLoop);
    var start := [StartCall(None)] + ([TestPaused] + []);
    PollingIsReachable();
    RunSnoc(INITIAL, start, GatherCall);
    assert Run(INITIAL, start + [GatherCall]) == Some(s) && Reachable(s);
    events := PollOn(s, k);
  }

  lemma {:induction false} PollOn(s: State, k: nat) returns (events: seq<Event>)
    requires s.loop.PollSelect? && s.hosts == map[] && !s.isPaused
    ensures Run(s, events).Some? && GatherReturns !in events
    ensures Timers(events) == ClusterProbes(events) == k
    decreases k
  {
    if k == 0 {
      events := [];
    } else {
      var fired := Next(s, TimerFired);
      var probed := Next(fired, ClusterProbed(true));
      var rest := PollOn(Next(probed, TestPaused), k - 1);
      var tested := [TestPaused] + rest;
      var probes := [ClusterProbed(true)] + tested;
      events := [TimerFired] + probes;
      RunFirst(probed, TestPaused, rest);
      RunFirst(fired, ClusterProbed(true), tested);
      RunFirst(s, TimerFired, probes);
      assert events[1..] == probes && probes[1..] == tested && tested[1..] == rest;
      assert Timers(tested) == Timers(rest) && ClusterProbes(tested) == ClusterProbes(rest);
      assert Timers(probes) == Timers(tested) && ClusterProbes(probes) == 1 + ClusterProbes(tested);
    }
  }

  // ----- What a session has recorded -----

  lemma {:induction false} RunSnoc(s: State, events: seq<Event>, e: Event)
    ensures Run(s, events + [e]) ==
      if Run(s, events).Some? && Enabled(Run(s, events).value, e) then Some(Next(Run(s, events).value, e)) else None
    decreases |events|
  {
    hide Next, Enabled;
    if events == [] {
      assert events + [e] == [e] && [e][1..] == [];
    } else {
      assert (events + [e])[1..] == events[1..] + [e];
      if Enabled(s, events[0]) {
        RunSnoc(Next(s, events[0]), events[1..], e);
      }
    }
  }

  function ClusterResult(e: Event): seq<bool> {
    if e.ClusterProbed? then [e.ok] else []
  }

  function HostResult(e: Event, ip: string): seq<bool> {
    if e.HostProbed? && e.ip == ip then [e.ok] else []
  }

  function ClusterResults(events: seq<Event>): seq<bool> {
    if events == [] then []
    else ClusterResults(events[..|events| - 1]) + ClusterResult(events[|events| - 1])
  }

  function HostResults(events: seq<Event>, ip: string): seq<bool> {
    if events == [] then []
    else HostResults(events[..|events| - 1], ip) + HostResult(events[|events| - 1], ip)
  }

  /** What one event adds to the results of a session. */
  lemma ClusterStep(s: State, e: Event)
    requires Enabled(s, e)
    ensures Next(s, e).cluster == if e.StartCall? && !s.isRunning then [] else s.cluster + ClusterResult(e)
  {
  }

  lemma HostStep(s: State, e: Event, ip: string)
    requires Enabled(s, e)
    ensures
      var hosts := Next(s, e).hosts;
      if e.StartCall? && !s.isRunning then e.hosts.Some? && ip in e.hosts.value ==> ip in hosts && hosts[ip] == []
      else ip in s.hosts ==> ip in hosts && hosts[ip] == s.hosts[ip] + HostResult(e, ip)
  {
  }

  /** A start that finds the measurement stopped; one that finds it running is ignored. */
  ghost predicate StartsSession(events: seq<Event>, i: nat) {
    && i < |events| && events[i].StartCall?
    && Run(INITIAL, events[..i]).Some? && !Run(INITIAL, events[..i]).value.isRunning
  }

  /** What has been recorded is exactly what was probed since the last start, whatever happened before and in
      between. */
  lemma {:induction false} SessionResults(events: seq<Event>, i: nat, ip: string)
    requires Run(INITIAL, events).Some? && i < |events| && StartsSession(events, i)
    requires forall j: nat :: i < j ==> !StartsSession(events, j)
    ensures Run(INITIAL, events).value.cluster == ClusterResults(events[i + 1..])
    ensures events[i].hosts.Some? && ip in events[i].hosts.value ==>
      var hosts := Run(INITIAL, events).value.hosts;
      ip in hosts && hosts[ip] == HostResults(events[i + 1..], ip)
    decreases |events|
  {
    hide Enabled, StartsSession, Next, ClusterResult, HostResult;
    var init, last := events[..|events| - 1], events[|events| - 1];
    assert events == init + [last];
    RunSnoc(INITIAL, init, last);
    SessionPrefix(events, init, i);
    ClusterStep(Run(INITIAL, init).value, last);
    HostStep(Run(INITIAL, init).value, last, ip);
    if i == |init| {
      assert events[i + 1..] == [];
    } else {
      SessionResults(init, i, ip);
      var since := events[i + 1..];
      assert |since| == |events| - i - 1 > 0;
      assert since[..|since| - 1] == init[i + 1..];
      assert since[|since| - 1] == last;
      assert !StartsSession(events, |init|);
      NoNewSession(events);
    }
  }

  /** What one event adds to the probes made, and takes from those that the round in flight still has to make. */
  lemma DueStep(s: State, e: Event, ip: string)
    requires Inv(s) && Enabled(s, e) && (e.StartCall? ==> s.isRunning)
    ensures
      var next := Next(s, e);
      && next.hostIPs == s.hostIPs
      && ClusterDue(next) + |ClusterResult(e)| == ClusterDue(s) + (if e.TimerFired? then 1 else 0)
      && HostDue(next, ip) + |HostResult(e, ip)| == HostDue(s, ip) + if e.TimerFired? then s.hostIPs[ip] else 0
  {
    hide Next, Enabled, HostsKnown, Control, ClusterDue, HostDue, ClusterResult, HostResult;
    HostsStay(s, e);
    ClusterDueStep(s, e);
    HostDueStep(s, e, ip);
  }

  lemma HostsStay(s: State, e: Event)
    requires Enabled(s, e) && (e.StartCall? ==> s.isRunning)
    ensures Next(s, e).hostIPs == s.hostIPs
  {
  }

  lemma ClusterDueStep(s: State, e: Event)
    requires Enabled(s, e) && (e.StartCall? ==> s.isRunning)
    ensures ClusterDue(Next(s, e)) + |ClusterResult(e)| == ClusterDue(s) + if e.TimerFired? then 1 else 0
  {
  }

  lemma HostDueStep(s: State, e: Event, ip: string)
    requires HostsKnown(s) && Enabled(s, e) && (e.StartCall? ==> s.isRunning)
    ensures HostDue(Next(s, e), ip) + |HostResult(e, ip)| ==
      HostDue(s, ip) + if e.TimerFired? then s.hostIPs[ip] else 0
  {
    RemainingShrinks(s, e, ip);
    assert s.hosts == map[] ==> ip !in s.hostIPs;
    hide HostsKnown;
  }

  lemma SessionStart(s: State, hosts: Option<multiset<string>>, ip: string)
    requires Enabled(s, StartCall(hosts)) && !s.isRunning
    ensures
      var next := Next(s, StartCall(hosts));
      && ClusterDue(next) == 0 && HostDue(next, ip) == 0
      && next.hostIPs == (if hosts.Some? then hosts.value else s.hostIPs)
  {
  }

  /**
   A round probes the cluster once and every host as often as it is listed, and nothing else is probed: over a session
   there are as many rounds as the timer has fired, and only the round in flight has probes yet to be made.
   */
  lemma {:induction false} RoundsAreComplete(events: seq<Event>, i: nat, ip: string)
    requires Run(INITIAL, events).Some? && i < |events| && StartsSession(events, i)
    requires forall j: nat :: i < j ==> !StartsSession(events, j)
    ensures
      var s, since := Run(INITIAL, events).value, events[i + 1..];
      && s.hostIPs == (if events[i].hosts.Some? then events[i].hosts.value
                       else Run(INITIAL, events[..i]).value.hostIPs)
      && |ClusterResults(since)| + ClusterDue(s) == Timers(since)
      && |HostResults(since, ip)| + HostDue(s, ip) == Mul(Timers(since), s.hostIPs[ip])
    decreases |events|
  {
    hide Run, Enabled, StartsSession, Next, ClusterResult, HostResult, ClusterDue, HostDue, Mul, One, Timers, Inv;
    var init, last := events[..|events| - 1], events[|events| - 1];
    assert events == init + [last];
    RunSnoc(INITIAL, init, last);
    SessionPrefix(events, init, i);
    var s := Run(INITIAL, init).value;
    if i == |init| {
      assert events[i + 1..] == [] && events[..i] == init;
      SessionStart(s, last.hosts, ip);
      NoTimers(0, Run(INITIAL, events).value.hostIPs[ip]);
      NoProbes(ip);
    } else {
      RoundsAreComplete(init, i, ip);
      assert init[..i] == events[..i];
      var since := events[i + 1..];
      assert |since| == |events| - i - 1 > 0;
      assert since[..|since| - 1] == init[i + 1..];
      assert since[|since| - 1] == last;
      assert !StartsSession(events, |init|);
      NoNewSession(events);
      InitialInv();
      InvRun(INITIAL, init);
      DueStep(s, last, ip);
      assert since == init[i + 1..] + [last];
      ProbesSnoc(init[i + 1..], last, s.hostIPs[ip], ip);
    }
  }

  lemma InitialInv()
    ensures Inv(INITIAL)
  {
  }

  lemma NoProbes(ip: string)
    ensures Timers([]) == 0 && ClusterResults([]) == [] && HostResults([], ip) == []
  {
  }

  lemma ProbesSnoc(events: seq<Event>, e: Event, n: nat, ip: string)
    ensures Timers(events + [e]) == Timers(events) + if e.TimerFired? then 1 else 0
    ensures Mul(Timers(events + [e]), n) == Mul(Timers(events), n) + if e.TimerFired? then n else 0
    ensures ClusterResults(events + [e]) == ClusterResults(events) + ClusterResult(e)
    ensures HostResults(events + [e], ip) == HostResults(events, ip) + HostResult(e, ip)
  {
    TimersSnoc(events, e);
    Ones();
    OneMoreTimer(Timers(events), 0, n);
    assert (events + [e])[..|events|] == events;
    hide Timers, Mul, One, ClusterResult, HostResult;
  }

  lemma {:induction false} TimersSnoc(events: seq<Event>, e: Event)
    ensures Timers(events + [e]) == Timers(events) + One(e.TimerFired?)
  {
    hide One;
    if events == [] {
      assert events + [e] == [e] && [e][1..] == [];
    } else {
      assert (events + [e])[1..] == events[1..] + [e];
      TimersSnoc(events[1..], e);
    }
  }

  /** Between two rounds, every host has been probed as often as the cluster, times how often it is listed. */
  lemma HostsKeepUpWithCluster(events: seq<Event>, i: nat, ip: string)
    requires Run(INITIAL, events).Some? && i < |events| && StartsSession(events, i)
    requires forall j: nat :: i < j ==> !StartsSession(events, j)
    requires !Run(INITIAL, events).value.loop.ProbingCluster? && !Run(INITIAL, events).value.loop.ProbingHosts?
    ensures
      var since := events[i + 1..];
      && |ClusterResults(since)| == Timers(since)
      && |HostResults(since, ip)| == Mul(|ClusterResults(since)|, Run(INITIAL, events).value.hostIPs[ip])
  {
    hide Mul, Run, StartsSession;
    RoundsAreComplete(events, i, ip);
  }

  lemma SessionPrefix(events: seq<Event>, init: seq<Event>, i: nat)
    requires StartsSession(events, i) && init == events[..|events| - 1]
    ensures i < |events| && events[i].StartCall?
    ensures i == |init| ==> !Run(INITIAL, init).value.isRunning
    ensures i < |init| ==> StartsSession(init, i)
    ensures forall j: nat :: StartsSession(init, j) ==> StartsSession(events, j)
  {
    forall j: nat | j < |init| ensures init[..j] == events[..j] {
    }
  }

  lemma NoNewSession(events: seq<Event>)
    requires events != [] && !StartsSession(events, |events| - 1)
    ensures Run(INITIAL, events[..|events| - 1]).Some? && events[|events| - 1].StartCall? ==>
      Run(INITIAL, events[..|events| - 1]).value.isRunning
  {
  }

  // ----- Which calls do nothing -----

  /** A start is ignored exactly while the measurement runs, and gather, pause and unpause exactly while it does not,
      or while it already is as they would have it. */
  lemma CallsAreIgnoredExactly(s: State, hosts: Option<multiset<string>>)
    requires Reachable(s) && s.controller.Idle?
    ensures Next(s, StartCall(hosts)) == s <==> s.isRunning
    ensures Next(s, GatherCall) == s <==> !s.isRunning
    ensures Next(s, PauseCall) == s <==> !s.isRunning || s.isPaused
    ensures Next(s, UnpauseCall) == s <==> !s.isRunning || !s.isPaused
  {
    ReachableInv(s);
  }

  // ----- When pause and unpause return -----

  ghost predicate CanHappen(s: State, e: Event) {
    exists events :: Run(s, events).Some? && e in events
  }

  lemma HappensNow(s: State, e: Event)
    requires Enabled(s, e)
    ensures CanHappen(s, e)
  {
    RunFirst(s, e, []);
    assert e in [e] + [];
  }

  lemma HappensLater(s: State, first: Event, e: Event)
    requires Enabled(s, first) && CanHappen(Next(s, first), e)
    ensures CanHappen(s, e)
  {
    var events :| Run(Next(s, first), events).Some? && e in events;
    RunFirst(s, first, events);
    assert e in [first] + events;
  }

  /** An unpause sent to a loop that has received one already, or is no longer paused, is never received: the
      loop goes on polling, but the call does not return and holds the mutex for ever. */
  lemma {:induction false} SecondUnpauseNeverReturns(s: State, events: seq<Event>)
    requires Inv(s) && s.controller.SendingUnpause? && (s.loop.GotUnpause? || !s.isPaused)
    requires Run(s, events).Some?
    ensures
      var s' := Run(s, events).value;
      s'.controller.SendingUnpause? && s'.isRunning && (s'.loop.GotUnpause? || !s'.isPaused)
    ensures UnpauseReceived !in events
    decreases |events|
  {
    if events != [] {
      InvNext(s, events[0]);
      SecondUnpauseNeverReturns(Next(s, events[0]), events[1..]);
      assert events == [events[0]] + events[1..];
    }
  }

  /** Unpausing a paused measurement: the call can return unless the loop has received an earlier unpause and
      not cleared the flag yet. */
  lemma UnpauseReturnsExactly(s: State)
    requires Reachable(s) && s.isRunning && s.isPaused && s.controller.Idle?
    ensures CanHappen(Next(s, UnpauseCall), UnpauseReceived) <==> !s.loop.GotUnpause?
  {
    ReachableInv(s);
    var called := Next(s, UnpauseCall);
    InvNext(s, UnpauseCall);
    if s.loop.GotUnpause? {
      forall events | Run(called, events).Some? ensures UnpauseReceived !in events {
        SecondUnpauseNeverReturns(called, events);
      }
    } else if s.loop.Top? {
      HappensNow(Next(called, TestPaused), UnpauseReceived);
      HappensLater(called, TestPaused, UnpauseReceived);
    } else {
      HappensNow(called, UnpauseReceived);
    }
  }

  /** A loop that has received a pause and will wait for an unpause. */
  predicate BoundToWait(s: State) {
    s.loop.GotPause? || (s.isPaused && (s.loop.Top? || s.loop.PausedSelect?))
  }

  lemma {:induction false} SecondPauseNeverReturns(s: State, events: seq<Event>)
    requires Inv(s) && s.controller.SendingPause? && BoundToWait(s)
    requires Run(s, events).Some?
    ensures Run(s, events).value.controller.SendingPause? && BoundToWait(Run(s, events).value)
    ensures PauseReceived !in events
    decreases |events|
  {
    if events != [] {
      InvNext(s, events[0]);
      SecondPauseNeverReturns(Next(s, events[0]), events[1..]);
      assert events == [events[0]] + events[1..];
    }
  }

  /** Pausing a running measurement: the call can return unless the loop has received an earlier pause and not set
      the flag yet. */
  lemma PauseReturnsExactly(s: State)
    requires Reachable(s) && s.isRunning && !s.isPaused && s.controller.Idle?
    ensures CanHappen(Next(s, PauseCall), PauseReceived) <==> !s.loop.GotPause?
  {
    ReachableInv(s);
    var called := Next(s, PauseCall);
    InvNext(s, PauseCall);
    if s.loop.GotPause? {
      forall events | Run(called, events).Some? ensures PauseReceived !in events {
        SecondPauseNeverReturns(called, events);
      }
    } else {
      PollingAcceptsPause(called);
    }
  }

  lemma {:induction false} PollingAcceptsPause(s: State)
    requires Inv(s) && s.controller.SendingPause? && !s.isPaused
    requires s.loop.Top? || s.loop.PollSelect? || s.loop.ProbingCluster? || s.loop.ProbingHosts?
    ensures CanHappen(s, PauseReceived)
    decreases Work(s)
  {
    if s.loop.PollSelect? {
      HappensNow(s, PauseReceived);
    } else {
      var e := match s.loop
        case ProbingCluster => ClusterProbed(true)
        case ProbingHosts =>
          if s.remaining == multiset{} then HostsProbed
          else var ip :| ip in s.remaining; HostProbed(ip, true)
        case _ => TestPaused;
      InvNext(s, e);
      RemainingShrinks(s, e, "");
      PollingAcceptsPause(Next(s, e));
      HappensLater(s, e, PauseReceived);
    }
  }

  lemma Then(events: seq<Event>, s: State, e: Event)
    requires Run(INITIAL, events) == Some(s) && Enabled(s, e)
    ensures Run(INITIAL, events + [e]) == Some(Next(s, e))
  {
    RunSnoc(INITIAL, events, e);
  }

  /** A pause has been received, and the flag not been set yet. */
  const PAUSING := POLLING.(loop := GotPause)

  lemma PausingIsReachable() returns (events: seq<Event>)
    ensures Run(INITIAL, events) == Some(PAUSING)
  {
    hide Run;
    PollingIsReachable();
    events := [StartCall(None)] + ([TestPaused] + []);
    Then(events, POLLING, PauseCall);
    Then(events + [PauseCall], POLLING.(controller := SendingPause), PauseReceived);
    events := events + [PauseCall] + [PauseReceived];
  }

  /** An unpause has been received, and the flag not been cleared yet. */
  const UNPAUSING := POLLING.(loop := GotUnpause, isPaused := true)

  lemma UnpausingIsReachable() returns (events: seq<Event>)
    ensures Run(INITIAL, events) == Some(UNPAUSING)
  {
    hide Run;
    events := PausingIsReachable();
    var paused := UNPAUSING.(loop := PausedSelect);
    Then(events, PAUSING, SetPaused);
    Then(events + [SetPaused], UNPAUSING.(loop := Top), TestPaused);
    events := events + [SetPaused] + [TestPaused];
    Then(events, paused, UnpauseCall);
    Then(events + [UnpauseCall], paused.(controller := SendingUnpause), UnpauseReceived);
    events := events + [UnpauseCall] + [UnpauseReceived];
  }

  /** Both situations do come up, with calls that follow each other quickly. */
  lemma CallsCanBeLost()
    ensures exists s :: Reachable(s) && s.isRunning && !s.isPaused && s.controller.Idle? && s.loop.GotPause?
    ensures exists s :: Reachable(s) && s.isRunning && s.isPaused && s.controller.Idle? && s.loop.GotUnpause?
  {
    var events := PausingIsReachable();
    assert Reachable(PAUSING);
    var events' := UnpausingIsReachable();
    assert Reachable(UNPAUSING);
  }

  // ----- When everything stops -----

  /** The controller is inside a call and nothing at all can happen any more. */
  ghost predicate Wedged(s: State) {
    !s.controller.Idle? && forall e :: !Enabled(s, e)
  }

  /** A lost unpause leaves the loop polling; a lost pause is the only way for everything to stop. */
  lemma WedgedExactly(s: State)
    requires Reachable(s)
    ensures Wedged(s) <==> s.controller.SendingPause? && s.loop.PausedSelect?
  {
    ReachableInv(s);
    if Wedged(s) {
      WedgedCase(s);
    }
  }

  lemma WedgedCase(s: State)
    requires Inv(s) && Wedged(s)
    ensures s.controller.SendingPause? && s.loop.PausedSelect?
  {
    var possible := match s.loop
      case Exited => GatherReturns
      case Top => TestPaused
      case PausedSelect => if s.controller.SendingUnpause? then UnpauseReceived else StopReceived
      case GotUnpause => ClearPaused
      case PollSelect => TimerFired
      case GotPause => SetPaused
      case ProbingCluster => ClusterProbed(true)
      case ProbingHosts =>
        if s.remaining == multiset{} then HostsProbed
        else var ip :| ip in s.remaining; HostProbed(ip, true);
    assert !Enabled(s, possible);
  }

  /** How many events there still are once a pause is sent to a loop that is bound to wait for an unpause. */
  function StepsToWedge(s: State): nat {
    match s.loop
    case GotPause => 2
    case Top => 1
    case _ => 0
  }

  /** A lost pause stops everything: at most two more events, whichever they are, and then nothing can happen. */
  lemma {:induction false} LostPauseWedges(s: State, events: seq<Event>)
    requires Inv(s) && s.controller.SendingPause? && BoundToWait(s)
    requires Run(s, events).Some?
    ensures |events| <= StepsToWedge(s)
    ensures |events| == StepsToWedge(s) <==> Wedged(Run(s, events).value)
    decreases |events|
  {
    if events != [] {
      InvNext(s, events[0]);
      LostPauseWedges(Next(s, events[0]), events[1..]);
    } else if s.loop.GotPause? {
      assert Enabled(s, SetPaused);
    } else if s.loop.Top? {
      assert Enabled(s, TestPaused);
    }
  }

  lemma PauseTwiceCanWedge()
    ensures exists s :: Reachable(s) && Wedged(s)
  {
    hide Run;
    var events := PausingIsReachable();
    var sending := PAUSING.(controller := SendingPause);
    var wedged := sending.(isPaused := true, loop := PausedSelect);
    Then(events, PAUSING, PauseCall);
    Then(events + [PauseCall], sending, SetPaused);
    Then(events + [PauseCall] + [SetPaused], wedged.(loop := Top), TestPaused);
    assert Reachable(wedged);
    WedgedExactly(wedged);
  }
}
