/**
 The chaos node killer (clusterloader2/pkg/chaos/nodes.go) and the measurement that starts and stops it
 (clusterloader2/pkg/measurement/common/chaos_monkey_measurement.go).

 A round filters the node list in place, shuffles what is left, and kills a share of it.  The set of
 killed nodes is a Go map, so every killer started by one measurement inserts into the same object.
 */
module NodeKiller {
  import opened Common

  datatype Node = Node(name: string, labels: map<string, string>)

  // ----- Picking nodes -----

  predicate Eligible(node: Node, prometheus: set<string>, killed: set<string>) {
    node.name !in prometheus && node.name !in killed
  }

  ghost function Filtered(nodes: seq<Node>, prometheus: set<string>, killed: set<string>): (r: seq<Node>)
    ensures |r| <= |nodes|
  {
    if nodes == [] then []
    else
      var last := nodes[|nodes| - 1];
      Filtered(nodes[..|nodes| - 1], prometheus, killed) + if Eligible(last, prometheus, killed) then [last] else []
  }

  ghost predicate DistinctNames(nodes: seq<Node>) {
    forall i, j :: 0 <= i < j < |nodes| ==> nodes[i].name != nodes[j].name
  }

  ghost function Names(nodes: seq<Node>): set<string> {
    set i | 0 <= i < |nodes| :: nodes[i].name
  }

  /** How many of `n` eligible nodes a round wants to kill. */
  function Wanted(rate: real, n: nat): int {
    Ceiling(rate * n as real)
  }

  /** `FilterInPlace` below appends to `allNodes[:0]` while ranging over `allNodes`, so both slices share one array:
      what is written never runs ahead of what is read. */
  method FilterInPlace(nodes: array<Node>, prometheus: set<string>, killed: set<string>) returns (n: nat)
    modifies nodes
    ensures n <= nodes.Length
    ensures nodes[..n] == Filtered(old(nodes[..]), prometheus, killed)
    ensures nodes[n..] == old(nodes[n..])
  {
    hide Filtered;
    ghost var all := nodes[..];
    n := 0;
    FilteredNothing(prometheus, killed);
    for i := 0 to nodes.Length
      invariant n <= i
      invariant nodes[..n] == Filtered(all[..i], prometheus, killed)
      invariant forall k :: n <= k < nodes.Length ==> nodes[k] == all[k]
    {
      var node := nodes[i];
      FilteredStep(all, i, prometheus, killed);
      if Eligible(node, prometheus, killed) {
        ghost var kept := nodes[..n];
        nodes[n] := node;
        assert nodes[..n + 1] == kept + [node];
        n := n + 1;
      }
    }
    assert all[..nodes.Length] == all;
  }

  lemma FilteredNothing(prometheus: set<string>, killed: set<string>)
    ensures Filtered([], prometheus, killed) == []
  {
  }

  lemma FilteredStep(nodes: seq<Node>, i: nat, prometheus: set<string>, killed: set<string>)
    requires i < |nodes|
    ensures Filtered(nodes[..i + 1], prometheus, killed) ==
            Filtered(nodes[..i], prometheus, killed) + if Eligible(nodes[i], prometheus, killed) then [nodes[i]] else []
  {
    assert nodes[..i + 1][..i] == nodes[..i];
  }

  function Swapped<T>(s: seq<T>, i: nat, j: nat): seq<T>
    requires i < |s| && j < |s|
  {
    s[i := s[j]][j := s[i]]
  }

  /** The random number `r` as one below `n`. */
  function Below(r: nat, n: nat): (j: nat)
    requires n > 0
    ensures j < n
  {
    r % n
  }

  lemma SmallIsBelow(r: nat, n: nat)
    requires r < n
    ensures Below(r, n) == r
  {
  }

  /** `s` after its elements up to position `i`, from the last one down, have been swapped with an earlier one. */
  function Shuffled<T>(s: seq<T>, i: nat, random: nat -> nat): (r: seq<T>)
    requires i <= |s|
    ensures |r| == |s|
    decreases i
  {
    if i <= 1 then s else Shuffled(Swapped(s, i - 1, Below(random(i - 1), i)), i - 1, random)
  }

  /** What becomes of the first `n` nodes when the random source yields `random(i)` for position `i`. */
  method Shuffle(nodes: array<Node>, n: nat, random: nat -> nat)
    requires n <= nodes.Length
    modifies nodes
    ensures nodes[..n] == Shuffled(old(nodes[..n]), n, random)
    ensures nodes[n..] == old(nodes[n..])
  {
    hide Shuffled, Below;
    var i: int := n - 1;
    while i > 0
      invariant -1 <= i < n
      invariant Shuffled(nodes[..n], i + 1, random) == Shuffled(old(nodes[..n]), n, random)
      invariant nodes[n..] == old(nodes[n..])
    {
      var j := Below(random(i), i + 1);
      ghost var before := nodes[..n];
      ShuffledStep(before, i + 1, random);
      nodes[i], nodes[j] := nodes[j], nodes[i];
      assert nodes[..n] == Swapped(before, i, j);
      i := i - 1;
    }
    ShuffledStep(nodes[..n], i + 1, random);
  }

  lemma ShuffledStep<T>(s: seq<T>, i: nat, random: nat -> nat)
    requires i <= |s|
    ensures Shuffled(s, i, random) ==
            if i <= 1 then s else Shuffled(Swapped(s, i - 1, Below(random(i - 1), i)), i - 1, random)
  {
  }

  lemma {:induction false} ShuffledKeepsMultiset<T>(s: seq<T>, i: nat, random: nat -> nat)
    requires i <= |s|
    ensures multiset(Shuffled(s, i, random)) == multiset(s)
    decreases i
  {
    if i > 1 {
      SwapKeepsMultiset(s, i - 1, Below(random(i - 1), i));
      ShuffledKeepsMultiset(Swapped(s, i - 1, Below(random(i - 1), i)), i - 1, random);
    }
  }

  lemma {:induction false} ShuffledUses<T>(s: seq<T>, i: nat, random: nat -> nat, random': nat -> nat)
    requires i <= |s| && forall k: nat :: k < i ==> random(k) == random'(k)
    ensures Shuffled(s, i, random) == Shuffled(s, i, random')
    decreases i
  {
    if i > 1 {
      ShuffledUses(Swapped(s, i - 1, Below(random(i - 1), i)), i - 1, random, random');
    }
  }

  /** Every order of the nodes is the outcome of some random numbers. */
  lemma {:induction false} EveryOrderIsPossible<T>(s: seq<T>, t: seq<T>, i: nat) returns (random: nat -> nat)
    requires i <= |s| == |t| && s[i..] == t[i..] && multiset(s) == multiset(t)
    ensures Shuffled(s, i, random) == t
    decreases i
  {
    hide Shuffled, Swapped, Below;
    if i <= 1 {
      random := _ => 0;
      OneLeft(s, t, i, random);
    } else {
      var j := Place(s, t, i);
      var s' := Swapped(s, i - 1, j);
      SwapKeepsMultiset(s, i - 1, j);
      var random' := EveryOrderIsPossible(s', t, i - 1);
      random := k => if k == i - 1 then j else random'(k);
      ShuffledUses(s', i - 1, random, random');
      ShuffledFirst(s, i, random);
    }
  }

  lemma ShuffledFirst<T>(s: seq<T>, i: nat, random: nat -> nat)
    requires 1 < i <= |s| && random(i - 1) < i
    ensures |Swapped(s, i - 1, random(i - 1))| == |s|
    ensures Shuffled(s, i, random) == Shuffled(Swapped(s, i - 1, random(i - 1)), i - 1, random)
  {
    SmallIsBelow(random(i - 1), i);
    hide Below;
  }

  /** The element that belongs at position `i - 1` is still among those not placed. */
  lemma Place<T>(s: seq<T>, t: seq<T>, i: nat) returns (j: nat)
    requires 1 < i <= |s| == |t| && s[i..] == t[i..] && multiset(s) == multiset(t)
    ensures j < i && |Swapped(s, i - 1, j)| == |s| && Swapped(s, i - 1, j)[i - 1..] == t[i - 1..]
  {
    MultisetOfPrefix(s, t, i);
    assert t[..i][i - 1] == t[i - 1];
    assert t[i - 1] in multiset(s[..i]);
    j :| j < i && s[..i][j] == t[i - 1];
    var s' := Swapped(s, i - 1, j);
    forall k | i <= k < |s| ensures s'[k] == t[k] {
      assert s[i..][k - i] == t[i..][k - i];
    }
  }

  lemma MultisetOfPrefix<T>(s: seq<T>, t: seq<T>, i: nat)
    requires i <= |s| == |t| && s[i..] == t[i..] && multiset(s) == multiset(t)
    ensures multiset(s[..i]) == multiset(t[..i])
  {
    var a, b, c := s[..i], t[..i], s[i..];
    assert s == a + c && t == b + c;
    forall x ensures multiset(a)[x] == multiset(b)[x] {
      assert multiset(s)[x] == multiset(a)[x] + multiset(c)[x];
      assert multiset(t)[x] == multiset(b)[x] + multiset(c)[x];
    }
  }

  lemma OneLeft<T>(s: seq<T>, t: seq<T>, i: nat, random: nat -> nat)
    requires i <= 1 && i <= |s| == |t| && s[i..] == t[i..] && multiset(s) == multiset(t)
    ensures Shuffled(s, i, random) == t
  {
    MultisetOfPrefix(s, t, i);
    if i == 1 {
      assert s[..1] == [s[0]] && t[..1] == [t[0]];
      assert s[0] in multiset(s[..1]);
      assert s[0] == t[0];
    }
    assert s == s[..i] + s[i..] && t == t[..i] + t[i..];
  }

  lemma SwapKeepsMultiset<T>(s: seq<T>, i: nat, j: nat)
    requires i < |s| && j < |s|
    ensures multiset(Swapped(s, i, j)) == multiset(s)
  {
  }

  lemma {:induction false} FilteredMembers(nodes: seq<Node>, prometheus: set<string>, killed: set<string>, node: Node)
    ensures node in Filtered(nodes, prometheus, killed) <==> node in nodes && Eligible(node, prometheus, killed)
  {
    if nodes != [] {
      FilteredMembers(nodes[..|nodes| - 1], prometheus, killed, node);
      assert nodes == nodes[..|nodes| - 1] + [nodes[|nodes| - 1]];
    }
  }

  lemma {:induction false} FilteredDistinct(nodes: seq<Node>, prometheus: set<string>, killed: set<string>)
    requires DistinctNames(nodes)
    ensures DistinctNames(Filtered(nodes, prometheus, killed))
  {
    if nodes != [] {
      var init := nodes[..|nodes| - 1];
      FilteredDistinct(init, prometheus, killed);
      var rest := Filtered(init, prometheus, killed);
      forall i | 0 <= i < |rest| ensures rest[i].name != nodes[|nodes| - 1].name {
        FilteredMembers(init, prometheus, killed, rest[i]);
        var k :| 0 <= k < |init| && init[k] == rest[i];
        assert nodes[k].name != nodes[|nodes| - 1].name;
      }
    }
  }

  /** Distinctness of names survives any permutation and the cut to a prefix. */
  lemma DistinctPermutation(a: seq<Node>, b: seq<Node>)
    requires DistinctNames(a) && multiset(a) == multiset(b)
    ensures DistinctNames(b)
  {
    forall i, j | 0 <= i < j < |b| ensures b[i].name != b[j].name {
      if b[i] == b[j] {
        assert b == b[..i] + [b[i]] + b[i + 1..j] + [b[j]] + b[j + 1..];
        assert multiset(b)[b[i]] >= 2;
        OccursOnce(a, b[i]);
        assert false;
      }
      assert b[i] in multiset(a) && b[j] in multiset(a);
      var k :| 0 <= k < |a| && a[k] == b[i];
      var l :| 0 <= l < |a| && a[l] == b[j];
    }
  }

  lemma {:induction false} OccursOnce(a: seq<Node>, node: Node)
    requires DistinctNames(a)
    ensures multiset(a)[node] <= 1
  {
    if a != [] {
      var init := a[..|a| - 1];
      assert a == init + [a[|a| - 1]];
      OccursOnce(init, node);
      if node == a[|a| - 1] {
        assert node !in init;
        assert multiset(init)[node] == 0;
      }
    }
  }

  /** `k` of `n`: the least number that is not below the rate, but all of them if that is more. */
  predicate IsShare(k: int, rate: real, n: nat) {
    0 <= k <= n && (k - 1) as real < rate * n as real && (k < n ==> rate * n as real <= k as real)
  }

  /** A legal outcome of one round: the right number of eligible nodes, none of them twice. */
  ghost predicate LegalPick(nodes: seq<Node>, prometheus: set<string>, killed: set<string>, rate: real,
                            picked: seq<Node>) {
    && IsShare(|picked|, rate, |Filtered(nodes, prometheus, killed)|)
    && DistinctNames(picked)
    && forall i :: 0 <= i < |picked| ==> picked[i] in nodes && Eligible(picked[i], prometheus, killed)
  }

  lemma WantedExactly(rate: real, n: nat)
    requires rate >= 0.0
    ensures 0 <= Wanted(rate, n)
    ensures (Wanted(rate, n) - 1) as real < rate * n as real <= Wanted(rate, n) as real
  {
    NotNegativeProduct(rate, n as real);
  }

  lemma NotNegativeProduct(x: real, y: real)
    requires x >= 0.0 && y >= 0.0
    ensures x * y >= 0.0 && (x > 0.0 && y > 0.0 ==> x * y > 0.0) && (x <= 1.0 ==> x * y <= y)
  {
    if x <= 1.0 {
      CancelFactor(1.0 - x, y);
    }
  }

  lemma CancelFactor(x: real, y: real)
    requires x >= 0.0 && y >= 0.0
    ensures x * y >= 0.0
  {
  }

  /** A positive rate takes something, and a rate of one or more everything. */
  lemma ShareBounds(k: int, rate: real, n: nat)
    requires rate > 0.0 && n > 0 && IsShare(k, rate, n)
    ensures k >= 1 && (rate >= 1.0 ==> k == n)
  {
    var x := rate * n as real;
    NotNegativeProduct(rate, n as real);
    if rate >= 1.0 {
      CancelFactor(rate - 1.0, n as real);
      assert x >= n as real;
    }
  }

  /** The eligible nodes, in the order that the random source gives them, cut to the number wanted. */
  ghost function PickedBy(
      nodes: seq<Node>, prometheus: set<string>, killed: set<string>, rate: real, random: nat -> nat): seq<Node>
    requires rate >= 0.0
  {
    var eligible := Filtered(nodes, prometheus, killed);
    var shuffled, n := Shuffled(eligible, |eligible|, random), Wanted(rate, |eligible|);
    WantedExactly(rate, |eligible|);
    if |shuffled| > n then shuffled[..n] else shuffled
  }

  /** What is picked is legal, and every legal pick can happen. */
  lemma LegalPickExactly(
      nodes: seq<Node>, prometheus: set<string>, killed: set<string>, rate: real, picked: seq<Node>)
    requires DistinctNames(nodes) && rate >= 0.0
    ensures LegalPick(nodes, prometheus, killed, rate, picked) <==>
            exists random :: PickedBy(nodes, prometheus, killed, rate, random) == picked
  {
    hide LegalPick, PickedBy;
    if LegalPick(nodes, prometheus, killed, rate, picked) {
      var random := LegalPickCanHappen(nodes, prometheus, killed, rate, picked);
    }
    if random :| PickedBy(nodes, prometheus, killed, rate, random) == picked {
      PickedIsLegal(nodes, prometheus, killed, rate, random);
    }
  }

  lemma PickedIsLegal(nodes: seq<Node>, prometheus: set<string>, killed: set<string>, rate: real, random: nat -> nat)
    requires DistinctNames(nodes) && rate >= 0.0
    ensures LegalPick(nodes, prometheus, killed, rate, PickedBy(nodes, prometheus, killed, rate, random))
  {
    var eligible := Filtered(nodes, prometheus, killed);
    var shuffled := Shuffled(eligible, |eligible|, random);
    ShuffledKeepsMultiset(eligible, |eligible|, random);
    FilteredDistinct(nodes, prometheus, killed);
    DistinctPermutation(eligible, shuffled);
    WantedExactly(rate, |eligible|);
    AllEligible(nodes, prometheus, killed, shuffled);
    hide Filtered, Wanted, Eligible, Shuffled;
    CutIsShare(shuffled, rate);
  }

  lemma LegalPickCanHappen(
      nodes: seq<Node>, prometheus: set<string>, killed: set<string>, rate: real, picked: seq<Node>)
    returns (random: nat -> nat)
    requires DistinctNames(nodes) && rate >= 0.0 && LegalPick(nodes, prometheus, killed, rate, picked)
    ensures PickedBy(nodes, prometheus, killed, rate, random) == picked
  {
    hide Filtered, DistinctNames, Shuffled, Wanted, Eligible;
    var eligible := Filtered(nodes, prometheus, killed);
    PickedAreEligible(nodes, prometheus, killed, picked);
    var order := Completed(eligible, picked);
    assert eligible[|eligible|..] == order[|eligible|..];
    random := EveryOrderIsPossible(eligible, order, |eligible|);
    WantedExactly(rate, |eligible|);
    CutToShare(order, picked, rate);
  }

  /** `picked`, and then what is left of `all`. */
  lemma Completed<T>(all: seq<T>, picked: seq<T>) returns (order: seq<T>)
    requires multiset(picked) <= multiset(all)
    ensures multiset(order) == multiset(all) && |order| == |all|
    ensures |picked| <= |order| && order[..|picked|] == picked
  {
    var others := Listing(multiset(all) - multiset(picked));
    order := picked + others;
    assert multiset(order) == multiset(all);
    assert |multiset(order)| == |multiset(all)|;
  }

  lemma CutIsShare<T>(order: seq<T>, rate: real)
    requires rate >= 0.0
    ensures 0 <= Wanted(rate, |order|)
    ensures IsShare(if |order| > Wanted(rate, |order|) then Wanted(rate, |order|) else |order|, rate, |order|)
  {
    WantedExactly(rate, |order|);
  }

  lemma CutToShare<T>(order: seq<T>, picked: seq<T>, rate: real)
    requires |picked| <= |order| && order[..|picked|] == picked
    requires rate >= 0.0 && IsShare(|picked|, rate, |order|)
    ensures 0 <= Wanted(rate, |order|)
    ensures picked == if |order| > Wanted(rate, |order|) then order[..Wanted(rate, |order|)] else order
  {
    WantedExactly(rate, |order|);
    hide Wanted;
    assert |picked| == |order| ==> order == picked;
  }

  lemma PickedAreEligible(nodes: seq<Node>, prometheus: set<string>, killed: set<string>, picked: seq<Node>)
    requires DistinctNames(picked)
    requires forall i :: 0 <= i < |picked| ==> picked[i] in nodes && Eligible(picked[i], prometheus, killed)
    ensures multiset(picked) <= multiset(Filtered(nodes, prometheus, killed))
  {
    forall node ensures multiset(picked)[node] <= multiset(Filtered(nodes, prometheus, killed))[node] {
      OccursOnce(picked, node);
      FilteredMembers(nodes, prometheus, killed, node);
      if node in picked {
        assert node in Filtered(nodes, prometheus, killed);
      }
    }
  }

  lemma {:induction false} Listing<T>(m: multiset<T>) returns (r: seq<T>)
    ensures multiset(r) == m
    decreases |m|
  {
    if m == multiset{} {
      r := [];
    } else {
      var x :| x in m;
      var rest := Listing(m - multiset{x});
      r := [x] + rest;
    }
  }

  lemma AllEligible(nodes: seq<Node>, prometheus: set<string>, killed: set<string>, shuffled: seq<Node>)
    requires multiset(shuffled) == multiset(Filtered(nodes, prometheus, killed))
    ensures forall i :: 0 <= i < |shuffled| ==> shuffled[i] in nodes && Eligible(shuffled[i], prometheus, killed)
  {
    forall i | 0 <= i < |shuffled| ensures shuffled[i] in nodes && Eligible(shuffled[i], prometheus, killed) {
      assert shuffled[i] in multiset(shuffled);
      FilteredMembers(nodes, prometheus, killed, shuffled[i]);
    }
  }

  // ----- Killing nodes -----

  datatype Action = StopServices | RebootNode

  datatype Event = Event(action: Action, nodeName: string)

  ghost function EventsOf(events: seq<Event>, name: string): seq<Action> {
    if events == [] then []
    else EventsOf(events[..|events| - 1], name) +
         if events[|events| - 1].nodeName == name then [events[|events| - 1].action] else []
  }

  lemma EventsOfAppend(events: seq<Event>, event: Event, name: string)
    ensures EventsOf(events + [event], name) ==
            EventsOf(events, name) + if event.nodeName == name then [event.action] else []
  {
    assert (events + [event])[..|events|] == events;
  }

  /** One goroutine per node: it stops the services, and unless that fails reboots the node later. */
  datatype Worker = Stopping | Sleeping | Finished

  ghost predicate WorkerEvents(worker: Worker, sshOk: bool, actions: seq<Action>) {
    match worker
    case Stopping => actions == []
    case Sleeping => actions == [StopServices] && sshOk
    case Finished => actions == Recorded(sshOk)
  }

  /** What a finished goroutine has recorded: the reboot only if stopping the services worked. */
  function Recorded(sshOk: bool): seq<Action> {
    if sshOk then [StopServices, RebootNode] else [StopServices]
  }

  function Remaining(workers: seq<Worker>): nat {
    if workers == [] then 0
    else
      Remaining(workers[..|workers| - 1]) +
      match workers[|workers| - 1] case Stopping => 2 case Sleeping => 1 case Finished => 0
  }

  lemma {:induction false} RemainingShrinks(workers: seq<Worker>, t: nat, worker: Worker)
    requires t < |workers| && workers[t] != Finished && worker != Stopping
    requires workers[t] == Sleeping ==> worker == Finished
    ensures Remaining(workers[t := worker]) < Remaining(workers)
  {
    var n := |workers| - 1;
    if t < n {
      RemainingShrinks(workers[..n], t, worker);
      assert workers[t := worker][..n] == workers[..n][t := worker];
    } else {
      assert workers[t := worker][..n] == workers[..n];
    }
  }

  /** What is recorded for a node is at most a stop and then a reboot. */
  ghost predicate StopThenReboot(actions: seq<Action>) {
    actions <= [StopServices, RebootNode]
  }

  lemma RecordedIsPrefix()
    ensures forall sshOk :: StopThenReboot(Recorded(sshOk))
  {
  }

  /** A Go map used as a set: handed around by reference. */
  class StringSet {
    var names: set<string>

    constructor ()
      ensures names == {}
    {
      names := {};
    }
  }

  class Killer {
    const failureRate: real
    const killedNodes: StringSet
    var events: seq<Event>

    constructor (failureRate: real, killedNodes: StringSet)
      ensures this.failureRate == failureRate && this.killedNodes == killedNodes && events == []
    {
      this.failureRate, this.killedNodes := failureRate, killedNodes;
      events := [];
    }

    method PickNodes(allNodes: array<Node>, prometheus: set<string>, random: nat -> nat) returns (nodes: seq<Node>)
      requires failureRate >= 0.0
      requires DistinctNames(allNodes[..])
      modifies allNodes
      ensures LegalPick(old(allNodes[..]), prometheus, killedNodes.names, failureRate, nodes)
      ensures nodes == PickedBy(old(allNodes[..]), prometheus, killedNodes.names, failureRate, random)
    {
      hide Filtered, LegalPick, DistinctNames, Wanted, Shuffled;
      ghost var all := allNodes[..];
      var n := FilterInPlace(allNodes, prometheus, killedNodes.names);
      Shuffle(allNodes, n, random);
      nodes := allNodes[..n];
      PickedIsLegal(all, prometheus, killedNodes.names, failureRate, random);
      WantedExactly(failureRate, n);
      var numNodes := Wanted(failureRate, n);
      if |nodes| > numNodes {
        nodes := nodes[..numNodes];
      }
    }

    /** Returns once every goroutine has finished, in whatever order they run. `sshOk` says on which nodes the
        services can be stopped. */
    method Kill(nodes: seq<Node>, sshOk: string -> bool)
      requires DistinctNames(nodes)
      requires forall i :: 0 <= i < |nodes| ==> EventsOf(events, nodes[i].name) == []
      modifies this, killedNodes
      ensures killedNodes.names == old(killedNodes.names) + Names(nodes)
      ensures forall i :: 0 <= i < |nodes| ==> EventsOf(events, nodes[i].name) == Recorded(sshOk(nodes[i].name))
      ensures forall name :: name !in Names(nodes) ==> EventsOf(events, name) == EventsOf(old(events), name)
    {
      var workers: seq<Worker> := [];
      for i := 0 to |nodes|
        invariant killedNodes.names == old(killedNodes.names) + Names(nodes[..i])
        invariant |workers| == i && forall k :: 0 <= k < i ==> workers[k] == Stopping
        invariant unchanged(this)
      {
        killedNodes.names := killedNodes.names + {nodes[i].name};
        workers := workers + [Stopping];
        assert Names(nodes[..i + 1]) == Names(nodes[..i]) + {nodes[i].name};
      }
      assert nodes[..|nodes|] == nodes;
      RunWorkers(nodes, workers, sshOk);
    }

    /** Any goroutine that has not finished may run next. */
    method RunWorkers(nodes: seq<Node>, start: seq<Worker>, sshOk: string -> bool)
      requires DistinctNames(nodes) && AllWorkers(nodes, start, sshOk, events)
      modifies `events
      ensures forall i :: 0 <= i < |nodes| ==> EventsOf(events, nodes[i].name) == Recorded(sshOk(nodes[i].name))
      ensures forall name :: name !in Names(nodes) ==> EventsOf(events, name) == EventsOf(old(events), name)
    {
      var workers := start;
      while exists t :: 0 <= t < |nodes| && workers[t] != Finished
        invariant AllWorkers(nodes, workers, sshOk, events)
        invariant forall name :: name !in Names(nodes) ==> EventsOf(events, name) == EventsOf(old(events), name)
        decreases Remaining(workers)
      {
        var t :| 0 <= t < |nodes| && workers[t] != Finished;
        var action := if workers[t] == Stopping then StopServices else RebootNode;
        var next := if action == StopServices && sshOk(nodes[t].name) then Sleeping else Finished;
        WorkerStep(nodes, workers, sshOk, events, t);
        RemainingShrinks(workers, t, next);
        events := events + [Event(action, nodes[t].name)];
        workers := workers[t := next];
      }
    }
  }

  ghost predicate AllWorkers(nodes: seq<Node>, workers: seq<Worker>, sshOk: string -> bool, events: seq<Event>) {
    && |workers| == |nodes|
    && forall k :: 0 <= k < |nodes| ==>
         WorkerEvents(workers[k], sshOk(nodes[k].name), EventsOf(events, nodes[k].name))
  }

  lemma WorkerStep(nodes: seq<Node>, workers: seq<Worker>, sshOk: string -> bool, events: seq<Event>, t: nat)
    requires DistinctNames(nodes) && AllWorkers(nodes, workers, sshOk, events) && t < |nodes| && workers[t] != Finished
    ensures
      var action := if workers[t] == Stopping then StopServices else RebootNode;
      var next := if action == StopServices && sshOk(nodes[t].name) then Sleeping else Finished;
      var events' := events + [Event(action, nodes[t].name)];
      && AllWorkers(nodes, workers[t := next], sshOk, events')
      && forall name :: name !in Names(nodes) ==> EventsOf(events', name) == EventsOf(events, name)
  {
    var action := if workers[t] == Stopping then StopServices else RebootNode;
    var event := Event(action, nodes[t].name);
    assert nodes[t].name in Names(nodes);
    hide EventsOf, Names;
    forall name
      ensures EventsOf(events + [event], name) ==
              EventsOf(events, name) + if nodes[t].name == name then [action] else []
    {
      EventsOfAppend(events, event, name);
    }
  }

  // ----- Any number of rounds and of start/stop cycles -----

  datatype Round = Round(nodes: seq<Node>, prometheus: set<string>, rate: real, picked: seq<Node>)

  ghost function Kills(rounds: seq<Round>): seq<Node> {
    if rounds == [] then [] else Kills(rounds[..|rounds| - 1]) + rounds[|rounds| - 1].picked
  }

  ghost predicate LegalHistory(rounds: seq<Round>) {
    if rounds == [] then true
    else
      var before, round := rounds[..|rounds| - 1], rounds[|rounds| - 1];
      && LegalHistory(before)
      && LegalPick(round.nodes, round.prometheus, Names(Kills(before)), round.rate, round.picked)
  }

  /** No node is ever killed twice, over all rounds of all cycles. */
  lemma {:induction false} NoNodeKilledTwice(rounds: seq<Round>)
    requires LegalHistory(rounds)
    ensures DistinctNames(Kills(rounds))
  {
    if rounds != [] {
      var before, round := rounds[..|rounds| - 1], rounds[|rounds| - 1];
      NoNodeKilledTwice(before);
      var kills := Kills(before);
      forall i, j | 0 <= i < |kills| && 0 <= j < |round.picked| ensures kills[i].name != round.picked[j].name {
        assert kills[i].name in Names(kills);
      }
    }
  }

  lemma {:induction false} FilteredSize(nodes: seq<Node>, prometheus: set<string>, killed: set<string>)
    requires DistinctNames(nodes)
    ensures |Filtered(nodes, prometheus, killed)| == |Names(nodes) - prometheus - killed|
  {
    hide DistinctNames, Names;
    if nodes == [] {
      NamesOfNone();
    } else {
      var init, last := nodes[..|nodes| - 1], nodes[|nodes| - 1];
      NamesLast(nodes);
      FilteredSize(init, prometheus, killed);
      var pool := Names(init) - prometheus - killed;
      if Eligible(last, prometheus, killed) {
        assert Names(nodes) - prometheus - killed == pool + {last.name};
      } else {
        assert Names(nodes) - prometheus - killed == pool;
      }
    }
  }

  lemma NamesOfNone()
    ensures Names([]) == {}
  {
  }

  lemma NamesLast(nodes: seq<Node>)
    requires DistinctNames(nodes) && nodes != []
    ensures DistinctNames(nodes[..|nodes| - 1])
    ensures Names(nodes) == Names(nodes[..|nodes| - 1]) + {nodes[|nodes| - 1].name}
    ensures nodes[|nodes| - 1].name !in Names(nodes[..|nodes| - 1])
  {
  }

  lemma {:induction false} NamesSize(nodes: seq<Node>)
    requires DistinctNames(nodes)
    ensures |Names(nodes)| == |nodes|
  {
    if nodes == [] {
      assert Names(nodes) == {};
    } else {
      NamesSize(nodes[..|nodes| - 1]);
      NamesLast(nodes);
    }
  }

  lemma PickedFromPool(nodes: seq<Node>, prometheus: set<string>, killed: set<string>, rate: real, picked: seq<Node>)
    requires LegalPick(nodes, prometheus, killed, rate, picked)
    ensures Names(picked) <= Names(nodes) - prometheus - killed
  {
    forall name | name in Names(picked) ensures name in Names(nodes) - prometheus - killed {
      var i :| 0 <= i < |picked| && picked[i].name == name;
      assert picked[i] in nodes && Eligible(picked[i], prometheus, killed);
    }
  }

  /** Each round takes exactly its picks out of the pool of eligible nodes. */
  lemma PoolShrinksByPicks(nodes: seq<Node>, prometheus: set<string>, killed: set<string>, rate: real,
                           picked: seq<Node>)
    requires DistinctNames(nodes) && LegalPick(nodes, prometheus, killed, rate, picked)
    ensures |Filtered(nodes, prometheus, killed + Names(picked))| == |Filtered(nodes, prometheus, killed)| - |picked|
  {
    PickedFromPool(nodes, prometheus, killed, rate, picked);
    PickIsFresh(nodes, prometheus, killed, rate, picked);
    NamesSize(picked);
    hide LegalPick, Filtered, Names, DistinctNames;
    FilteredSize(nodes, prometheus, killed);
    FilteredSize(nodes, prometheus, killed + Names(picked));
    var pool := Names(nodes) - prometheus - killed;
    SubsetSize(pool, Names(picked));
    assert Names(nodes) - prometheus - (killed + Names(picked)) == pool - Names(picked);
  }

  /** With a positive rate and a fixed cluster, every eligible node is killed within as many
      rounds as there were eligible nodes. */
  lemma {:induction false} PoolRunsDry(rounds: seq<Round>, nodes: seq<Node>, prometheus: set<string>, rate: real)
    requires LegalHistory(rounds) && DistinctNames(nodes) && rate > 0.0
    requires forall i :: 0 <= i < |rounds| ==>
               rounds[i].nodes == nodes && rounds[i].prometheus == prometheus && rounds[i].rate == rate
    ensures
      var pool := |Filtered(nodes, prometheus, {})|;
      var left := |Filtered(nodes, prometheus, Names(Kills(rounds)))|;
      left + |Kills(rounds)| == pool && left <= if |rounds| < pool then pool - |rounds| else 0
  {
    if rounds == [] {
      assert Names(Kills(rounds)) == {};
    } else {
      var before, round := rounds[..|rounds| - 1], rounds[|rounds| - 1];
      PoolRunsDry(before, nodes, prometheus, rate);
      var killed := Names(Kills(before));
      PoolShrinksByPicks(nodes, prometheus, killed, rate, round.picked);
      assert Names(Kills(rounds)) == killed + Names(round.picked) by {
        NamesConcat(Kills(before), round.picked);
      }
      if |Filtered(nodes, prometheus, killed)| > 0 {
        ShareBounds(|round.picked|, rate, |Filtered(nodes, prometheus, killed)|);
      }
    }
  }

  lemma NamesConcat(a: seq<Node>, b: seq<Node>)
    ensures Names(a + b) == Names(a) + Names(b)
  {
    forall name | name in Names(b) ensures name in Names(a + b) {
      var i :| 0 <= i < |b| && b[i].name == name;
      assert (a + b)[|a| + i].name == name;
    }
    forall name | name in Names(a) ensures name in Names(a + b) {
      var i :| 0 <= i < |a| && a[i].name == name;
      assert (a + b)[i].name == name;
    }
  }

  lemma HistoryStep(rounds: seq<Round>, round: Round)
    requires LegalHistory(rounds)
    requires LegalPick(round.nodes, round.prometheus, Names(Kills(rounds)), round.rate, round.picked)
    ensures LegalHistory(rounds + [round])
    ensures Names(Kills(rounds + [round])) == Names(Kills(rounds)) + Names(round.picked)
  {
    hide LegalPick, Names;
    assert (rounds + [round])[..|rounds|] == rounds;
    NamesConcat(Kills(rounds), round.picked);
  }

  class ChaosMonkeyMeasurement {
    var killer: Killer?
    var killedNodes: StringSet
    ghost var rounds: seq<Round>
    ghost var recorded: seq<Event>  // by the killers of earlier cycles

    ghost predicate Valid()
      reads this, killer, killedNodes
    {
      && LegalHistory(rounds)
      && killedNodes.names == Names(Kills(rounds))
      && (killer != null ==> killer.killedNodes == killedNodes && killer.failureRate >= 0.0)
      && EventsFit(AllEvents(), killedNodes.names)
    }

    /** Everything recorded since the measurement was created. */
    ghost function AllEvents(): seq<Event>
      reads this, killer
    {
      recorded + if killer == null then [] else killer.events
    }

    constructor ()
      ensures Valid() && killer == null && rounds == [] && fresh(killedNodes)
    {
      killer := null;
      killedNodes := new StringSet();
      rounds, recorded := [], [];
    }

    method Start(failureRate: real)
      requires Valid() && failureRate >= 0.0
      modifies this
      ensures Valid() && killer != null && fresh(killer) && killer.failureRate == failureRate
      ensures killedNodes == old(killedNodes) && rounds == old(rounds) && AllEvents() == old(AllEvents())
    {
      recorded := AllEvents();
      killer := new Killer(failureRate, killedNodes);
      assert recorded + killer.events == recorded;
    }

    method Stop()
      requires Valid() && killer != null
      modifies this
      ensures Valid() && killer == old(killer)
      ensures killedNodes == old(killedNodes) && rounds == old(rounds) && AllEvents() == old(AllEvents())
    {
      killedNodes := killer.killedNodes;
    }

    /** One tick of the running killer. */
    method RunRound(allNodes: array<Node>, prometheus: set<string>, random: nat -> nat, sshOk: string -> bool)
      requires Valid() && killer != null
      requires DistinctNames(allNodes[..])
      modifies this, killer, killedNodes, allNodes
      ensures Valid() && killer == old(killer) && killedNodes == old(killedNodes)
      ensures |rounds| == |old(rounds)| + 1 && rounds[..|rounds| - 1] == old(rounds)
      ensures
        var round := rounds[|rounds| - 1];
        && round.nodes == old(allNodes[..]) && round.prometheus == prometheus && round.rate == killer.failureRate
        && killedNodes.names == old(killedNodes.names) + Names(round.picked)
    {
      hide LegalPick, PickedBy, EventsFit, EventsOf, StopThenReboot, DistinctNames, Recorded, LegalHistory, Kills,
        Names;
      var picked := killer.PickNodes(allNodes, prometheus, random);
      PickIsFresh(old(allNodes[..]), prometheus, killedNodes.names, killer.failureRate, picked);
      ghost var earlier, before, killed := recorded, killer.events, killedNodes.names;
      PickedHaveNoEvents(earlier, before, killed, picked);
      killer.Kill(picked, sshOk);
      RecordedIsPrefix();
      EventsAfterKill(earlier, before, killer.events, killed, picked);
      ghost var round := Round(old(allNodes[..]), prometheus, killer.failureRate, picked);
      HistoryStep(rounds, round);
      rounds := rounds + [round];
    }
  }

  /** Nothing is recorded for a node that is not in the killed set, and at most a stop and a reboot for any other. */
  ghost predicate EventsFit(events: seq<Event>, killed: set<string>) {
    && (forall name :: name !in killed ==> EventsOf(events, name) == [])
    && (forall name :: StopThenReboot(EventsOf(events, name)))
  }

  lemma PickIsFresh(nodes: seq<Node>, prometheus: set<string>, killed: set<string>, rate: real, picked: seq<Node>)
    requires LegalPick(nodes, prometheus, killed, rate, picked)
    ensures DistinctNames(picked)
    ensures forall i :: 0 <= i < |picked| ==> picked[i].name !in killed && picked[i].name !in prometheus
  {
  }

  lemma PickedHaveNoEvents(earlier: seq<Event>, events: seq<Event>, killed: set<string>, picked: seq<Node>)
    requires EventsFit(earlier + events, killed)
    requires forall i :: 0 <= i < |picked| ==> picked[i].name !in killed
    ensures forall i :: 0 <= i < |picked| ==>
      EventsOf(events, picked[i].name) == [] && EventsOf(earlier, picked[i].name) == []
  {
    forall i | 0 <= i < |picked|
      ensures EventsOf(events, picked[i].name) == [] && EventsOf(earlier, picked[i].name) == []
    {
      EventsOfConcat(earlier, events, picked[i].name);
    }
  }

  lemma EventsAfterKill(earlier: seq<Event>, before: seq<Event>, after: seq<Event>, killed: set<string>,
                        picked: seq<Node>)
    requires EventsFit(earlier + before, killed)
    requires forall i :: 0 <= i < |picked| ==> picked[i].name !in killed
    requires forall i :: 0 <= i < |picked| ==> StopThenReboot(EventsOf(after, picked[i].name))
    requires forall name :: name !in Names(picked) ==> EventsOf(after, name) == EventsOf(before, name)
    ensures EventsFit(earlier + after, killed + Names(picked))
  {
    PickedHaveNoEvents(earlier, before, killed, picked);
    forall name
      ensures name !in killed + Names(picked) ==> EventsOf(earlier + after, name) == []
      ensures StopThenReboot(EventsOf(earlier + after, name))
    {
      EventsOfConcat(earlier, before, name);
      EventsOfConcat(earlier, after, name);
      if name in Names(picked) {
        var i :| 0 <= i < |picked| && picked[i].name == name;
        assert EventsOf(earlier, name) == [];
      }
    }
  }

  lemma {:induction false} EventsOfConcat(a: seq<Event>, b: seq<Event>, name: string)
    ensures EventsOf(a + b, name) == EventsOf(a, name) + EventsOf(b, name)
  {
    hide EventsOf;
    if b == [] {
      assert a + b == a;
      NoEvents(name);
    } else {
      var init, last := b[..|b| - 1], b[|b| - 1];
      assert a + b == (a + init) + [last] && b == init + [last];
      EventsOfConcat(a, init, name);
      EventsOfAppend(a + init, last, name);
      EventsOfAppend(init, last, name);
    }
  }

  lemma NoEvents(name: string)
    ensures EventsOf([], name) == []
  {
  }
}
