/**
 The coalescing queue of the SLO monitor (slo-monitor/src/monitors/store.go).

 `WorkQueue` keeps a slice of work items, a map from keys to ever-growing logical
 indices, and an offset that turns a logical index into a slice position.  It is proved
 against two specifications:
 - `Apply`, which treats the queue as a plain sequence of pending items, and
 - `Latest` and `Since`, which read the answer off the whole history of calls.
 */
module NoStoreQueue {
  import opened Wrappers

  datatype Operation = Set | Delete

  datatype WorkItem<Obj> = WorkItem(operation: Operation, key: string, obj: Obj)

  /** What a successful call did: an unconditional enqueue (Add, Update, Delete), an
      AddIfNotPresent, or a Pop that returned the item with the given key. */
  datatype Event<Obj> =
    | Enqueue(key: string, operation: Operation, obj: Obj)
    | Offer(key: string, obj: Obj)
    | Popped(key: string)

  // ----- The plain sequence of pending items -----

  predicate Has<Obj>(pending: seq<WorkItem<Obj>>, key: string) {
    exists i :: 0 <= i < |pending| && pending[i].key == key
  }

  ghost predicate DistinctKeys<Obj>(pending: seq<WorkItem<Obj>>) {
    forall i, j :: 0 <= i < j < |pending| ==> pending[i].key != pending[j].key
  }

  /** Overwrite the item with the same key where it stands, or append. */
  ghost function Upsert<Obj>(pending: seq<WorkItem<Obj>>, item: WorkItem<Obj>): (r: seq<WorkItem<Obj>>) {
    if pending == [] then [item]
    else if pending[0].key == item.key then [item] + pending[1..]
    else [pending[0]] + Upsert(pending[1..], item)
  }

  /** A Pop waits until there is an item, and takes the first one. */
  ghost predicate Enabled<Obj>(pending: seq<WorkItem<Obj>>, event: Event<Obj>) {
    event.Popped? ==> pending != [] && pending[0].key == event.key
  }

  ghost function Apply<Obj>(pending: seq<WorkItem<Obj>>, event: Event<Obj>): (r: seq<WorkItem<Obj>>)
    requires Enabled(pending, event)
  {
    match event
    case Enqueue(key, operation, obj) => Upsert(pending, WorkItem(operation, key, obj))
    case Offer(key, obj) => if Has(pending, key) then pending else pending + [WorkItem(Delete, key, obj)]
    case Popped(_) => pending[1..]
  }

  /** The pending items after a whole history, or None when some Pop was not enabled. */
  ghost function Run<Obj>(log: seq<Event<Obj>>): Option<seq<WorkItem<Obj>>> {
    if log == [] then Some([])
    else
      var before := Run(log[..|log| - 1]);
      var event := log[|log| - 1];
      if before.Some? && Enabled(before.value, event) then Some(Apply(before.value, event)) else None
  }

  lemma {:induction false} UpsertAt<Obj>(pending: seq<WorkItem<Obj>>, i: nat, item: WorkItem<Obj>)
    requires DistinctKeys(pending)
    requires i < |pending| && pending[i].key == item.key
    ensures Upsert(pending, item) == pending[i := item]
  {
    if i > 0 {
      assert pending[0].key != pending[i].key;
      UpsertAt(pending[1..], i - 1, item);
      assert pending == [pending[0]] + pending[1..];
    }
  }

  lemma {:induction false} UpsertNew<Obj>(pending: seq<WorkItem<Obj>>, item: WorkItem<Obj>)
    requires !Has(pending, item.key)
    ensures Upsert(pending, item) == pending + [item]
  {
    if pending != [] {
      assert pending[0].key != item.key;
      assert forall i :: 0 <= i < |pending[1..]| ==> pending[1..][i] == pending[i + 1];
      UpsertNew(pending[1..], item);
      assert pending == [pending[0]] + pending[1..];
    }
  }

  // ----- The same answers read off the history -----

  /** The operation and object that the next Pop of `key` must deliver, if it is pending:
      the last effective enqueue since the last Pop of that key. */
  ghost function Latest<Obj>(log: seq<Event<Obj>>, key: string): Option<(Operation, Obj)> {
    if log == [] then None
    else
      var before := Latest(log[..|log| - 1], key);
      var event := log[|log| - 1];
      if event.key != key then before
      else match event
        case Enqueue(_, operation, obj) => Some((operation, obj))
        case Offer(_, obj) => if before.Some? then before else Some((Delete, obj))
        case Popped(_) => None
  }

  /** Position in the history of the first enqueue of `key` since its last Pop, or -1. */
  ghost function Since<Obj>(log: seq<Event<Obj>>, key: string): (r: int)
    ensures -1 <= r < |log|
  {
    if log == [] then -1
    else
      var before := Since(log[..|log| - 1], key);
      var event := log[|log| - 1];
      if event.key != key then before
      else if event.Popped? then -1
      else if before >= 0 then before
      else |log| - 1
  }

  /** How many enqueues found their key absent. */
  ghost function FreshEnqueues<Obj>(log: seq<Event<Obj>>): nat {
    if log == [] then 0
    else
      var before := log[..|log| - 1];
      var event := log[|log| - 1];
      FreshEnqueues(before) + if !event.Popped? && Latest(before, event.key).None? then 1 else 0
  }

  ghost function Pops<Obj>(log: seq<Event<Obj>>): nat {
    if log == [] then 0
    else Pops(log[..|log| - 1]) + if log[|log| - 1].Popped? then 1 else 0
  }

  /** The pending sequence is exactly what the history says: which keys, which contents, which order. */
  ghost predicate Agrees<Obj>(pending: seq<WorkItem<Obj>>, log: seq<Event<Obj>>) {
    && (forall k :: Has(pending, k) <==> Latest(log, k).Some?)
    && (forall k :: Latest(log, k).Some? <==> Since(log, k) >= 0)
    && (forall i :: 0 <= i < |pending| ==>
          Latest(log, pending[i].key) == Some((pending[i].operation, pending[i].obj)))
    && (forall i, j :: 0 <= i < j < |pending| ==>
          Since(log, pending[i].key) < Since(log, pending[j].key))
  }

  lemma {:induction false} RunAgreesWithHistory<Obj>(log: seq<Event<Obj>>)
    requires Run(log).Some?
    ensures Agrees(Run(log).value, log)
    ensures DistinctKeys(Run(log).value)
  {
    if log != [] {
      var init, event := log[..|log| - 1], log[|log| - 1];
      RunAgreesWithHistory(init);
      AgreesStep(Run(init).value, init, event);
      assert init + [event] == log;
    }
  }

  lemma AgreesStep<Obj>(pending: seq<WorkItem<Obj>>, log: seq<Event<Obj>>, event: Event<Obj>)
    requires Agrees(pending, log) && Enabled(pending, event)
    ensures Agrees(Apply(pending, event), log + [event])
  {
    match event
    case Popped(key) =>
      assert DistinctKeys(pending);
      AgreesPop(pending, log, key);
    case Enqueue(key, operation, obj) =>
      var item := WorkItem(operation, key, obj);
      if i :| 0 <= i < |pending| && pending[i].key == key {
        assert DistinctKeys(pending);
        UpsertAt(pending, i, item);
        AgreesOverwrite(pending, log, i, event, item);
      } else {
        UpsertNew(pending, item);
        AgreesAppend(pending, log, event, item);
      }
    case Offer(key, obj) =>
      if Has(pending, key) {
        AgreesIgnored(pending, log, event);
      } else {
        AgreesAppend(pending, log, event, WorkItem(Delete, key, obj));
      }
  }

  /** One event changes what the history says about its own key only. */
  lemma OtherKeys<Obj>(log: seq<Event<Obj>>, event: Event<Obj>, key: string)
    ensures key != event.key ==>
              Latest(log + [event], key) == Latest(log, key) && Since(log + [event], key) == Since(log, key)
    ensures event.Popped? && key == event.key ==>
              Latest(log + [event], key) == None && Since(log + [event], key) == -1
    ensures !event.Popped? && key == event.key ==>
              Since(log + [event], key) == if Since(log, key) >= 0 then Since(log, key) else |log|
  {
  }

  lemma AgreesPop<Obj>(pending: seq<WorkItem<Obj>>, log: seq<Event<Obj>>, key: string)
    requires Agrees(pending, log) && DistinctKeys(pending) && pending != [] && pending[0].key == key
    ensures Agrees(pending[1..], log + [Popped(key)])
  {
    var after, event := pending[1..], Popped(key);
    HasTail(pending);
    assert forall i :: 0 <= i < |after| ==> after[i] == pending[i + 1] && after[i].key != key;
    forall k
      ensures Latest(log + [event], k) == if k == key then None else Latest(log, k)
      ensures Since(log + [event], k) == if k == key then -1 else Since(log, k)
    {
      OtherKeys(log, event, k);
    }
    hide Has, Latest, Since;
  }

  lemma HasTail<Obj>(pending: seq<WorkItem<Obj>>)
    requires pending != [] && DistinctKeys(pending)
    ensures forall k :: Has(pending[1..], k) <==> Has(pending, k) && k != pending[0].key
  {
    forall k ensures Has(pending[1..], k) <==> Has(pending, k) && k != pending[0].key {
      if i :| 0 <= i < |pending[1..]| && pending[1..][i].key == k {
        assert pending[i + 1].key == k;
      }
      if i :| 0 <= i < |pending| && pending[i].key == k && i > 0 {
        assert pending[1..][i - 1].key == k;
      }
    }
  }

  lemma AgreesOverwrite<Obj>(pending: seq<WorkItem<Obj>>, log: seq<Event<Obj>>, at: nat, event: Event<Obj>,
                             item: WorkItem<Obj>)
    requires Agrees(pending, log) && at < |pending| && pending[at].key == item.key == event.key
    requires event.Enqueue? && item.operation == event.operation && item.obj == event.obj
    ensures Agrees(pending[at := item], log + [event])
  {
    var after, log' := pending[at := item], log + [event];
    HasUpdate(pending, at, item);
    assert Has(pending, item.key);
    forall k ensures Latest(log', k).Some? == Latest(log, k).Some? && Since(log', k) == Since(log, k) {
      OtherKeys(log, event, k);
      LatestOfEnqueue(log, event);
    }
    LatestOfEnqueue(log, event);
    forall i | 0 <= i < |after|
      ensures after[i].key == pending[i].key
      ensures Latest(log', after[i].key) == Some((after[i].operation, after[i].obj))
    {
      if i != at {
        assert i < at ==> Since(log, pending[i].key) < Since(log, pending[at].key);
        assert at < i ==> Since(log, pending[at].key) < Since(log, pending[i].key);
        OtherKeys(log, event, pending[i].key);
      }
    }
    hide Has, Latest, Since;
  }

  lemma LatestOfEnqueue<Obj>(log: seq<Event<Obj>>, event: Event<Obj>)
    requires event.Enqueue?
    ensures Latest(log + [event], event.key) == Some((event.operation, event.obj))
  {
  }

  lemma AgreesIgnored<Obj>(pending: seq<WorkItem<Obj>>, log: seq<Event<Obj>>, event: Event<Obj>)
    requires Agrees(pending, log) && event.Offer? && Has(pending, event.key)
    ensures Agrees(pending, log + [event])
  {
  }

  lemma AgreesAppend<Obj>(pending: seq<WorkItem<Obj>>, log: seq<Event<Obj>>, event: Event<Obj>, item: WorkItem<Obj>)
    requires Agrees(pending, log) && !Has(pending, item.key)
    requires !event.Popped? && event.key == item.key && event.obj == item.obj
    requires item.operation == if event.Enqueue? then event.operation else Delete
    ensures Agrees(pending + [item], log + [event])
  {
    hide Has, Latest, Since;
    var after, log', n := pending + [item], log + [event], |pending|;
    HasAppend(pending, item);
    NewKey(log, event, item);
    forall k
      ensures Latest(log', k) == if k == item.key then Some((item.operation, item.obj)) else Latest(log, k)
      ensures Since(log', k) == if k == item.key then |log| else Since(log, k)
    {
      OtherKeys(log, event, k);
    }
    KeysAreOther(pending, item.key);
    forall i | 0 <= i < n ensures Since(log, pending[i].key) < |log| {
      SinceBound(log, pending[i].key);
    }
  }

  lemma KeysAreOther<Obj>(pending: seq<WorkItem<Obj>>, key: string)
    requires !Has(pending, key)
    ensures forall i :: 0 <= i < |pending| ==> pending[i].key != key
  {
  }

  lemma SinceBound<Obj>(log: seq<Event<Obj>>, key: string)
    ensures Since(log, key) < |log|
  {
  }

  /** The first enqueue of a key that is not pending. */
  lemma NewKey<Obj>(log: seq<Event<Obj>>, event: Event<Obj>, item: WorkItem<Obj>)
    requires Latest(log, item.key).None? && Since(log, item.key) < 0
    requires !event.Popped? && event.key == item.key && event.obj == item.obj
    requires item.operation == if event.Enqueue? then event.operation else Delete
    ensures Latest(log + [event], item.key) == Some((item.operation, item.obj))
    ensures Since(log + [event], item.key) == |log|
  {
    assert (log + [event])[..|log|] == log;
  }

  lemma HasUpdate<Obj>(pending: seq<WorkItem<Obj>>, i: nat, item: WorkItem<Obj>)
    requires i < |pending| && pending[i].key == item.key
    ensures forall k :: Has(pending[i := item], k) <==> Has(pending, k)
  {
    forall k ensures Has(pending[i := item], k) <==> Has(pending, k) {
      assert forall j :: 0 <= j < |pending| ==> pending[i := item][j].key == pending[j].key;
    }
  }

  lemma HasAppend<Obj>(pending: seq<WorkItem<Obj>>, item: WorkItem<Obj>)
    ensures forall k :: Has(pending + [item], k) <==> Has(pending, k) || k == item.key
  {
    var longer := pending + [item];
    forall k ensures Has(longer, k) <==> Has(pending, k) || k == item.key {
      if Has(pending, k) {
        var i :| 0 <= i < |pending| && pending[i].key == k;
        assert longer[i].key == k;
      }
      assert longer[|pending|].key == item.key;
    }
  }

  /** The front of the queue is what the history calls the oldest pending key. */
  lemma HeadIsOldest<Obj>(log: seq<Event<Obj>>)
    requires Run(log).Some? && Run(log).value != []
    ensures
      var head := Run(log).value[0];
      && Latest(log, head.key) == Some((head.operation, head.obj))
      && Since(log, head.key) >= 0
      && forall k :: Latest(log, k).Some? && k != head.key ==> Since(log, head.key) < Since(log, k)
  {
    RunAgreesWithHistory(log);
    var pending := Run(log).value;
    forall k | Latest(log, k).Some? && k != pending[0].key
      ensures Since(log, pending[0].key) < Since(log, k)
    {
      assert Has(pending, k);
    }
  }

  /** Nothing is lost and nothing is invented: what left plus what waits is what came in fresh. */
  lemma {:induction false} Conservation<Obj>(log: seq<Event<Obj>>)
    requires Run(log).Some?
    ensures Pops(log) + |Run(log).value| == FreshEnqueues(log)
  {
    if log != [] {
      var init, event := log[..|log| - 1], log[|log| - 1];
      Conservation(init);
      RunAgreesWithHistory(init);
      var pending := Run(init).value;
      if event.Enqueue? {
        var item := WorkItem(event.operation, event.key, event.obj);
        if i :| 0 <= i < |pending| && pending[i].key == event.key {
          UpsertAt(pending, i, item);
        } else {
          UpsertNew(pending, item);
        }
      }
    }
  }

  /** One event moves an item one place forward if it is a Pop, and leaves it in its place otherwise. */
  lemma PlaceKept<Obj>(pending: seq<WorkItem<Obj>>, event: Event<Obj>, i: nat)
    requires DistinctKeys(pending) && Enabled(pending, event) && i < |pending|
    requires event.Popped? ==> i > 0
    ensures
      var after, i' := Apply(pending, event), if event.Popped? then i - 1 else i;
      i' < |after| && after[i'].key == pending[i].key
  {
    if event.Enqueue? {
      var item := WorkItem(event.operation, event.key, event.obj);
      if j :| 0 <= j < |pending| && pending[j].key == event.key {
        UpsertAt(pending, j, item);
      } else {
        UpsertNew(pending, item);
      }
    }
  }

  /** Coalescing never costs a key its place: whatever calls follow, an item with `i` items
      ahead of it is `i - d` from the front after `d` further Pops, and so is the next to
      leave after `i` of them. */
  lemma {:induction false} NoStarvation<Obj>(log: seq<Event<Obj>>, more: seq<Event<Obj>>, i: nat)
    requires Run(log).Some? && i < |Run(log).value|
    requires Run(log + more).Some? && Pops(more) <= i
    ensures i - Pops(more) < |Run(log + more).value|
    ensures Run(log + more).value[i - Pops(more)].key == Run(log).value[i].key
  {
    hide Apply, Enabled, DistinctKeys;
    if more == [] {
      assert log + more == log;
    } else {
      var init, event := more[..|more| - 1], more[|more| - 1];
      assert (log + more)[..|log + more| - 1] == log + init;
      NoStarvation(log, init, i);
      RunAgreesWithHistory(log + init);
      PlaceKept(Run(log + init).value, event, i - Pops(init));
    }
  }

  // ----- The implementation -----

  /** The queued keys are distinct and the map sends exactly those to offset + their position. */
  ghost predicate Indexed<Obj>(queue: seq<WorkItem<Obj>>, indices: map<string, int>, offset: int) {
    && DistinctKeys(queue)
    && (forall k :: k in indices <==> Has(queue, k))
    && (forall i :: 0 <= i < |queue| ==> (queue[i].key, offset + i) in indices.Items)
  }

  lemma IndexedAt<Obj>(queue: seq<WorkItem<Obj>>, indices: map<string, int>, offset: int, key: string)
    requires Indexed(queue, indices, offset) && key in indices
    ensures 0 <= indices[key] - offset < |queue| && queue[indices[key] - offset].key == key
  {
  }

  lemma IndexedAppend<Obj>(queue: seq<WorkItem<Obj>>, indices: map<string, int>, offset: int, item: WorkItem<Obj>)
    requires Indexed(queue, indices, offset) && item.key !in indices
    ensures Indexed(queue + [item], indices[item.key := offset + |queue|], offset)
  {
    var longer, indices' := queue + [item], indices[item.key := offset + |queue|];
    HasAppend(queue, item);
    forall i | 0 <= i < |longer| ensures (longer[i].key, offset + i) in indices'.Items {
      if i < |queue| {
        assert Has(queue, queue[i].key);
        assert (queue[i].key, offset + i) in indices.Items;
      }
    }
    assert !Has(queue, item.key);
  }

  lemma IndexedOverwrite<Obj>(queue: seq<WorkItem<Obj>>, indices: map<string, int>, offset: int, at: nat,
                              item: WorkItem<Obj>)
    requires Indexed(queue, indices, offset) && at < |queue| && queue[at].key == item.key
    ensures Indexed(queue[at := item], indices, offset)
  {
    HasUpdate(queue, at, item);
    var after := queue[at := item];
    forall i | 0 <= i < |after| ensures (after[i].key, offset + i) in indices.Items {
      assert (queue[i].key, offset + i) in indices.Items;
    }
  }

  lemma IndexedPop<Obj>(queue: seq<WorkItem<Obj>>, indices: map<string, int>, offset: int)
    requires Indexed(queue, indices, offset) && queue != []
    ensures Indexed(queue[1..], indices - {queue[0].key}, offset + 1)
  {
  }

  /** Every queued object still has the key it was queued under. */
  ghost predicate Keyed<Obj>(keyFunc: Obj -> Option<string>, queue: seq<WorkItem<Obj>>) {
    forall i :: 0 <= i < |queue| ==> keyFunc(queue[i].obj) == Some(queue[i].key)
  }

  ghost predicate Consistent<Obj>(
      keyFunc: Obj -> Option<string>, queue: seq<WorkItem<Obj>>, indices: map<string, int>, offset: int)
  {
    Indexed(queue, indices, offset) && Keyed(keyFunc, queue)
  }

  lemma OverwriteInPlace<Obj>(
      keyFunc: Obj -> Option<string>, queue: seq<WorkItem<Obj>>, indices: map<string, int>, offset: int,
      item: WorkItem<Obj>)
    requires Consistent(keyFunc, queue, indices, offset)
    requires item.key in indices && keyFunc(item.obj) == Some(item.key)
    ensures 0 <= indices[item.key] - offset < |queue|
    ensures queue[indices[item.key] - offset].key == item.key
    ensures queue[indices[item.key] - offset := item] == Upsert(queue, item)
    ensures Consistent(keyFunc, queue[indices[item.key] - offset := item], indices, offset)
  {
    IndexedAt(queue, indices, offset, item.key);
    IndexedOverwrite(queue, indices, offset, indices[item.key] - offset, item);
    UpsertAt(queue, indices[item.key] - offset, item);
  }

  lemma {:induction false} AppendNew<Obj>(
      keyFunc: Obj -> Option<string>, queue: seq<WorkItem<Obj>>, indices: map<string, int>, offset: int,
      item: WorkItem<Obj>)
    requires Consistent(keyFunc, queue, indices, offset)
    requires item.key !in indices && keyFunc(item.obj) == Some(item.key)
    ensures !Has(queue, item.key)
    ensures queue + [item] == Upsert(queue, item)
    ensures Consistent(keyFunc, queue + [item], indices[item.key := offset + |queue|], offset)
  {
    IndexedAppend(queue, indices, offset, item);
    UpsertNew(queue, item);
  }

  lemma PopFront<Obj>(keyFunc: Obj -> Option<string>, queue: seq<WorkItem<Obj>>, indices: map<string, int>, offset: int)
    requires Consistent(keyFunc, queue, indices, offset) && queue != []
    ensures keyFunc(queue[0].obj) == Some(queue[0].key)
    ensures Consistent(keyFunc, queue[1..], indices - {queue[0].key}, offset + 1)
  {
    IndexedPop(queue, indices, offset);
  }

  lemma PresentIffIndexed<Obj>(
      keyFunc: Obj -> Option<string>, queue: seq<WorkItem<Obj>>, indices: map<string, int>, offset: int, key: string)
    requires Consistent(keyFunc, queue, indices, offset)
    ensures key in indices <==> Has(queue, key)
  {
  }

  class WorkQueue<Obj> {
    const keyFunc: Obj -> Option<string>
    var queue: seq<WorkItem<Obj>>
    var indices: map<string, int>
    var nextIndex: int
    var offset: int
    ghost var log: seq<Event<Obj>>

    ghost predicate Valid()
      reads this
    {
      && nextIndex == offset + |queue|
      && Consistent(keyFunc, queue, indices, offset)
      && Run(log) == Some(queue)
    }

    constructor (keyFunc: Obj -> Option<string>)
      ensures Valid() && queue == [] && log == [] && this.keyFunc == keyFunc
    {
      this.keyFunc := keyFunc;
      queue, indices := [], map[];
      nextIndex, offset := 0, 0;
      log := [];
    }

    /** Makes `log` longer by one event that turned `old(queue)` into `queue`. */
    ghost method Record(before: seq<WorkItem<Obj>>, event: Event<Obj>)
      requires Run(log) == Some(before) && Enabled(before, event)
      modifies `log
      ensures log == old(log) + [event] && Run(log) == Some(Apply(before, event))
    {
      log := log + [event];
      assert log[..|log| - 1] == old(log);
    }

    method EnqueueOrModifyItemLocked(key: string, obj: Obj, operation: Operation)
      requires Valid() && keyFunc(obj) == Some(key)
      modifies this
      ensures Valid()
      ensures queue == Upsert(old(queue), WorkItem(operation, key, obj))
      ensures log == old(log) + [Enqueue(key, operation, obj)]
      ensures offset == old(offset)
    {
      hide Consistent, Run, Upsert;
      var item := WorkItem(operation, key, obj);
      PresentIffIndexed(keyFunc, queue, indices, offset, key);
      if key in indices {
        OverwriteInPlace(keyFunc, queue, indices, offset, item);
        var i := indices[key] - offset;
        queue := queue[i := queue[i].(operation := operation, obj := obj)];
      } else {
        AppendNew(keyFunc, queue, indices, offset, item);
        indices := indices[key := nextIndex];
        nextIndex := nextIndex + 1;
        queue := queue + [item];
      }
      Record(old(queue), Enqueue(key, operation, obj));
    }

    /** An object without a key is refused and changes nothing. */
    method Add(obj: Obj) returns (r: Result<(), Obj>)
      requires Valid()
      modifies this
      ensures Valid()
      ensures r == if keyFunc(obj).None? then Err(obj) else Ok(())
      ensures r.Err? ==> queue == old(queue) && log == old(log) && offset == old(offset)
      ensures r.Ok? ==> queue == Upsert(old(queue), WorkItem(Set, keyFunc(obj).value, obj))
      ensures r.Ok? ==> log == old(log) + [Enqueue(keyFunc(obj).value, Set, obj)]
    {
      match keyFunc(obj)
      case None => r := Err(obj);
      case Some(key) =>
        EnqueueOrModifyItemLocked(key, obj, Set);
        r := Ok(());
    }

    method Update(obj: Obj) returns (r: Result<(), Obj>)
      requires Valid()
      modifies this
      ensures Valid()
      ensures r == if keyFunc(obj).None? then Err(obj) else Ok(())
      ensures r.Err? ==> queue == old(queue) && log == old(log) && offset == old(offset)
      ensures r.Ok? ==> queue == Upsert(old(queue), WorkItem(Set, keyFunc(obj).value, obj))
      ensures r.Ok? ==> log == old(log) + [Enqueue(keyFunc(obj).value, Set, obj)]
    {
      r := Add(obj);
    }

    /** The source's Delete, which is the name of an operation here. */
    method Remove(obj: Obj) returns (r: Result<(), Obj>)
      requires Valid()
      modifies this
      ensures Valid()
      ensures r == if keyFunc(obj).None? then Err(obj) else Ok(())
      ensures r.Err? ==> queue == old(queue) && log == old(log) && offset == old(offset)
      ensures r.Ok? ==> queue == Upsert(old(queue), WorkItem(Delete, keyFunc(obj).value, obj))
      ensures r.Ok? ==> log == old(log) + [Enqueue(keyFunc(obj).value, Delete, obj)]
    {
      match keyFunc(obj)
      case None => r := Err(obj);
      case Some(key) =>
        EnqueueOrModifyItemLocked(key, obj, Delete);
        r := Ok(());
    }

    /** An absent key is enqueued with the delete operation; a pending one is left alone. */
    method AddIfNotPresent(obj: Obj) returns (r: Result<(), Obj>)
      requires Valid()
      modifies this
      ensures Valid()
      ensures r == if keyFunc(obj).None? then Err(obj) else Ok(())
      ensures r.Err? ==> queue == old(queue) && log == old(log) && offset == old(offset)
      ensures r.Ok? ==> log == old(log) + [Offer(keyFunc(obj).value, obj)]
      ensures r.Ok? && Has(old(queue), keyFunc(obj).value) ==> queue == old(queue)
      ensures r.Ok? && !Has(old(queue), keyFunc(obj).value) ==>
                queue == old(queue) + [WorkItem(Delete, keyFunc(obj).value, obj)]
    {
      hide Consistent, Run, Upsert, Has;
      match keyFunc(obj) {
        case None => r := Err(obj);
        case Some(key) =>
          PresentIffIndexed(keyFunc, queue, indices, offset, key);
          if key !in indices {
            AppendNew(keyFunc, queue, indices, offset, WorkItem(Delete, key, obj));
            indices := indices[key := nextIndex];
            nextIndex := nextIndex + 1;
            queue := queue + [WorkItem(Delete, key, obj)];
          }
          Record(old(queue), Offer(key, obj));
          r := Ok(());
      }
    }

    /** The item returned carries the last effective operation and object of its key since that
        key last left, and no other pending key has been waiting for longer. */
    method Pop() returns (item: WorkItem<Obj>)
      requires Valid() && queue != []
      modifies this
      ensures Valid()
      ensures [item] + queue == old(queue)
      ensures log == old(log) + [Popped(item.key)]
      ensures Latest(old(log), item.key) == Some((item.operation, item.obj))
      ensures forall k :: Latest(old(log), k).Some? && k != item.key ==>
                0 <= Since(old(log), item.key) < Since(old(log), k)
    {
      hide Consistent, Run, Latest, Since;
      PopFront(keyFunc, queue, indices, offset);
      HeadIsOldest(log);
      item := queue[0];
      queue := queue[1..];
      offset := offset + 1;
      match keyFunc(item.obj)
      case None => // the key cannot be recomputed: the source logs and leaves the map alone
      case Some(key) => indices := indices - {key};
      Record(old(queue), Popped(item.key));
    }
  }
}
