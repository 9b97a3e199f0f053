/**
 The two caches of the template provider (clusterloader2/pkg/config/template_provider.go).

 Any number of callers run `getRaw` or `getRawTemplate`; every access to a lock or a cache is one
 atomic step, and the steps of different callers interleave arbitrarily.  A read lock is refused as soon as
 a writer has announced itself, which is how sync.RWMutex behaves and what makes
 deadlock freedom worth proving.
 */
module TemplateProvider {
  import opened Wrappers

  type Bytes = string

  /** `writer` is the caller that announced itself; it owns the lock once the readers are gone. */
  datatype RWLock = RWLock(readers: set<nat>, writer: Option<nat>)

  const UNLOCKED := RWLock({}, None)

  datatype Pc =
    // getRaw
    | RawRLock | RawLookup | RawRUnlock
    | RawLock | RawWaitReaders | RawRecheck | RawRead | RawStore | RawUnlock
    // getRawTemplate
    | TemplateRLock | TemplateLookup | TemplateRUnlock
    | TemplateLock | TemplateWaitReaders | TemplateRecheck | TemplateParse | TemplateStore | TemplateUnlock
    | Done

  /** One call: its path, whether it wants the parsed template, and its local variables. */
  datatype Call<T> = Call(pc: Pc, path: string, wantsTemplate: bool, bin: Option<Bytes>, template: Option<T>,
                          failed: bool)
  {
    predicate InRaw() {
      || pc.RawRLock? || pc.RawLookup? || pc.RawRUnlock?
      || pc.RawLock? || pc.RawWaitReaders? || pc.RawRecheck? || pc.RawRead? || pc.RawStore? || pc.RawUnlock?
    }

    predicate ReadsBin() { (pc.RawLookup? || pc.RawRUnlock?) }

    predicate OwnsBin() { (pc.RawRecheck? || pc.RawRead? || pc.RawStore? || pc.RawUnlock?) }

    predicate WritesBin() { pc.RawWaitReaders? || OwnsBin() }

    predicate ReadsTemplate() { (pc.TemplateLookup? || pc.TemplateRUnlock?) }

    /** The nested getRaw runs with the template lock held. */
    predicate OwnsTemplate() {
      || (wantsTemplate && InRaw())
      || pc.TemplateRecheck? || pc.TemplateParse? || pc.TemplateStore? || pc.TemplateUnlock?
    }

    predicate WritesTemplate() { pc.TemplateWaitReaders? || OwnsTemplate() }
  }

  datatype State<T> = State(
    binLock: RWLock, binCache: map<string, Bytes>,
    templateLock: RWLock, templateCache: map<string, T>,
    calls: seq<Call<T>>,
    readDone: multiset<string>,   // paths of the successful file reads so far
    parseDone: multiset<string>)  // paths of the successful parses so far

  function Init<T>(): State<T> {
    State(UNLOCKED, map[], UNLOCKED, map[], [], multiset{}, multiset{})
  }

  // ----- Steps -----

  predicate BinBlocks(lock: RWLock, pc: Pc) {
    match pc
    case RawRLock => lock.writer.Some?
    case RawLock => lock.writer.Some?
    case RawWaitReaders => lock.readers != {}
    case _ => false
  }

  predicate TemplateBlocks(lock: RWLock, pc: Pc) {
    match pc
    case TemplateRLock => lock.writer.Some?
    case TemplateLock => lock.writer.Some?
    case TemplateWaitReaders => lock.readers != {}
    case _ => false
  }

  predicate CanStep<T>(s: State<T>, t: nat) {
    && t < |s.calls| && s.calls[t].pc != Done
    && !BinBlocks(s.binLock, s.calls[t].pc) && !TemplateBlocks(s.templateLock, s.calls[t].pc)
  }

  function Cached<V>(cache: map<string, V>, path: string): Option<V> {
    if path in cache then Some(cache[path]) else None
  }

  /** Where a finished getRaw continues. */
  function AfterRaw<T>(c: Call<T>): Pc {
    if !c.wantsTemplate then Done else if c.failed then TemplateUnlock else TemplateParse
  }

  /** The call after its next step, given what the caches hold for its path and what reading the file
      yields, should the step read it. */
  function Advance<T>(
      parse: Bytes -> Option<T>, c: Call<T>, cachedBin: Option<Bytes>, cachedTemplate: Option<T>,
      file: Option<Bytes>): Call<T>
  {
    match c.pc
    case RawRLock => c.(pc := RawLookup)
    case RawLookup => c.(pc := RawRUnlock, bin := cachedBin)
    case RawRUnlock => c.(pc := if c.bin.Some? then AfterRaw(c) else RawLock)
    case RawLock => c.(pc := RawWaitReaders)
    case RawWaitReaders => c.(pc := RawRecheck)
    case RawRecheck => c.(pc := if cachedBin.Some? then RawUnlock else RawRead, bin := cachedBin)
    case RawRead => if file.Some? then c.(pc := RawStore, bin := file) else c.(pc := RawUnlock, failed := true)
    case RawStore => c.(pc := RawUnlock)
    case RawUnlock => c.(pc := AfterRaw(c))
    case TemplateRLock => c.(pc := TemplateLookup)
    case TemplateLookup => c.(pc := TemplateRUnlock, template := cachedTemplate)
    case TemplateRUnlock => c.(pc := if c.template.Some? then Done else TemplateLock)
    case TemplateLock => c.(pc := TemplateWaitReaders)
    case TemplateWaitReaders => c.(pc := TemplateRecheck)
    case TemplateRecheck =>
      c.(pc := if cachedTemplate.Some? then TemplateUnlock else RawRLock, template := cachedTemplate)
    case TemplateParse =>
      var template := if c.bin.Some? then parse(c.bin.value) else None;
      if template.Some? then c.(pc := TemplateStore, template := template) else c.(pc := TemplateUnlock, failed := true)
    case TemplateStore => c.(pc := TemplateUnlock)
    case TemplateUnlock => c.(pc := Done)
    case Done => c
  }

  function BinLockAfter(lock: RWLock, pc: Pc, t: nat): RWLock {
    match pc
    case RawRLock => lock.(readers := lock.readers + {t})
    case RawRUnlock => lock.(readers := lock.readers - {t})
    case RawLock => lock.(writer := Some(t))
    case RawUnlock => lock.(writer := None)
    case _ => lock
  }

  function TemplateLockAfter(lock: RWLock, pc: Pc, t: nat): RWLock {
    match pc
    case TemplateRLock => lock.(readers := lock.readers + {t})
    case TemplateRUnlock => lock.(readers := lock.readers - {t})
    case TemplateLock => lock.(writer := Some(t))
    case TemplateUnlock => lock.(writer := None)
    case _ => lock
  }

  /** One step of call `t`. */
  function Step<T>(parse: Bytes -> Option<T>, s: State<T>, t: nat, file: Option<Bytes>): State<T>
    requires CanStep(s, t)
  {
    var c := s.calls[t];
    var c' := Advance(parse, c, Cached(s.binCache, c.path), Cached(s.templateCache, c.path), file);
    State(
      BinLockAfter(s.binLock, c.pc, t),
      if c.pc.RawStore? && c.bin.Some? then s.binCache[c.path := c.bin.value] else s.binCache,
      TemplateLockAfter(s.templateLock, c.pc, t),
      if c.pc.TemplateStore? && c.template.Some? then s.templateCache[c.path := c.template.value] else s.templateCache,
      s.calls[t := c'],
      if c'.pc.RawStore? then s.readDone + multiset{c.path} else s.readDone,
      if c'.pc.TemplateStore? then s.parseDone + multiset{c.path} else s.parseDone)
  }

  function Start<T>(s: State<T>, path: string, wantsTemplate: bool): State<T> {
    var first := if wantsTemplate then TemplateRLock else RawRLock;
    s.(calls := s.calls + [Call(first, path, wantsTemplate, None, None, false)])
  }

  /** A new call arrives, or an existing one takes a step. */
  datatype Choice = NewCall(path: string, wantsTemplate: bool) | StepOf(t: nat, file: Option<Bytes>)

  /** The state after a whole interleaving, or None when some choice was not possible. */
  ghost function Run<T>(parse: Bytes -> Option<T>, choices: seq<Choice>): Option<State<T>> {
    if choices == [] then Some(Init())
    else
      var before := Run(parse, choices[..|choices| - 1]);
      if before.None? then None
      else Next(parse, before.value, choices[|choices| - 1])
  }

  function Next<T>(parse: Bytes -> Option<T>, s: State<T>, choice: Choice): Option<State<T>> {
    match choice
    case NewCall(path, wantsTemplate) => Some(Start(s, path, wantsTemplate))
    case StepOf(t, file) => if CanStep(s, t) then Some(Step(parse, s, t, file)) else None
  }

  // ----- The invariant -----

  ghost predicate Locks<T>(s: State<T>) {
    && (forall t :: t in s.binLock.readers ==> t < |s.calls|)
    && (forall t :: t in s.templateLock.readers ==> t < |s.calls|)
    && (s.binLock.writer.Some? ==> s.binLock.writer.value < |s.calls|)
    && (s.templateLock.writer.Some? ==> s.templateLock.writer.value < |s.calls|)
    && forall t :: 0 <= t < |s.calls| ==> LockedAs(s, t)
  }

  /** The bytes lock and call `t` agree on what the call holds. */
  ghost predicate HoldsBin<T>(lock: RWLock, c: Call<T>, t: nat) {
    && (t in lock.readers <==> c.ReadsBin())
    && (lock.writer == Some(t) <==> c.WritesBin())
    && (c.OwnsBin() ==> lock.readers == {})
  }

  ghost predicate HoldsTemplate<T>(lock: RWLock, c: Call<T>, t: nat) {
    && (t in lock.readers <==> c.ReadsTemplate())
    && (lock.writer == Some(t) <==> c.WritesTemplate())
    && (c.OwnsTemplate() ==> lock.readers == {})
  }

  ghost predicate LockedAs<T>(s: State<T>, t: nat)
    requires t < |s.calls|
  {
    HoldsBin(s.binLock, s.calls[t], t) && HoldsTemplate(s.templateLock, s.calls[t], t)
  }

  /** What the local variables of a call say about what the caches hold for its path, point by point. */
  ghost predicate Local<T>(parse: Bytes -> Option<T>, c: Call<T>, bin: Option<Bytes>, template: Option<T>) {
    && (c.wantsTemplate && c.InRaw() ==> template.None?)
    && (c.pc.TemplateParse? || c.pc.TemplateStore? ==> template.None? && !c.failed)
    && match c.pc
       case RawRUnlock => !c.failed && (c.bin.Some? ==> c.bin == bin)
       case RawRead => !c.failed && bin.None?
       case RawStore => !c.failed && bin.None? && c.bin.Some?
       case RawUnlock => c.failed || (c.bin.Some? && c.bin == bin)
       case TemplateRUnlock => c.wantsTemplate && !c.failed && (c.template.Some? ==> c.template == template)
       case TemplateParse => c.wantsTemplate && c.bin.Some? && c.bin == bin
       case TemplateStore =>
         c.wantsTemplate && c.bin.Some? && c.bin == bin && c.template.Some? && parse(c.bin.value) == c.template
       case TemplateUnlock => c.wantsTemplate && (c.failed || (c.template.Some? && c.template == template))
       case Done =>
         c.failed || (if c.wantsTemplate then c.template.Some? && c.template == template
           else c.bin.Some? && c.bin == bin)
       case _ => !c.failed && (c.InRaw() || c.wantsTemplate)
  }

  ghost predicate LocalAt<T>(parse: Bytes -> Option<T>, s: State<T>, t: nat)
    requires t < |s.calls|
  {
    var c := s.calls[t];
    Local(parse, c, Cached(s.binCache, c.path), Cached(s.templateCache, c.path))
  }

  /** The path of a file read, or of a parse, whose result has not been stored yet. */
  ghost function PendingRead<T>(s: State<T>): Option<string> {
    if s.binLock.writer.Some? && s.binLock.writer.value < |s.calls| && s.calls[s.binLock.writer.value].pc.RawStore?
    then Some(s.calls[s.binLock.writer.value].path) else None
  }

  ghost function PendingParse<T>(s: State<T>): Option<string> {
    if s.templateLock.writer.Some? && s.templateLock.writer.value < |s.calls|
       && s.calls[s.templateLock.writer.value].pc.TemplateStore?
    then Some(s.calls[s.templateLock.writer.value].path) else None
  }

  /** Every successful read is in the cache, but for one that is about to be stored under a new path. */
  ghost predicate Counted(done: multiset<string>, stored: set<string>, pending: Option<string>) {
    match pending
    case None => done == multiset(stored)
    case Some(path) => path !in stored && done == multiset(stored) + multiset{path}
  }

  ghost predicate Counts<T>(s: State<T>) {
    && Counted(s.readDone, s.binCache.Keys, PendingRead(s))
    && Counted(s.parseDone, s.templateCache.Keys, PendingParse(s))
  }

  ghost predicate Parsed<T>(parse: Bytes -> Option<T>, s: State<T>) {
    forall p :: p in s.templateCache ==> p in s.binCache && parse(s.binCache[p]) == Some(s.templateCache[p])
  }

  ghost predicate Locals<T>(parse: Bytes -> Option<T>, s: State<T>) {
    forall t :: 0 <= t < |s.calls| ==> LocalAt(parse, s, t)
  }

  ghost predicate Inv<T>(parse: Bytes -> Option<T>, s: State<T>) {
    Locks(s) && Locals(parse, s) && Counts(s) && Parsed(parse, s)
  }

  /** A step never changes the path of a call or what it wants, and brings it closer to its end. */
  lemma AdvanceFrame<T>(
      parse: Bytes -> Option<T>, c: Call<T>, cachedBin: Option<Bytes>, cachedTemplate: Option<T>, file: Option<Bytes>)
    requires c.pc != Done && (c.wantsTemplate || c.InRaw())
    ensures
      var c' := Advance(parse, c, cachedBin, cachedTemplate, file);
      && c'.path == c.path && c'.wantsTemplate == c.wantsTemplate
      && Rank(c'.pc) < Rank(c.pc)
  {
  }

  lemma HoldsBinStep<T>(
      parse: Bytes -> Option<T>, lock: RWLock, c: Call<T>, t: nat,
      bin: Option<Bytes>, template: Option<T>, file: Option<Bytes>)
    requires HoldsBin(lock, c, t) && Local(parse, c, bin, template) && !BinBlocks(lock, c.pc)
    ensures HoldsBin(BinLockAfter(lock, c.pc, t), Advance(parse, c, bin, template, file), t)
  {
  }

  lemma HoldsTemplateStep<T>(
      parse: Bytes -> Option<T>, lock: RWLock, c: Call<T>, t: nat,
      bin: Option<Bytes>, template: Option<T>, file: Option<Bytes>)
    requires HoldsTemplate(lock, c, t) && Local(parse, c, bin, template) && !TemplateBlocks(lock, c.pc)
    ensures HoldsTemplate(TemplateLockAfter(lock, c.pc, t), Advance(parse, c, bin, template, file), t)
  {
  }

  /** What a step of call `t` does to a lock leaves what another call holds. */
  lemma HoldsOther<T>(binLock: RWLock, templateLock: RWLock, c: Call<T>, t: nat, d: Call<T>, u: nat)
    requires t != u
    requires HoldsBin(binLock, c, t) && HoldsBin(binLock, d, u) && !BinBlocks(binLock, c.pc)
    requires HoldsTemplate(templateLock, c, t) && HoldsTemplate(templateLock, d, u)
    requires !TemplateBlocks(templateLock, c.pc)
    ensures HoldsBin(BinLockAfter(binLock, c.pc, t), d, u)
    ensures HoldsTemplate(TemplateLockAfter(templateLock, c.pc, t), d, u)
  {
  }

  lemma LocksStep<T>(parse: Bytes -> Option<T>, s: State<T>, t: nat, file: Option<Bytes>)
    requires Locks(s) && Locals(parse, s) && CanStep(s, t)
    ensures Locks(Step(parse, s, t, file))
  {
    var s', c := Step(parse, s, t, file), s.calls[t];
    assert LockedAs(s, t) && LocalAt(parse, s, t);
    hide Advance, Local, HoldsBin, HoldsTemplate;
    HoldsBinStep(parse, s.binLock, c, t, Cached(s.binCache, c.path), Cached(s.templateCache, c.path), file);
    HoldsTemplateStep(parse, s.templateLock, c, t, Cached(s.binCache, c.path), Cached(s.templateCache, c.path), file);
    forall u | 0 <= u < |s'.calls| ensures LockedAs(s', u) {
      assert LockedAs(s, u);
      if u != t {
        HoldsOther(s.binLock, s.templateLock, c, t, s.calls[u], u);
      }
    }
  }

  /** What the caches hold for the path of call `c` after its step. */
  function BinAfter<T>(c: Call<T>, bin: Option<Bytes>): Option<Bytes> {
    if c.pc.RawStore? && c.bin.Some? then c.bin else bin
  }

  function TemplateAfter<T>(c: Call<T>, template: Option<T>): Option<T> {
    if c.pc.TemplateStore? && c.template.Some? then c.template else template
  }

  lemma LocalSelf<T>(
      parse: Bytes -> Option<T>, c: Call<T>, bin: Option<Bytes>, template: Option<T>, file: Option<Bytes>)
    requires Local(parse, c, bin, template) && (template.Some? ==> bin.Some?)
    ensures Local(parse, Advance(parse, c, bin, template, file), BinAfter(c, bin), TemplateAfter(c, template))
  {
  }

  /** A store by call `c` contradicts nothing another call of the same path relies on, because
      both would have to hold the same lock. */
  lemma LocalOther<T>(
      parse: Bytes -> Option<T>, c: Call<T>, d: Call<T>, bin: Option<Bytes>, template: Option<T>)
    requires Local(parse, c, bin, template) && Local(parse, d, bin, template)
    requires !(c.WritesBin() && d.WritesBin()) && !(c.WritesTemplate() && d.WritesTemplate())
    ensures Local(parse, d, BinAfter(c, bin), TemplateAfter(c, template))
  {
  }

  lemma LocalsStep<T>(parse: Bytes -> Option<T>, s: State<T>, t: nat, file: Option<Bytes>)
    requires Locks(s) && Locals(parse, s) && Parsed(parse, s) && CanStep(s, t)
    ensures Locals(parse, Step(parse, s, t, file))
  {
    var s', c := Step(parse, s, t, file), s.calls[t];
    var bin, template := Cached(s.binCache, c.path), Cached(s.templateCache, c.path);
    assert LockedAs(s, t) && LocalAt(parse, s, t);
    AdvanceFrame(parse, c, bin, template, file);
    LocalSelf(parse, c, bin, template, file);
    hide Advance, Local;
    forall u | 0 <= u < |s'.calls| ensures LocalAt(parse, s', u) {
      if u != t {
        assert LockedAs(s, u) && LocalAt(parse, s, u);
        if s.calls[u].path == c.path {
          LocalOther(parse, c, s.calls[u], bin, template);
        }
      }
    }
  }

  lemma PendingReadStep<T>(parse: Bytes -> Option<T>, s: State<T>, t: nat, file: Option<Bytes>)
    requires Locks(s) && CanStep(s, t)
    ensures
      var s' := Step(parse, s, t, file);
      var before, after := s.calls[t].pc, s'.calls[t].pc;
      && PendingRead(s') ==
           (if after.RawStore? then Some(s.calls[t].path) else if before.RawStore? then None else PendingRead(s))
      && (before.RawStore? ==> PendingRead(s) == Some(s.calls[t].path))
      && (after.RawStore? ==> PendingRead(s) == None)
  {
    assert HoldsBin(s.binLock, s.calls[t], t) by { assert LockedAs(s, t); }
    hide TemplateLockAfter, TemplateBlocks, HoldsTemplate, LockedAs, Locks;
  }

  lemma PendingParseStep<T>(parse: Bytes -> Option<T>, s: State<T>, t: nat, file: Option<Bytes>)
    requires Locks(s) && CanStep(s, t)
    ensures
      var s' := Step(parse, s, t, file);
      var before, after := s.calls[t].pc, s'.calls[t].pc;
      && PendingParse(s') ==
           (if after.TemplateStore? then Some(s.calls[t].path)
            else if before.TemplateStore? then None else PendingParse(s))
      && (before.TemplateStore? ==> PendingParse(s) == Some(s.calls[t].path))
      && (after.TemplateStore? ==> PendingParse(s) == None)
  {
    assert HoldsTemplate(s.templateLock, s.calls[t], t) by { assert LockedAs(s, t); }
    hide BinLockAfter, BinBlocks, HoldsBin, LockedAs, Locks;
  }

  /** What is read and stored, and when. */
  lemma BinEffects<T>(parse: Bytes -> Option<T>, s: State<T>, t: nat, file: Option<Bytes>)
    requires CanStep(s, t) && LocalAt(parse, s, t)
    ensures
      var s', c := Step(parse, s, t, file), s.calls[t];
      var after := s'.calls[t].pc;
      && s'.binCache.Keys == (if c.pc.RawStore? then s.binCache.Keys + {c.path} else s.binCache.Keys)
      && s'.readDone == (if after.RawStore? then s.readDone + multiset{c.path} else s.readDone)
      && (after.RawStore? ==> c.path !in s.binCache.Keys && !c.pc.RawStore?)
  {
    hide BinLockAfter, TemplateLockAfter, BinBlocks, TemplateBlocks;
  }

  lemma TemplateEffects<T>(parse: Bytes -> Option<T>, s: State<T>, t: nat, file: Option<Bytes>)
    requires CanStep(s, t) && LocalAt(parse, s, t)
    ensures
      var s', c := Step(parse, s, t, file), s.calls[t];
      var after := s'.calls[t].pc;
      && s'.templateCache.Keys == (if c.pc.TemplateStore? then s.templateCache.Keys + {c.path}
        else s.templateCache.Keys)
      && s'.parseDone == (if after.TemplateStore? then s.parseDone + multiset{c.path} else s.parseDone)
      && (after.TemplateStore? ==> c.path !in s.templateCache.Keys && !c.pc.TemplateStore?)
  {
    hide BinLockAfter, TemplateLockAfter, BinBlocks, TemplateBlocks;
  }

  lemma CountsStep<T>(parse: Bytes -> Option<T>, s: State<T>, t: nat, file: Option<Bytes>)
    requires Locks(s) && Locals(parse, s) && Counts(s) && CanStep(s, t)
    ensures Counts(Step(parse, s, t, file))
  {
    assert LocalAt(parse, s, t);
    hide Step, LocalAt, Locks, Locals, PendingRead, PendingParse, Counted;
    PendingReadStep(parse, s, t, file);
    PendingParseStep(parse, s, t, file);
    BinEffects(parse, s, t, file);
    TemplateEffects(parse, s, t, file);
    CountedStep(s.readDone, s.binCache.Keys, PendingRead(s), s.calls[t].path);
    CountedStep(s.parseDone, s.templateCache.Keys, PendingParse(s), s.calls[t].path);
  }

  lemma CountedStep(done: multiset<string>, stored: set<string>, pending: Option<string>, path: string)
    requires Counted(done, stored, pending)
    ensures pending.None? && path !in stored ==> Counted(done + multiset{path}, stored, Some(path))
    ensures pending == Some(path) ==> Counted(done, stored + {path}, None)
  {
    if pending == Some(path) {
      assert multiset(stored + {path}) == multiset(stored) + multiset{path};
    }
  }

  lemma ParsedStep<T>(parse: Bytes -> Option<T>, s: State<T>, t: nat, file: Option<Bytes>)
    requires Locals(parse, s) && Parsed(parse, s) && CanStep(s, t)
    ensures Parsed(parse, Step(parse, s, t, file))
  {
    assert LocalAt(parse, s, t);
  }

  lemma {:induction false} InvHolds<T>(parse: Bytes -> Option<T>, choices: seq<Choice>)
    requires Run(parse, choices).Some?
    ensures Inv(parse, Run<T>(parse, choices).value)
  {
    if choices != [] {
      var before, choice := choices[..|choices| - 1], choices[|choices| - 1];
      InvHolds<T>(parse, before);
      var s: State<T> := Run(parse, before).value;
      match choice
      case NewCall(path, wantsTemplate) => InvStart(parse, s, path, wantsTemplate);
      case StepOf(t, file) =>
        hide Step, Locks, Locals, Counts, Parsed;
        LocksStep(parse, s, t, file);
        LocalsStep(parse, s, t, file);
        CountsStep(parse, s, t, file);
        ParsedStep(parse, s, t, file);
    }
  }

  lemma InvStart<T>(parse: Bytes -> Option<T>, s: State<T>, path: string, wantsTemplate: bool)
    requires Inv(parse, s)
    ensures Inv(parse, Start(s, path, wantsTemplate))
  {
    hide Counted, Cached, HoldsBin, HoldsTemplate, Local;
    var s' := Start(s, path, wantsTemplate);
    assert PendingRead(s') == PendingRead(s) && PendingParse(s') == PendingParse(s);
    StartLocals(parse, s, path, wantsTemplate);
    forall t | 0 <= t < |s'.calls| ensures LockedAs(s', t) && LocalAt(parse, s', t) {
      if t < |s.calls| {
        assert LockedAs(s, t) && LocalAt(parse, s, t);
      }
    }
  }

  /** A new call holds no lock and has looked nothing up. */
  lemma StartLocals<T>(parse: Bytes -> Option<T>, s: State<T>, path: string, wantsTemplate: bool)
    requires |s.calls| !in s.binLock.readers && |s.calls| !in s.templateLock.readers
    requires s.binLock.writer != Some(|s.calls|) && s.templateLock.writer != Some(|s.calls|)
    ensures
      var s' := Start(s, path, wantsTemplate);
      LockedAs(s', |s.calls|) && LocalAt(parse, s', |s.calls|)
  {
  }

  lemma LocalsHold<T>(parse: Bytes -> Option<T>, choices: seq<Choice>)
    requires Run(parse, choices).Some?
    ensures Locals(parse, Run<T>(parse, choices).value)
  {
    InvHolds<T>(parse, choices);
  }

  // ----- What every interleaving guarantees -----

  /** Each path is successfully read at most once and parsed at most once. */
  lemma ReadAndParsedOnce<T>(parse: Bytes -> Option<T>, choices: seq<Choice>, path: string)
    requires Run<T>(parse, choices).Some?
    ensures Run<T>(parse, choices).value.readDone[path] <= 1
    ensures Run<T>(parse, choices).value.parseDone[path] <= 1
  {
    InvHolds<T>(parse, choices);
  }

  /** All successful callers of one path got the same bytes, and the same template, which is the
      parse of those bytes. */
  lemma CallersAgree<T>(parse: Bytes -> Option<T>, choices: seq<Choice>, t: nat, u: nat)
    requires Run<T>(parse, choices).Some?
    requires t < |Run<T>(parse, choices).value.calls| && u < |Run<T>(parse, choices).value.calls|
    ensures
      var s := Run<T>(parse, choices).value;
      var c, d := s.calls[t], s.calls[u];
      c.pc == d.pc == Done && !c.failed && !d.failed && c.path == d.path ==>
        && (!c.wantsTemplate && !d.wantsTemplate ==> c.bin.Some? && c.bin == d.bin)
        && (c.wantsTemplate && d.wantsTemplate ==> c.template.Some? && c.template == d.template)
        && (!c.wantsTemplate && d.wantsTemplate ==> c.bin.Some? && d.template.Some? && parse(c.bin.value) == d.template)
  {
    InvHolds<T>(parse, choices);
    var s := Run<T>(parse, choices).value;
    assert LocalAt(parse, s, t) && LocalAt(parse, s, u);
  }

  ghost predicate Keeps<V>(before: map<string, V>, after: map<string, V>) {
    forall p :: p in before ==> p in after && after[p] == before[p]
  }

  lemma StepKeepsCaches<T>(parse: Bytes -> Option<T>, s: State<T>, t: nat, file: Option<Bytes>)
    requires Locals(parse, s) && CanStep(s, t)
    ensures Keeps(s.binCache, Step(parse, s, t, file).binCache)
    ensures Keeps(s.templateCache, Step(parse, s, t, file).templateCache)
  {
    assert LocalAt(parse, s, t);
    var c := s.calls[t];
    assert c.pc.RawStore? ==> c.path !in s.binCache;
    assert c.pc.TemplateStore? ==> c.template.Some? && c.path !in s.templateCache;
    hide Advance, BinLockAfter, TemplateLockAfter, BinBlocks, TemplateBlocks, LocalAt, Locals, Local, CanStep;
  }

  ghost predicate KeepsAnswers<T>(before: seq<Call<T>>, after: seq<Call<T>>) {
    |before| <= |after| && forall u :: 0 <= u < |before| && before[u].pc == Done ==> after[u] == before[u]
  }

  lemma StepKeepsAnswers<T>(parse: Bytes -> Option<T>, s: State<T>, t: nat, file: Option<Bytes>)
    requires CanStep(s, t)
    ensures KeepsAnswers(s.calls, Step(parse, s, t, file).calls)
  {
    hide Advance, BinLockAfter, TemplateLockAfter, BinBlocks, TemplateBlocks;
  }

  /** A cached value is never replaced, and a finished call keeps its answer. */
  lemma {:induction false} CachesOnlyGrow<T>(parse: Bytes -> Option<T>, choices: seq<Choice>, more: seq<Choice>)
    requires Run<T>(parse, choices + more).Some?
    ensures Run<T>(parse, choices).Some?
    ensures
      var s, s' := Run<T>(parse, choices).value, Run<T>(parse, choices + more).value;
      Keeps(s.binCache, s'.binCache) && Keeps(s.templateCache, s'.templateCache) && KeepsAnswers(s.calls, s'.calls)
  {
    hide Step, Inv, CanStep, Locals;
    if more == [] {
      assert choices + more == choices;
    } else {
      var init, choice := more[..|more| - 1], more[|more| - 1];
      assert (choices + more)[..|choices + more| - 1] == choices + init;
      CachesOnlyGrow<T>(parse, choices, init);
      if choice.StepOf? {
        LocalsHold<T>(parse, choices + init);
        StepKeepsCaches(parse, Run<T>(parse, choices + init).value, choice.t, choice.file);
        StepKeepsAnswers(parse, Run<T>(parse, choices + init).value, choice.t, choice.file);
      }
    }
  }

  // ----- What the answers are, and when a call fails -----

  ghost predicate Reads<T>(parse: Bytes -> Option<T>, choices: seq<Choice>, i: nat, t: nat, file: Option<Bytes>) {
    && i < |choices| && choices[i] == StepOf(t, file)
    && Run<T>(parse, choices[..i]).Some? && t < |Run<T>(parse, choices[..i]).value.calls|
    && Run<T>(parse, choices[..i]).value.calls[t].pc.RawRead?
  }

  /** Call `t` tried to read its file, and could not. */
  ghost predicate ReadFailed<T>(parse: Bytes -> Option<T>, choices: seq<Choice>, t: nat) {
    exists i: nat :: Reads(parse, choices, i, t, None)
  }

  /** A call for `path` read `bytes` from the file. */
  ghost predicate WasRead<T>(parse: Bytes -> Option<T>, choices: seq<Choice>, path: string, bytes: Bytes) {
    exists i: nat, t: nat ::
      Reads(parse, choices, i, t, Some(bytes)) && Run<T>(parse, choices[..i]).value.calls[t].path == path
  }

  predicate CannotBeParsed<T>(parse: Bytes -> Option<T>, bytes: Option<Bytes>) {
    bytes.Some? && parse(bytes.value).None?
  }

  lemma ReadsSnoc<T>(
      parse: Bytes -> Option<T>, choices: seq<Choice>, choice: Choice, i: nat, t: nat, file: Option<Bytes>)
    requires Run<T>(parse, choices).Some?
    ensures Reads(parse, choices + [choice], i, t, file) <==>
      if i == |choices| then
        choice == StepOf(t, file) && t < |Run<T>(parse, choices).value.calls| &&
        Run<T>(parse, choices).value.calls[t].pc.RawRead?
      else Reads(parse, choices, i, t, file)
  {
    hide Run;
    if i < |choices| {
      assert (choices + [choice])[..i] == choices[..i];
    } else if i == |choices| {
      assert (choices + [choice])[..i] == choices;
    }
  }

  lemma ReadFailedSnoc<T>(parse: Bytes -> Option<T>, choices: seq<Choice>, choice: Choice, t: nat)
    requires Run<T>(parse, choices).Some?
    ensures ReadFailed(parse, choices + [choice], t) <==>
      ReadFailed(parse, choices, t) ||
      (choice == StepOf(t, None) && t < |Run<T>(parse, choices).value.calls| &&
       Run<T>(parse, choices).value.calls[t].pc.RawRead?)
  {
    hide Reads, Run;
    forall i: nat
      ensures Reads(parse, choices + [choice], i, t, None) <==>
        if i == |choices| then
          choice == StepOf(t, None) && t < |Run<T>(parse, choices).value.calls| &&
          Run<T>(parse, choices).value.calls[t].pc.RawRead?
        else Reads(parse, choices, i, t, None)
    {
      ReadsSnoc(parse, choices, choice, i, t, None);
    }
    assert Reads(parse, choices + [choice], |choices|, t, None) <==>
      choice == StepOf(t, None) && t < |Run<T>(parse, choices).value.calls| &&
      Run<T>(parse, choices).value.calls[t].pc.RawRead?;
    ReadsBound(parse, choices, t);
  }

  lemma ReadsBound<T>(parse: Bytes -> Option<T>, choices: seq<Choice>, t: nat)
    ensures !Reads(parse, choices, |choices|, t, None)
  {
  }

  /** When a step makes a call fail, and that none undoes it. */
  lemma FailureStep<T>(
      parse: Bytes -> Option<T>, c: Call<T>, bin: Option<Bytes>, template: Option<T>, file: Option<Bytes>)
    requires Local(parse, c, bin, template)
    ensures Advance(parse, c, bin, template, file).failed <==>
      c.failed || (c.pc.RawRead? && file.None?) ||
      (c.pc.TemplateParse? && c.wantsTemplate && CannotBeParsed(parse, bin))
  {
  }

  ghost predicate FailureExplained<T>(parse: Bytes -> Option<T>, choices: seq<Choice>, s: State<T>, t: nat)
    requires t < |s.calls|
  {
    var c := s.calls[t];
    && (ReadFailed(parse, choices, t) ==> c.failed)
    && (c.failed ==>
          ReadFailed(parse, choices, t) || (c.wantsTemplate && CannotBeParsed(parse, Cached(s.binCache, c.path))))
  }

  ghost predicate FailuresExplained<T>(parse: Bytes -> Option<T>, choices: seq<Choice>, s: State<T>) {
    && (forall t :: 0 <= t < |s.calls| ==> FailureExplained(parse, choices, s, t))
    && (forall t: nat :: t >= |s.calls| ==> !ReadFailed(parse, choices, t))
  }

  lemma ExplainedStep<T>(
      parse: Bytes -> Option<T>, choices: seq<Choice>, s: State<T>, t: nat, file: Option<Bytes>, u: nat)
    requires Run(parse, choices) == Some(s) && Locals(parse, s) && CanStep(s, t)
    requires u < |s.calls| && FailureExplained(parse, choices, s, u)
    ensures FailureExplained(parse, choices + [StepOf(t, file)], Step(parse, s, t, file), u)
  {
    var s', c := Step(parse, s, t, file), s.calls[u];
    ReadFailedSnoc(parse, choices, StepOf(t, file), u);
    StepKeepsCaches(parse, s, t, file);
    assert LocalAt(parse, s, u);
    var bin, template := Cached(s.binCache, c.path), Cached(s.templateCache, c.path);
    assert s'.calls[u] == if u == t then Advance(parse, c, bin, template, file) else c;
    FailureStep(parse, c, bin, template, file);
    AdvanceFrame'(parse, c, bin, template, file);
    assert bin.Some? ==> Cached(s'.binCache, c.path) == bin;
    hide Advance, Step, ReadFailed, Run, Local, LocalAt, Locals, CanStep;
  }

  lemma AdvanceFrame'<T>(
      parse: Bytes -> Option<T>, c: Call<T>, bin: Option<Bytes>, template: Option<T>, file: Option<Bytes>)
    ensures
      var c' := Advance(parse, c, bin, template, file);
      c'.path == c.path && c'.wantsTemplate == c.wantsTemplate
  {
  }

  lemma {:induction false} AllFailuresExplained<T>(parse: Bytes -> Option<T>, choices: seq<Choice>)
    requires Run<T>(parse, choices).Some?
    ensures FailuresExplained(parse, choices, Run<T>(parse, choices).value)
  {
    if choices != [] {
      var before, choice := choices[..|choices| - 1], choices[|choices| - 1];
      assert choices == before + [choice];
      AllFailuresExplained<T>(parse, before);
      LocalsHold<T>(parse, before);
      var s: State<T>, s': State<T> := Run(parse, before).value, Run(parse, choices).value;
      hide Run, Step, Start, ReadFailed, Locals, FailureExplained, CanStep;
      CallsAfter(parse, s, choice);
      forall t: nat
        ensures t < |s'.calls| ==> FailureExplained(parse, choices, s', t)
        ensures t >= |s'.calls| ==> !ReadFailed(parse, choices, t)
      {
        ReadFailedSnoc(parse, before, choice, t);
        if t < |s.calls| {
          match choice
          case NewCall(path, wantsTemplate) => ExplainedStart(parse, before, s, path, wantsTemplate, t);
          case StepOf(u, file) => ExplainedStep(parse, before, s, u, file, t);
        } else if t < |s'.calls| {
          ExplainedNew(parse, choices, s', t);
        }
      }
    } else {
      NothingRead(parse);
    }
  }

  lemma NothingRead<T>(parse: Bytes -> Option<T>)
    ensures forall t: nat :: !ReadFailed(parse, [], t)
  {
  }

  /** A new call comes last, and has not failed. */
  lemma CallsAfter<T>(parse: Bytes -> Option<T>, s: State<T>, choice: Choice)
    requires Next(parse, s, choice).Some?
    ensures
      var s' := Next(parse, s, choice).value;
      match choice
      case NewCall(path, wantsTemplate) => s' == Start(s, path, wantsTemplate) && |s'.calls| == |s.calls| + 1 &&
        !s'.calls[|s.calls|].failed
      case StepOf(t, file) => CanStep(s, t) && s' == Step(parse, s, t, file) && |s'.calls| == |s.calls|
  {
  }

  lemma ExplainedStart<T>(
      parse: Bytes -> Option<T>, choices: seq<Choice>, s: State<T>, path: string, wantsTemplate: bool, t: nat)
    requires Run(parse, choices) == Some(s) && t < |s.calls| && FailureExplained(parse, choices, s, t)
    ensures FailureExplained(parse, choices + [NewCall(path, wantsTemplate)], Start(s, path, wantsTemplate), t)
  {
    ReadFailedSnoc(parse, choices, NewCall(path, wantsTemplate), t);
    hide ReadFailed, Run;
  }

  lemma ExplainedNew<T>(parse: Bytes -> Option<T>, choices: seq<Choice>, s: State<T>, t: nat)
    requires t < |s.calls| && !s.calls[t].failed && !ReadFailed(parse, choices, t)
    ensures FailureExplained(parse, choices, s, t)
  {
  }

  /** A finished call has failed exactly when it could not read its file, or wants the template of bytes that
      cannot be parsed. */
  lemma FailsExactly<T>(parse: Bytes -> Option<T>, choices: seq<Choice>, t: nat)
    requires Run<T>(parse, choices).Some?
    requires t < |Run<T>(parse, choices).value.calls| && Run<T>(parse, choices).value.calls[t].pc == Done
    ensures
      var s := Run<T>(parse, choices).value;
      var c := s.calls[t];
      c.failed <==>
        ReadFailed(parse, choices, t) || (c.wantsTemplate && CannotBeParsed(parse, Cached(s.binCache, c.path)))
  {
    hide Run, ReadFailed, Answers, LocalAt, Locks, Counts, Parsed;
    AllFailuresExplained<T>(parse, choices);
    InvHolds<T>(parse, choices);
    var s := Run<T>(parse, choices).value;
    assert FailureExplained(parse, choices, s, t);
    if !s.calls[t].failed {
      AnswerIsCached(parse, s, t);
      AnswerIsParsed(parse, s.calls[t], s.binCache[s.calls[t].path]);
    }
  }

  lemma AnswerIsParsed<T>(parse: Bytes -> Option<T>, c: Call<T>, bytes: Bytes)
    requires Answers(parse, c, bytes)
    ensures c.wantsTemplate ==> parse(bytes).Some?
  {
  }

  /** What is cached, or about to be, was read from the file of its path. */
  ghost predicate BytesExplained<T>(parse: Bytes -> Option<T>, choices: seq<Choice>, s: State<T>) {
    && (forall p :: p in s.binCache ==> WasRead(parse, choices, p, s.binCache[p]))
    && (forall t :: 0 <= t < |s.calls| && s.calls[t].pc.RawStore? ==>
          s.calls[t].bin.Some? && WasRead(parse, choices, s.calls[t].path, s.calls[t].bin.value))
  }

  lemma WasReadSnoc<T>(parse: Bytes -> Option<T>, choices: seq<Choice>, choice: Choice)
    requires Run<T>(parse, choices).Some?
    ensures forall path, bytes ::
      WasRead(parse, choices, path, bytes) ==> WasRead(parse, choices + [choice], path, bytes)
    ensures
      var s := Run<T>(parse, choices).value;
      choice.StepOf? && choice.file.Some? && choice.t < |s.calls| && s.calls[choice.t].pc.RawRead? ==>
        WasRead(parse, choices + [choice], s.calls[choice.t].path, choice.file.value)
  {
    hide Run;
    var longer := choices + [choice];
    assert longer[..|choices|] == choices;
    forall path, bytes | WasRead(parse, choices, path, bytes) ensures WasRead(parse, longer, path, bytes) {
      var i: nat, t: nat :|
        Reads(parse, choices, i, t, Some(bytes)) && Run<T>(parse, choices[..i]).value.calls[t].path == path;
      ReadsSnoc(parse, choices, choice, i, t, Some(bytes));
      ReadsWithin(parse, choices, i, t, Some(bytes));
      assert longer[..i] == choices[..i];
    }
    if choice.StepOf? {
      ReadsSnoc(parse, choices, choice, |choices|, choice.t, choice.file);
    }
  }

  lemma ReadsWithin<T>(parse: Bytes -> Option<T>, choices: seq<Choice>, i: nat, t: nat, file: Option<Bytes>)
    requires Reads(parse, choices, i, t, file)
    ensures i < |choices|
  {
  }

  /** Where the bytes that a step caches or is about to cache come from. */
  lemma BytesStep<T>(parse: Bytes -> Option<T>, s: State<T>, t: nat, file: Option<Bytes>)
    requires CanStep(s, t) && LocalAt(parse, s, t)
    ensures
      var s', c := Step(parse, s, t, file), s.calls[t];
      && s'.binCache == (if c.pc.RawStore? && c.bin.Some? then s.binCache[c.path := c.bin.value] else s.binCache)
      && s'.calls == s.calls[t := s'.calls[t]] && s'.calls[t].path == c.path
      && (s'.calls[t].pc.RawStore? ==> c.pc.RawRead? && file.Some? && s'.calls[t].bin == file)
  {
    hide BinLockAfter, TemplateLockAfter, BinBlocks, TemplateBlocks;
  }

  lemma BytesExplainedStep<T>(
      parse: Bytes -> Option<T>, choices: seq<Choice>, s: State<T>, t: nat, file: Option<Bytes>)
    requires Run(parse, choices) == Some(s) && CanStep(s, t) && LocalAt(parse, s, t)
    requires BytesExplained(parse, choices, s)
    ensures BytesExplained(parse, choices + [StepOf(t, file)], Step(parse, s, t, file))
  {
    hide Run, Step, WasRead, BinBlocks, TemplateBlocks, LocalAt;
    WasReadSnoc<T>(parse, choices, StepOf(t, file));
    BytesStep(parse, s, t, file);
    var s', all := Step(parse, s, t, file), choices + [StepOf(t, file)];
    var c := s.calls[t];
    forall p | p in s'.binCache ensures WasRead(parse, all, p, s'.binCache[p]) {
      if c.pc.RawStore? && c.bin.Some? && p == c.path {
        assert WasRead(parse, choices, p, c.bin.value);
      } else {
        assert WasRead(parse, choices, p, s.binCache[p]);
      }
    }
    forall u | 0 <= u < |s'.calls| && s'.calls[u].pc.RawStore?
      ensures s'.calls[u].bin.Some? && WasRead(parse, all, s'.calls[u].path, s'.calls[u].bin.value)
    {
      if u != t {
        assert WasRead(parse, choices, s.calls[u].path, s.calls[u].bin.value);
      }
    }
  }

  lemma BytesExplainedStart<T>(
      parse: Bytes -> Option<T>, choices: seq<Choice>, s: State<T>, path: string, wantsTemplate: bool)
    requires Run(parse, choices) == Some(s) && BytesExplained(parse, choices, s)
    ensures BytesExplained(parse, choices + [NewCall(path, wantsTemplate)], Start(s, path, wantsTemplate))
  {
    hide Run, WasRead;
    WasReadSnoc<T>(parse, choices, NewCall(path, wantsTemplate));
  }

  lemma {:induction false} AllBytesExplained<T>(parse: Bytes -> Option<T>, choices: seq<Choice>)
    requires Run<T>(parse, choices).Some?
    ensures BytesExplained(parse, choices, Run<T>(parse, choices).value)
  {
    if choices != [] {
      var before, choice := choices[..|choices| - 1], choices[|choices| - 1];
      assert choices == before + [choice];
      AllBytesExplained<T>(parse, before);
      LocalsHold<T>(parse, before);
      var s: State<T> := Run(parse, before).value;
      hide Step, Start, BytesExplained, LocalAt;
      match choice
      case NewCall(path, wantsTemplate) => BytesExplainedStart(parse, before, s, path, wantsTemplate);
      case StepOf(t, file) => BytesExplainedStep(parse, before, s, t, file);
    }
  }

  /** What a call that has succeeded returns. */
  ghost predicate Answers<T>(parse: Bytes -> Option<T>, c: Call<T>, bytes: Bytes) {
    if c.wantsTemplate then c.template.Some? && parse(bytes) == c.template else c.bin == Some(bytes)
  }

  lemma AnswerIsCached<T>(parse: Bytes -> Option<T>, s: State<T>, t: nat)
    requires t < |s.calls| && s.calls[t].pc == Done && !s.calls[t].failed && LocalAt(parse, s, t) && Parsed(parse, s)
    ensures s.calls[t].path in s.binCache && Answers(parse, s.calls[t], s.binCache[s.calls[t].path])
  {
  }

  /** A call that succeeds returns what a call for its path read from the file, or the template that it is parsed to. */
  lemma AnswersAreFileContents<T>(parse: Bytes -> Option<T>, choices: seq<Choice>, t: nat)
    requires Run<T>(parse, choices).Some?
    requires t < |Run<T>(parse, choices).value.calls|
    requires
      var c := Run<T>(parse, choices).value.calls[t];
      c.pc == Done && !c.failed
    ensures
      var c := Run<T>(parse, choices).value.calls[t];
      exists bytes :: WasRead(parse, choices, c.path, bytes) && Answers(parse, c, bytes)
  {
    hide Run, WasRead, Answers, LocalAt, Locks, Counts, Parsed;
    AllBytesExplained<T>(parse, choices);
    InvHolds<T>(parse, choices);
    var s := Run<T>(parse, choices).value;
    AnswerIsCached(parse, s, t);
    assert WasRead(parse, choices, s.calls[t].path, s.binCache[s.calls[t].path]);
  }

  ghost function NewCalls(choices: seq<Choice>): nat {
    if choices == [] then 0
    else NewCalls(choices[..|choices| - 1]) + if choices[|choices| - 1].NewCall? then 1 else 0
  }

  /** The calls of a run are those that arrived, in their order, and none is ever turned into another. */
  lemma {:induction false} CallsAreThoseMade<T>(parse: Bytes -> Option<T>, choices: seq<Choice>, i: nat)
    requires Run<T>(parse, choices).Some?
    ensures |Run<T>(parse, choices).value.calls| == NewCalls(choices)
    ensures i < |choices| && choices[i].NewCall? ==>
      var t := NewCalls(choices[..i]);
      var calls := Run<T>(parse, choices).value.calls;
      t < |calls| && calls[t].path == choices[i].path && calls[t].wantsTemplate == choices[i].wantsTemplate
  {
    if choices != [] {
      hide Next;
      var before, choice := choices[..|choices| - 1], choices[|choices| - 1];
      CallsAreThoseMade<T>(parse, before, i);
      if i < |before| {
        assert before[..i] == choices[..i];
      }
      RequestsAfter(parse, Run<T>(parse, before).value, choice);
    }
  }

  /** What a choice does to the calls, as far as what they want is concerned. */
  lemma RequestsAfter<T>(parse: Bytes -> Option<T>, s: State<T>, choice: Choice)
    requires Next(parse, s, choice).Some?
    ensures
      var calls := Next(parse, s, choice).value.calls;
      && |calls| == (if choice.NewCall? then |s.calls| + 1 else |s.calls|)
      && (choice.NewCall? ==>
            calls[|s.calls|].path == choice.path && calls[|s.calls|].wantsTemplate == choice.wantsTemplate)
      && forall t :: 0 <= t < |s.calls| ==>
           calls[t].path == s.calls[t].path && calls[t].wantsTemplate == s.calls[t].wantsTemplate
  {
    if choice.StepOf? {
      var c := s.calls[choice.t];
      AdvanceFrame'(parse, c, Cached(s.binCache, c.path), Cached(s.templateCache, c.path), choice.file);
    }
    hide Advance, BinLockAfter, TemplateLockAfter, BinBlocks, TemplateBlocks;
  }

  // ----- What the read locks are for -----

  /** Call `t` found, or will find, the bytes of its path without taking the lock for writing. */
  ghost predicate OnlyReadsBytes<T>(s: State<T>, t: nat) {
    && t < |s.calls| && s.calls[t].path in s.binCache
    && var c := s.calls[t];
       || c.pc.RawRLock? || c.pc.RawLookup? || (c.pc.RawRUnlock? && c.bin.Some?)
       || c.pc.TemplateParse? || c.pc.TemplateStore? || c.pc.TemplateUnlock? || c.pc.Done?
  }

  ghost predicate OnlyReadsTemplate<T>(s: State<T>, t: nat) {
    && t < |s.calls| && s.calls[t].path in s.templateCache && !s.calls[t].failed
    && var c := s.calls[t];
       c.pc.TemplateRLock? || c.pc.TemplateLookup? || (c.pc.TemplateRUnlock? && c.template.Some?) || c.pc.Done?
  }

  lemma OnlyReadsStep<T>(parse: Bytes -> Option<T>, s: State<T>, t: nat, file: Option<Bytes>, u: nat)
    requires Locals(parse, s) && CanStep(s, t)
    ensures OnlyReadsBytes(s, u) ==> OnlyReadsBytes(Step(parse, s, t, file), u)
    ensures OnlyReadsTemplate(s, u) ==> OnlyReadsTemplate(Step(parse, s, t, file), u)
  {
    StepKeepsCaches(parse, s, t, file);
    hide Locals, BinLockAfter, TemplateLockAfter, BinBlocks, TemplateBlocks;
  }

  lemma OnlyReadsMeans<T>(s: State<T>, t: nat)
    ensures OnlyReadsBytes(s, t) ==> t < |s.calls| && !s.calls[t].pc.RawLock? && !s.calls[t].WritesBin()
    ensures OnlyReadsTemplate(s, t) ==>
      && t < |s.calls| && !s.calls[t].failed
      && !s.calls[t].InRaw() && !s.calls[t].pc.TemplateLock? && !s.calls[t].WritesTemplate()
  {
  }

  /** A call that comes to a path whose bytes, or template, are cached never takes the lock for writing, and for a
      cached template it does not fail. */
  lemma {:induction false} CachedIsOnlyRead<T>(parse: Bytes -> Option<T>, choices: seq<Choice>, more: seq<Choice>,
                                               t: nat)
    requires Run<T>(parse, choices + more).Some?
    ensures Run<T>(parse, choices).Some?
    ensures
      var s, s' := Run<T>(parse, choices).value, Run<T>(parse, choices + more).value;
      && (OnlyReadsBytes(s, t) ==> OnlyReadsBytes(s', t) && !s'.calls[t].pc.RawLock? && !s'.calls[t].WritesBin())
      && (OnlyReadsTemplate(s, t) ==>
            && OnlyReadsTemplate(s', t) && !s'.calls[t].failed
            && !s'.calls[t].InRaw() && !s'.calls[t].pc.TemplateLock? && !s'.calls[t].WritesTemplate())
  {
    hide Step, Start, CanStep, Locals, OnlyReadsBytes, OnlyReadsTemplate;
    if more == [] {
      assert choices + more == choices;
    } else {
      var init, choice := more[..|more| - 1], more[|more| - 1];
      assert (choices + more)[..|choices + more| - 1] == choices + init;
      CachedIsOnlyRead<T>(parse, choices, init, t);
      var s := Run<T>(parse, choices + init).value;
      LocalsHold<T>(parse, choices + init);
      match choice
      case NewCall(path, wantsTemplate) => OnlyReadsStart(s, path, wantsTemplate, t);
      case StepOf(u, file) => OnlyReadsStep(parse, s, u, file, t);
    }
    OnlyReadsMeans(Run<T>(parse, choices + more).value, t);
  }

  lemma OnlyReadsStart<T>(s: State<T>, path: string, wantsTemplate: bool, t: nat)
    ensures OnlyReadsBytes(s, t) ==> OnlyReadsBytes(Start(s, path, wantsTemplate), t)
    ensures OnlyReadsTemplate(s, t) ==> OnlyReadsTemplate(Start(s, path, wantsTemplate), t)
  {
  }

  /** Some call reads, or has announced itself to write or does so. */
  ghost predicate AnyReadsBin<T>(s: State<T>) { exists u :: 0 <= u < |s.calls| && s.calls[u].ReadsBin() }

  ghost predicate AnyWritesBin<T>(s: State<T>) { exists u :: 0 <= u < |s.calls| && s.calls[u].WritesBin() }

  ghost predicate AnyReadsTemplate<T>(s: State<T>) { exists u :: 0 <= u < |s.calls| && s.calls[u].ReadsTemplate() }

  ghost predicate AnyWritesTemplate<T>(s: State<T>) { exists u :: 0 <= u < |s.calls| && s.calls[u].WritesTemplate() }

  /** A call has to wait exactly when it wants a lock that another one writes to or has announced itself for, or, having
      announced itself, while another one reads. Readers never wait for readers. */
  lemma WaitsExactly<T>(parse: Bytes -> Option<T>, choices: seq<Choice>, t: nat)
    requires Run<T>(parse, choices).Some?
    requires t < |Run<T>(parse, choices).value.calls| && Run<T>(parse, choices).value.calls[t].pc != Done
    ensures
      var s := Run<T>(parse, choices).value;
      !CanStep(s, t) <==>
        match s.calls[t].pc
        case RawRLock => AnyWritesBin(s)
        case RawLock => AnyWritesBin(s)
        case RawWaitReaders => AnyReadsBin(s)
        case TemplateRLock => AnyWritesTemplate(s)
        case TemplateLock => AnyWritesTemplate(s)
        case TemplateWaitReaders => AnyReadsTemplate(s)
        case _ => false
  {
    InvHolds<T>(parse, choices);
    LocksMean(Run<T>(parse, choices).value);
    hide Run, AnyReadsBin, AnyWritesBin, AnyReadsTemplate, AnyWritesTemplate, Inv;
  }

  lemma LocksMean<T>(s: State<T>)
    requires Locks(s)
    ensures s.binLock.writer.Some? <==> AnyWritesBin(s)
    ensures s.binLock.readers != {} <==> AnyReadsBin(s)
    ensures s.templateLock.writer.Some? <==> AnyWritesTemplate(s)
    ensures s.templateLock.readers != {} <==> AnyReadsTemplate(s)
  {
    hide Locks, LockedAs;
    WriterMeans(s);
    ReadersMean(s);
  }

  lemma WriterMeans<T>(s: State<T>)
    requires Locks(s)
    ensures s.binLock.writer.Some? <==> AnyWritesBin(s)
    ensures s.templateLock.writer.Some? <==> AnyWritesTemplate(s)
  {
    if s.binLock.writer.Some? {
      assert LockedAs(s, s.binLock.writer.value);
    }
    if s.templateLock.writer.Some? {
      assert LockedAs(s, s.templateLock.writer.value);
    }
    if AnyWritesBin(s) {
      var u :| 0 <= u < |s.calls| && s.calls[u].WritesBin();
      assert LockedAs(s, u);
    }
    if AnyWritesTemplate(s) {
      var u :| 0 <= u < |s.calls| && s.calls[u].WritesTemplate();
      assert LockedAs(s, u);
    }
  }

  lemma ReadersMean<T>(s: State<T>)
    requires Locks(s)
    ensures s.binLock.readers != {} <==> AnyReadsBin(s)
    ensures s.templateLock.readers != {} <==> AnyReadsTemplate(s)
  {
    if t :| t in s.binLock.readers {
      assert LockedAs(s, t);
    }
    if t :| t in s.templateLock.readers {
      assert LockedAs(s, t);
    }
    if AnyReadsBin(s) {
      var u :| 0 <= u < |s.calls| && s.calls[u].ReadsBin();
      assert LockedAs(s, u);
    }
    if AnyReadsTemplate(s) {
      var u :| 0 <= u < |s.calls| && s.calls[u].ReadsTemplate();
      assert LockedAs(s, u);
    }
  }

  /** Taking the bytes lock while holding the template lock cannot deadlock: as long as some call
      is unfinished, some call can step. */
  lemma {:induction false} NoDeadlock<T>(parse: Bytes -> Option<T>, choices: seq<Choice>, t: nat)
    requires Run<T>(parse, choices).Some?
    requires t < |Run<T>(parse, choices).value.calls| && Run<T>(parse, choices).value.calls[t].pc != Done
    ensures exists u :: CanStep(Run<T>(parse, choices).value, u)
  {
    InvHolds<T>(parse, choices);
    SomeoneMoves(Run<T>(parse, choices).value, t);
  }

  lemma SomeoneMoves<T>(s: State<T>, t: nat)
    requires Locks(s) && t < |s.calls| && s.calls[t].pc != Done
    ensures exists u :: CanStep(s, u)
  {
    assert LockedAs(s, t);
    if !CanStep(s, t) {
      var pc := s.calls[t].pc;
      if pc.RawRLock? || pc.RawLock? || pc.RawWaitReaders? {
        BinLockMoves(s, t);
      } else if pc.TemplateWaitReaders? {
        var r :| r in s.templateLock.readers;
        assert LockedAs(s, r) && CanStep(s, r);
      } else {
        var w := s.templateLock.writer.value;
        assert LockedAs(s, w);
        if !CanStep(s, w) {
          if s.calls[w].InRaw() {
            BinLockMoves(s, w);
          } else {
            var r :| r in s.templateLock.readers;
            assert LockedAs(s, r) && CanStep(s, r);
          }
        }
      }
    }
  }

  /** A call blocked on the bytes lock waits, directly or not, for one that can step. */
  lemma BinLockMoves<T>(s: State<T>, t: nat)
    requires Locks(s) && t < |s.calls|
    requires (s.calls[t].pc.RawRLock? || s.calls[t].pc.RawLock? || s.calls[t].pc.RawWaitReaders?) && !CanStep(s, t)
    ensures exists u :: CanStep(s, u)
  {
    if s.calls[t].pc == RawWaitReaders {
      var r :| r in s.binLock.readers;
      assert LockedAs(s, r) && CanStep(s, r);
    } else {
      var w := s.binLock.writer.value;
      assert LockedAs(s, w);
      if !CanStep(s, w) {
        var r :| r in s.binLock.readers;
        assert LockedAs(s, r) && CanStep(s, r);
      }
    }
  }

  /** How many steps a call can still take. */
  function Rank(pc: Pc): nat {
    match pc
    case TemplateRLock => 18 case TemplateLookup => 17 case TemplateRUnlock => 16
    case TemplateLock => 15 case TemplateWaitReaders => 14 case TemplateRecheck => 13
    case RawRLock => 12 case RawLookup => 11 case RawRUnlock => 10
    case RawLock => 9 case RawWaitReaders => 8 case RawRecheck => 7
    case RawRead => 6 case RawStore => 5 case RawUnlock => 4
    case TemplateParse => 3 case TemplateStore => 2 case TemplateUnlock => 1
    case Done => 0
  }

  lemma RankBound(pc: Pc)
    ensures Rank(pc) <= 18
  {
  }

  ghost function TotalRank<T>(calls: seq<Call<T>>): nat {
    if calls == [] then 0 else TotalRank(calls[..|calls| - 1]) + Rank(calls[|calls| - 1].pc)
  }

  lemma {:induction false} TotalRankUpdate<T>(calls: seq<Call<T>>, t: nat, c: Call<T>)
    requires t < |calls|
    ensures TotalRank(calls[t := c]) == TotalRank(calls) - Rank(calls[t].pc) + Rank(c.pc)
  {
    if t < |calls| - 1 {
      TotalRankUpdate(calls[..|calls| - 1], t, c);
      assert calls[t := c][..|calls| - 1] == calls[..|calls| - 1][t := c];
    } else {
      assert calls[t := c][..|calls| - 1] == calls[..|calls| - 1];
    }
  }

  ghost function Steps(choices: seq<Choice>): nat {
    if choices == [] then 0
    else Steps(choices[..|choices| - 1]) + if choices[|choices| - 1].StepOf? then 1 else 0
  }

  /** No caller is kept busy for ever: n calls take at most 18 n steps between them under any schedule.
      Together with NoDeadlock, every call returns once no new ones arrive. */
  lemma {:induction false} StepsAreBounded<T>(parse: Bytes -> Option<T>, choices: seq<Choice>)
    requires Run<T>(parse, choices).Some?
    ensures Steps(choices) + TotalRank(Run<T>(parse, choices).value.calls) <= 18 * |Run<T>(parse, choices).value.calls|
  {
    if choices != [] {
      var before, choice := choices[..|choices| - 1], choices[|choices| - 1];
      hide Step, Locals, Rank;
      StepsAreBounded<T>(parse, before);
      LocalsHold<T>(parse, before);
      var s: State<T> := Run(parse, before).value;
      match choice
      case NewCall(path, wantsTemplate) =>
        assert Start(s, path, wantsTemplate).calls[..|s.calls|] == s.calls;
        RankBound(Start(s, path, wantsTemplate).calls[|s.calls|].pc);
      case StepOf(t, file) =>
        StepDescends(parse, s, t, file);
    }
  }

  lemma StepDescends<T>(parse: Bytes -> Option<T>, s: State<T>, t: nat, file: Option<Bytes>)
    requires Locals(parse, s) && CanStep(s, t)
    ensures
      var s' := Step(parse, s, t, file);
      |s'.calls| == |s.calls| && TotalRank(s'.calls) < TotalRank(s.calls)
  {
    var s' := Step(parse, s, t, file);
    assert LocalAt(parse, s, t);
    AdvanceFrame(parse, s.calls[t], Cached(s.binCache, s.calls[t].path), Cached(s.templateCache, s.calls[t].path),
      file);
    TotalRankUpdate(s.calls, t, s'.calls[t]);
  }
}
