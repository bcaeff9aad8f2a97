/**
 The blocking queue: the concurrent queue, here a bag, behind a semaphore that
 counts its elements. The inner queue may refuse an enqueue, and may report fewer
 elements than it has.
 */
module BlockingQueue {
  import opened Counting
  import L = LightweightSemaphore

  /** A dequeue: at most max elements; `again` repeats the wait until it gets something. */
  datatype Job = Enqueue | Dequeue(max: nat, plan: L.Plan, again: bool)

  datatype Pc =
    | Idle
    | Sema(pc: L.Pc, job: Job)
    | Pull(left: nat)       // the retry loop on the inner queue

  /** `enqueued` and `dequeued` record history and are never read by a step. */
  datatype State = State(
    core: L.Core,
    maxSpins: nat,
    inner: multiset<int>,
    pcs: seq<Pc>,
    enqueued: multiset<int>,
    dequeued: multiset<int>)

  /** `accepted` is the inner queue's answer; `found` is what an inner dequeue delivers. */
  datatype Event =
    | CallEnqueue(t: nat, items: seq<int>, accepted: bool)
    | CallDequeue(t: nat, max: nat, plan: L.Plan, again: bool)
    | Go(t: nat, chance: L.Chance, found: seq<int>)

  function Init(threads: nat, maxSpins: nat): State {
    State(L.Core(0, 0), maxSpins, multiset{}, seq(threads, _ => Idle), multiset{}, multiset{})
  }

  function Goto(s: State, t: nat, pc: Pc): State
    requires t < |s.pcs|
  {
    s.(pcs := s.pcs[t := pc])
  }

  /** What a thread does with the semaphore's answer. */
  function AfterSema(units: nat, job: Job): Pc {
    if job.Enqueue? then Idle
    else if units > 0 then Pull(units)
    else if job.again then Sema(L.TryLoad(job.max, 0, job.plan), job)
    else Idle
  }

  function StepGo(s: State, t: nat, chance: L.Chance, found: seq<int>): State
    requires t < |s.pcs|
  {
    match s.pcs[t]
    case Idle => s
    case Sema(pc, job) =>
      if pc.Done? then Goto(s, t, AfterSema(pc.units, job))
      else var (core, pc') := L.Advance(s.core, pc, chance, s.maxSpins); Goto(s.(core := core), t, Sema(pc', job))
    case Pull(left) =>
      if |found| <= left && multiset(found) <= s.inner then
        Goto(s.(inner := s.inner - multiset(found), dequeued := s.dequeued + multiset(found)), t,
             if |found| == left then Idle else Pull(left - |found|))
      else s
  }

  function Step(s: State, e: Event): State {
    match e
    case CallEnqueue(t, items, accepted) =>
      if t < |s.pcs| && s.pcs[t].Idle? && accepted then
        Goto(s.(inner := s.inner + multiset(items), enqueued := s.enqueued + multiset(items)), t,
             Sema(L.SigAdd(|items|), Enqueue))
      else s
    case CallDequeue(t, max, plan, again) =>
      if t < |s.pcs| && s.pcs[t].Idle? then Goto(s, t, Sema(L.TryLoad(max, 0, plan), Dequeue(max, plan, again))) else s
    case Go(t, chance, found) => if t < |s.pcs| then StepGo(s, t, chance, found) else s
  }

  ghost function Exec(s: State, trace: seq<Event>): (r: State)
    ensures |r.pcs| == |s.pcs|
    decreases |trace|
  {
    if trace == [] then s else Step(Exec(s, trace[..|trace| - 1]), trace[|trace| - 1])
  }

  ghost function Run(threads: nat, maxSpins: nat, trace: seq<Event>): (r: State)
    ensures |r.pcs| == threads
  {
    Exec(Init(threads, maxSpins), trace)
  }

  // ---------- the invariant ----------

  function WaitingOf(): Pc -> int { (pc: Pc) => if pc.Sema? then L.Waiting(pc.pc) else 0 }
  function UnpostedOf(): Pc -> int { (pc: Pc) => if pc.Sema? then L.Unposted(pc.pc) else 0 }

  /** Permits: units a dequeuer has got and not yet turned into elements. */
  function PermitsOf(): Pc -> int { (pc: Pc) => if pc.Sema? then L.Got(pc.pc) else if pc.Pull? then pc.left else 0 }

  /** Elements enqueued and not yet signalled. */
  function UnsignalledOf(): Pc -> int { (pc: Pc) => if pc.Sema? then L.Unsignalled(pc.pc) else 0 }

  /** A semaphore call that belongs to its job: signals bring no units, a dequeue gets at most what it wants. */
  predicate Fitting(pc: Pc) {
    match pc
    case Idle => true
    case Pull(left) => left > 0
    case Sema(p, Enqueue) => L.Sane(p) && L.Within(p, 0) && (p.SigAdd? || p.Post? || p.Done?)
    case Sema(p, Dequeue(max, _, _)) => L.Sane(p) && L.Within(p, max) && !p.SigAdd? && !p.Post?
  }

  ghost predicate Inv(s: State) {
    && (forall t | 0 <= t < |s.pcs| :: Fitting(s.pcs[t]))
    && Sum(s.pcs, WaitingOf()) == s.core.posted + Sum(s.pcs, UnpostedOf()) + L.Owed(s.core.count)
    && |s.inner| == s.core.count + Sum(s.pcs, WaitingOf()) + Sum(s.pcs, PermitsOf()) + Sum(s.pcs, UnsignalledOf())
    && s.enqueued == s.inner + s.dequeued
  }

  lemma Moved(pcs: seq<Pc>, t: nat, pc: Pc)
    requires t < |pcs|
    ensures Sum(pcs[t := pc], WaitingOf()) == Sum(pcs, WaitingOf()) - WaitingOf()(pcs[t]) + WaitingOf()(pc)
    ensures Sum(pcs[t := pc], UnpostedOf()) == Sum(pcs, UnpostedOf()) - UnpostedOf()(pcs[t]) + UnpostedOf()(pc)
    ensures Sum(pcs[t := pc], PermitsOf()) == Sum(pcs, PermitsOf()) - PermitsOf()(pcs[t]) + PermitsOf()(pc)
    ensures Sum(pcs[t := pc], UnsignalledOf()) == Sum(pcs, UnsignalledOf()) - UnsignalledOf()(pcs[t]) + UnsignalledOf()(pc)
  {
    SumUpdate(pcs, t, pc, WaitingOf());
    SumUpdate(pcs, t, pc, UnpostedOf());
    SumUpdate(pcs, t, pc, PermitsOf());
    SumUpdate(pcs, t, pc, UnsignalledOf());
  }

  lemma NoneIdle(pcs: seq<Pc>)
    requires forall pc <- pcs :: pc.Idle?
    ensures Sum(pcs, WaitingOf()) == Sum(pcs, UnpostedOf()) == Sum(pcs, PermitsOf()) == Sum(pcs, UnsignalledOf()) == 0
  {
    SumBounds(pcs, WaitingOf(), 0);
    SumBounds(pcs, UnpostedOf(), 0);
    SumBounds(pcs, PermitsOf(), 0);
    SumBounds(pcs, UnsignalledOf(), 0);
  }

  /** An operation of the semaphore keeps the kind of call. */
  lemma AdvanceFits(c: L.Core, pc: L.Pc, job: Job, chance: L.Chance, maxSpins: nat)
    requires Fitting(Sema(pc, job)) && !pc.Done?
    ensures Fitting(Sema(L.Advance(c, pc, chance, maxSpins).1, job))
  {
    L.AdvanceKeeps(c, pc, chance, maxSpins, if job.Enqueue? then 0 else job.max);
  }

  lemma GoInv(s: State, t: nat, chance: L.Chance, found: seq<int>)
    requires Inv(s) && t < |s.pcs|
    ensures Inv(StepGo(s, t, chance, found))
  {
    hide Sum, L.Advance;
    var s' := StepGo(s, t, chance, found);
    assert Fitting(s.pcs[t]);
    match s.pcs[t]
    case Idle =>
    case Sema(pc, job) =>
      if pc.Done? {
        Moved(s.pcs, t, AfterSema(pc.units, job));
      } else {
        var (core, pc') := L.Advance(s.core, pc, chance, s.maxSpins);
        L.AdvanceKeeps(s.core, pc, chance, s.maxSpins, if job.Enqueue? then 0 else job.max);
        AdvanceFits(s.core, pc, job, chance, s.maxSpins);
        Moved(s.pcs, t, Sema(pc', job));
      }
    case Pull(left) =>
      Moved(s.pcs, t, s'.pcs[t]);
      if multiset(found) <= s.inner { assert s.inner == (s.inner - multiset(found)) + multiset(found); }
  }

  lemma StepInv(s: State, e: Event)
    requires Inv(s)
    ensures Inv(Step(s, e))
  {
    hide Sum, StepGo;
    match e
    case CallEnqueue(t, items, accepted) => if t < |s.pcs| { Moved(s.pcs, t, Sema(L.SigAdd(|items|), Enqueue)); }
    case CallDequeue(t, max, plan, again) =>
      if t < |s.pcs| { Moved(s.pcs, t, Sema(L.TryLoad(max, 0, plan), Dequeue(max, plan, again))); }
    case Go(t, chance, found) => if t < |s.pcs| { GoInv(s, t, chance, found); }
  }

  lemma {:induction false} RunInv(threads: nat, maxSpins: nat, trace: seq<Event>)
    ensures Inv(Run(threads, maxSpins, trace))
    decreases |trace|
  {
    if trace == [] {
      NoneIdle(Init(threads, maxSpins).pcs);
    } else {
      RunInv(threads, maxSpins, trace[..|trace| - 1]);
      StepInv(Run(threads, maxSpins, trace[..|trace| - 1]), trace[|trace| - 1]);
    }
  }

  // ---------- what holds in every run ----------

  /** The elements held are the units available, the permits in dequeuers' hands and the elements not yet signalled. */
  lemma ElementsAreAccounted(threads: nat, maxSpins: nat, trace: seq<Event>)
    ensures var s := Run(threads, maxSpins, trace);
            var available := s.core.count + Sum(s.pcs, WaitingOf());
            && available >= 0
            && |s.inner| == available + Sum(s.pcs, PermitsOf()) + Sum(s.pcs, UnsignalledOf())
            && s.enqueued == s.inner + s.dequeued
  {
    var s := Run(threads, maxSpins, trace);
    RunInv(threads, maxSpins, trace);
    SumBounds(s.pcs, UnpostedOf(), 0);
  }

  /**
   A thread in its retry loop, single or bulk, never faces an empty inner queue:
   together the loops want no more elements than there are. So an inner dequeue
   that looks again will find the missing elements.
   */
  lemma NoRetryOnEmpty(threads: nat, maxSpins: nat, trace: seq<Event>, t: nat)
    requires t < threads && Run(threads, maxSpins, trace).pcs[t].Pull?
    ensures var s := Run(threads, maxSpins, trace);
            && 0 < s.pcs[t].left <= Sum(s.pcs, PermitsOf()) <= |s.inner|
  {
    var s := Run(threads, maxSpins, trace);
    RunInv(threads, maxSpins, trace);
    ElementsAreAccounted(threads, maxSpins, trace);
    SumBounds(s.pcs, UnsignalledOf(), 0);
    SumBounds(s.pcs, PermitsOf(), 0);
    SumAtLeast(s.pcs, t, PermitsOf());
    assert Fitting(s.pcs[t]);
  }

  /** With no call under way the approximate size is the exact number of elements. */
  lemma QuiescentSizeIsExact(threads: nat, maxSpins: nat, trace: seq<Event>)
    requires forall t | 0 <= t < threads :: Run(threads, maxSpins, trace).pcs[t].Idle?
    ensures var s := Run(threads, maxSpins, trace); s.core.posted == 0 && s.core.count == |s.inner|
  {
    RunInv(threads, maxSpins, trace);
    NoneIdle(Run(threads, maxSpins, trace).pcs);
  }

  // ---------- what a call achieves ----------

  lemma RunMore(threads: nat, maxSpins: nat, trace: seq<Event>, e: Event)
    ensures Run(threads, maxSpins, trace + [e]) == Step(Run(threads, maxSpins, trace), e)
  {
    assert (trace + [e])[..|trace|] == trace;
  }

  /**
   A bulk try run alone: it takes as many elements as it may, all that it wants or
   all there are, and these leave the queue. (A thread that has returned does nothing.)
   */
  lemma BulkTryAlone(threads: nat, maxSpins: nat, trace: seq<Event>, t: nat, max: nat, found: seq<int>)
    requires t < threads && forall u | 0 <= u < threads :: Run(threads, maxSpins, trace).pcs[u].Idle?
    requires multiset(found) <= Run(threads, maxSpins, trace).inner
    requires |found| == L.Smaller(max, |Run(threads, maxSpins, trace).inner|)
    ensures var s := Run(threads, maxSpins, trace); var go := Go(t, L.Lucky, []);
            var r := Run(threads, maxSpins, trace + [CallDequeue(t, max, L.Stop, false), go, go, go, Go(t, L.Lucky, found)]);
            && r.pcs == s.pcs && r.inner == s.inner - multiset(found) && r.dequeued == s.dequeued + multiset(found)
            && r.core.count == |r.inner|
  {
    hide Run, Inv, Step;
    QuiescentSizeIsExact(threads, maxSpins, trace);
    var s := Run(threads, maxSpins, trace);
    var call, go, last := CallDequeue(t, max, L.Stop, false), Go(t, L.Lucky, []), Go(t, L.Lucky, found);
    RunMore(threads, maxSpins, trace, call);
    RunMore(threads, maxSpins, trace + [call], go);
    RunMore(threads, maxSpins, trace + [call] + [go], go);
    RunMore(threads, maxSpins, trace + [call] + [go] + [go], go);
    RunMore(threads, maxSpins, trace + [call] + [go] + [go] + [go], last);
    assert trace + [call, go, go, go, last] == trace + [call] + [go] + [go] + [go] + [last];
    BulkTrySteps(s, t, max, found);
  }

  lemma BulkTrySteps(s: State, t: nat, max: nat, found: seq<int>)
    requires t < |s.pcs| && s.pcs[t].Idle? && s.core.count == |s.inner|
    requires multiset(found) <= s.inner && |found| == L.Smaller(max, |s.inner|)
    ensures var go := Go(t, L.Lucky, []);
            var r := Step(Step(Step(Step(Step(s, CallDequeue(t, max, L.Stop, false)), go), go), go), Go(t, L.Lucky, found));
            && r.pcs == s.pcs && r.inner == s.inner - multiset(found) && r.dequeued == s.dequeued + multiset(found)
            && r.core.count == |r.inner|
  {
    var go, job := Go(t, L.Lucky, []), Dequeue(max, L.Stop, false);
    var s1 := Step(s, CallDequeue(t, max, L.Stop, false));
    assert s1 == s.(pcs := s.pcs[t := Sema(L.TryLoad(max, 0, L.Stop), job)]);
    var s2 := Step(s1, go);
    if |s.inner| == 0 {
      assert s2 == s.(pcs := s.pcs[t := Sema(L.Done(0), job)]);
      var s3 := Step(s2, go);
      assert s3.pcs == s.pcs && s3 == s;
      assert multiset(found) == multiset{};
    } else {
      assert s2 == s.(pcs := s.pcs[t := Sema(L.TryCas(s.core.count, max, 0, L.Stop), job)]);
      var s3 := Step(s2, go);
      var left := s.(core := s.core.(count := s.core.count - |found|));
      assert s3 == left.(pcs := s.pcs[t := Sema(L.Done(|found|), job)]);
      var s4 := Step(s3, go);
      if |found| == 0 {
        assert s4.pcs == s.pcs && s4 == left;
        assert multiset(found) == multiset{};
      } else {
        assert s4 == left.(pcs := s.pcs[t := Pull(|found|)]);
        assert Step(s4, Go(t, L.Lucky, found)).pcs == s.pcs;
      }
    }
  }

  /** An enqueue run alone: its elements are in the queue and available. */
  lemma EnqueueAlone(threads: nat, maxSpins: nat, trace: seq<Event>, t: nat, items: seq<int>)
    requires t < threads && forall u | 0 <= u < threads :: Run(threads, maxSpins, trace).pcs[u].Idle?
    ensures var s := Run(threads, maxSpins, trace); var go := Go(t, L.Lucky, []);
            var r := Run(threads, maxSpins, trace + [CallEnqueue(t, items, true), go, go]);
            && r.pcs == s.pcs && r.inner == s.inner + multiset(items) && r.dequeued == s.dequeued && r.core.count == |r.inner|
  {
    hide Run, Inv, Step;
    QuiescentSizeIsExact(threads, maxSpins, trace);
    var s := Run(threads, maxSpins, trace);
    var call, go := CallEnqueue(t, items, true), Go(t, L.Lucky, []);
    RunMore(threads, maxSpins, trace, call);
    RunMore(threads, maxSpins, trace + [call], go);
    RunMore(threads, maxSpins, trace + [call] + [go], go);
    assert trace + [call, go, go] == trace + [call] + [go] + [go];
    EnqueueSteps(s, t, items);
  }

  lemma EnqueueSteps(s: State, t: nat, items: seq<int>)
    requires t < |s.pcs| && s.pcs[t].Idle? && s.core.count == |s.inner|
    ensures var go := Go(t, L.Lucky, []); var r := Step(Step(Step(s, CallEnqueue(t, items, true)), go), go);
            r.pcs == s.pcs && r.inner == s.inner + multiset(items) && r.dequeued == s.dequeued && r.core.count == |r.inner|
  {
    var go := Go(t, L.Lucky, []);
    var s1 := Step(s, CallEnqueue(t, items, true));
    assert s1.pcs == s.pcs[t := Sema(L.SigAdd(|items|), Enqueue)] && s1.core == s.core;
    var s2 := Step(s1, go);
    assert s2.pcs == s.pcs[t := Sema(L.Done(0), Enqueue)] && s2.core.count == s.core.count + |items|;
    assert Step(s2, go).pcs == s.pcs;
  }

  /** A dequeue that has got its units gives back exactly as many elements: it ends when it has them all, and not before. */
  lemma PullsAllItsUnits(s: State, t: nat, chance: L.Chance, found: seq<int>)
    requires t < |s.pcs| && s.pcs[t].Pull? && s.pcs[t].left > 0 && |found| <= s.pcs[t].left && multiset(found) <= s.inner
    ensures var r := Step(s, Go(t, chance, found)); var left := s.pcs[t].left - |found|;
            && r.dequeued == s.dequeued + multiset(found) && r.inner == s.inner - multiset(found)
            && r.pcs[t] == if left == 0 then Idle else Pull(left)
  {
  }

  /** `wait_dequeue` does not return empty-handed: its call ends only in the loop that pulls elements, with the last of at least one. */
  lemma WaitsUntilItGets(s: State, e: Event, t: nat)
    requires t < |s.pcs| && s.pcs[t].Sema? && s.pcs[t].job.Dequeue? && s.pcs[t].job.again
    ensures |Step(s, e).pcs| == |s.pcs|
    ensures var pc := Step(s, e).pcs[t];
            || (pc.Pull? && pc.left > 0)
            || (pc.Sema? && pc.job == s.pcs[t].job)
  {
    hide L.Advance;
    if e.Go? && e.t == t { assert Step(s, e) == StepGo(s, t, e.chance, e.found); }
  }
}
