/**
 The lightweight semaphore: an atomic count in front of a kernel semaphore. A
 negative count is a number of waiters the next signals must wake. Threads try,
 spin, wait, time out, recover and signal, one atomic or kernel operation a step,
 any interleaving, the count unbounded.
 */
module LightweightSemaphore {
  import opened Counting

  /** The shared part: m_count, and the tokens posted to the kernel semaphore and not yet taken. */
  datatype Core = Core(count: int, posted: nat)

  /** What follows a failed try: give up, or wait (a negative timeout waits for ever, zero not at all). */
  datatype Plan = Stop | Block(timeout: int)

  datatype Pc =
    | Idle
    | TryLoad(max: nat, got: nat, plan: Plan)               // tryWaitMany; got units are already held
    | TryCas(seen: int, max: nat, got: nat, plan: Plan)
    | Spin(spins: nat, max: nat, timeout: int)              // load in the spin loop
    | SpinCas(seen: int, spins: nat, max: nat, timeout: int)
    | Dec(max: nat, timeout: int)                           // fetch_sub
    | Sleep(max: nat, timeout: int)                         // wait on the kernel semaphore
    | Recover(max: nat)                                     // after a timeout: load
    | RecoverTry(max: nat)                                  // try the kernel semaphore
    | RecoverCas(seen: int, max: nat)                        // take the decrement back
    | SigAdd(units: nat)                                    // fetch_add
    | Post(left: nat)                                       // post to the kernel semaphore, left times
    | Done(units: nat)                                      // the call's result

  /** Does a weak compare-exchange fail for no reason? Does a kernel wait end with a token, or fail or time out? */
  datatype Chance = Chance(weak: bool, woken: bool)

  /** The count after a greedy grab of at most max units. */
  function Rest(seen: int, max: nat): int {
    if seen > max then seen - max else 0
  }

  function AfterFailedTry(max: nat, got: nat, plan: Plan, maxSpins: nat): Pc {
    if plan.Stop? || max == 0 then Done(got) else AfterSpin(maxSpins, max, plan.timeout)
  }

  function AfterSpin(spins: nat, max: nat, timeout: int): Pc {
    if spins == 0 then Dec(max, timeout) else Spin(spins, max, timeout)
  }

  function AfterOne(max: nat): Pc {
    if max > 1 then TryLoad(max - 1, 1, Stop) else Done(1)
  }

  /**
   One operation of one thread on the shared part; the same operation drives the
   semaphore on its own (below) and the blocking queue built on it.
   */
  function Advance(c: Core, pc: Pc, chance: Chance, maxSpins: nat): (r: (Core, Pc)) {
    match pc
    case Idle => (c, pc)
    case TryLoad(max, got, plan) =>
      (c, if c.count > 0 then TryCas(c.count, max, got, plan) else AfterFailedTry(max, got, plan, maxSpins))
    case TryCas(seen, max, got, plan) =>
      if c.count == seen && seen > 0 && !chance.weak then (c.(count := Rest(seen, max)), Done(got + (seen - Rest(seen, max))))
      else (c, if c.count > 0 then TryCas(c.count, max, got, plan) else AfterFailedTry(max, got, plan, maxSpins))
    case Spin(spins, max, timeout) =>
      var left := if spins > 0 then spins - 1 else 0;
      (c, if c.count > 0 then SpinCas(c.count, left, max, timeout) else AfterSpin(left, max, timeout))
    case SpinCas(seen, spins, max, timeout) =>
      if c.count == seen && seen > 0 then (c.(count := Rest(seen, max)), Done(seen - Rest(seen, max)))
      else (c, AfterSpin(spins, max, timeout))
    case Dec(max, timeout) =>
      (c.(count := c.count - 1),
       if c.count > 0 then AfterOne(max) else if timeout == 0 then Recover(max) else Sleep(max, timeout))
    case Sleep(max, timeout) =>
      if !chance.woken then (c, Recover(max))
      else if c.posted > 0 then (c.(posted := c.posted - 1), AfterOne(max))
      else (c, pc)
    case Recover(max) => (c, if c.count >= 0 then RecoverTry(max) else RecoverCas(c.count, max))
    case RecoverTry(max) =>
      if c.posted > 0 then (c.(posted := c.posted - 1), AfterOne(max)) else (c, Recover(max))
    case RecoverCas(seen, max) =>
      if c.count == seen then (c.(count := seen + 1), Done(0)) else (c, Recover(max))
    case SigAdd(units) =>
      var release := if -c.count < units then -c.count else units;
      (c.(count := c.count + units), if release > 0 then Post(release) else Done(0))
    case Post(left) => (c.(posted := c.posted + 1), if left > 1 then Post(left - 1) else Done(0))
    case Done(_) => (c, pc)
  }

  // ---------- what one operation keeps ----------

  /** Has the thread decremented the count without having got a unit for it yet? */
  function Waiting(pc: Pc): nat {
    if pc.Sleep? || pc.Recover? || pc.RecoverTry? || pc.RecoverCas? then 1 else 0
  }

  /** Tokens the thread has released and not yet posted. */
  function Unposted(pc: Pc): nat { if pc.Post? then pc.left else 0 }

  /** Units the thread has got in its present call. */
  function Got(pc: Pc): nat {
    if pc.TryLoad? || pc.TryCas? then pc.got else if pc.Done? then pc.units else 0
  }

  /** Units the thread is about to signal. */
  function Unsignalled(pc: Pc): nat { if pc.SigAdd? then pc.units else 0 }

  function Owed(count: int): nat { if count < 0 then -count else 0 }

  /** A place the calls can lead to. */
  predicate Sane(pc: Pc) {
    && (pc.TryCas? ==> pc.seen > 0) && (pc.SpinCas? ==> pc.seen > 0)
    && (pc.TryLoad? && pc.plan.Block? ==> pc.got == 0) && (pc.TryCas? && pc.plan.Block? ==> pc.got == 0)
    && (pc.RecoverCas? ==> pc.seen < 0) && (pc.Post? ==> pc.left > 0)
  }

  /** The call will get no more than `want` units. */
  predicate Within(pc: Pc, want: nat) {
    match pc
    case TryLoad(max, got, _) => got + max <= want
    case TryCas(_, max, got, _) => got + max <= want
    case Spin(_, max, _) => 1 <= max <= want
    case SpinCas(_, _, max, _) => 1 <= max <= want
    case Dec(max, _) => 1 <= max <= want
    case Sleep(max, _) => 1 <= max <= want
    case Recover(max) => 1 <= max <= want
    case RecoverTry(max) => 1 <= max <= want
    case RecoverCas(_, max) => 1 <= max <= want
    case Done(units) => units <= want
    case _ => true
  }

  lemma AdvanceStaysSane(c: Core, pc: Pc, chance: Chance, maxSpins: nat, want: nat)
    requires Sane(pc) && Within(pc, want)
    ensures var pc' := Advance(c, pc, chance, maxSpins).1; Sane(pc') && Within(pc', want)
  {
  }

  /** Waiters are traded against tokens one for one. */
  lemma AdvanceKeepsTokens(c: Core, pc: Pc, chance: Chance, maxSpins: nat)
    requires Sane(pc)
    ensures var (c', pc') := Advance(c, pc, chance, maxSpins);
            Waiting(pc') - c'.posted - Unposted(pc') - Owed(c'.count)
            == Waiting(pc) - c.posted - Unposted(pc) - Owed(c.count)
  {
  }

  /** Units are neither made nor lost. */
  lemma AdvanceKeepsUnits(c: Core, pc: Pc, chance: Chance, maxSpins: nat)
    requires Sane(pc)
    ensures var (c', pc') := Advance(c, pc, chance, maxSpins);
            c'.count + Waiting(pc') + Got(pc') + Unsignalled(pc')
            == c.count + Waiting(pc) + Got(pc) + Unsignalled(pc)
  {
  }

  /** What one operation of one thread keeps. */
  lemma AdvanceKeeps(c: Core, pc: Pc, chance: Chance, maxSpins: nat, want: nat)
    requires Sane(pc) && Within(pc, want)
    ensures var (c', pc') := Advance(c, pc, chance, maxSpins);
            && Sane(pc') && Within(pc', want)
            && Waiting(pc') - c'.posted - Unposted(pc') - Owed(c'.count)
               == Waiting(pc) - c.posted - Unposted(pc) - Owed(c.count)
            && c'.count + Waiting(pc') + Got(pc') + Unsignalled(pc')
               == c.count + Waiting(pc) + Got(pc) + Unsignalled(pc)
  {
    hide Advance, Sane, Within, Waiting, Unposted, Owed, Got, Unsignalled;
    AdvanceStaysSane(c, pc, chance, maxSpins, want);
    AdvanceKeepsTokens(c, pc, chance, maxSpins);
    AdvanceKeepsUnits(c, pc, chance, maxSpins);
  }

  // ---------- the semaphore on its own ----------

  /** `initial`, `signals` (units of all signal calls so far), `taken` (units of completed calls) and `wants` are never read by a step. */
  datatype State = State(
    core: Core,
    maxSpins: nat,
    pcs: seq<Pc>,
    initial: nat,
    signals: nat,
    taken: nat,
    wants: seq<nat>)

  datatype Event =
    | CallTry(t: nat, max: nat)
    | CallWait(t: nat, max: nat, timeout: int)
    | CallSignal(t: nat, units: nat)
    | Go(t: nat, chance: Chance)

  function Init(threads: nat, initial: nat, maxSpins: nat): State {
    State(Core(initial, 0), maxSpins, seq(threads, _ => Idle), initial, 0, 0, seq(threads, _ => 0))
  }

  function Call(s: State, t: nat, pc: Pc, want: nat): State {
    if t < |s.pcs| && t < |s.wants| && s.pcs[t].Idle? then s.(pcs := s.pcs[t := pc], wants := s.wants[t := want]) else s
  }

  function Step(s: State, e: Event): State {
    match e
    case CallTry(t, max) => Call(s, t, TryLoad(max, 0, Stop), max)
    case CallWait(t, max, timeout) => Call(s, t, TryLoad(max, 0, Block(timeout)), max)
    case CallSignal(t, units) =>
      if t < |s.pcs| && s.pcs[t].Idle? then Call(s, t, SigAdd(units), 0).(signals := s.signals + units) else s
    case Go(t, chance) =>
      if t < |s.pcs| then
        if s.pcs[t].Done? then s.(pcs := s.pcs[t := Idle], taken := s.taken + s.pcs[t].units)
        else var (core, pc) := Advance(s.core, s.pcs[t], chance, s.maxSpins); s.(core := core, pcs := s.pcs[t := pc])
      else s
  }

  ghost function Exec(s: State, trace: seq<Event>): (r: State)
    ensures |r.pcs| == |s.pcs| && |r.wants| == |s.wants|
    decreases |trace|
  {
    if trace == [] then s else Step(Exec(s, trace[..|trace| - 1]), trace[|trace| - 1])
  }

  ghost function Run(threads: nat, initial: nat, maxSpins: nat, trace: seq<Event>): (r: State)
    ensures |r.pcs| == threads
  {
    Exec(Init(threads, initial, maxSpins), trace)
  }

  function WaitingOf(): Pc -> int { (pc: Pc) => Waiting(pc) }
  function UnpostedOf(): Pc -> int { (pc: Pc) => Unposted(pc) }
  function GotOf(): Pc -> int { (pc: Pc) => Got(pc) }
  function UnsignalledOf(): Pc -> int { (pc: Pc) => Unsignalled(pc) }

  ghost predicate Inv(s: State) {
    && |s.wants| == |s.pcs|
    && (forall t | 0 <= t < |s.pcs| :: Sane(s.pcs[t]) && Within(s.pcs[t], s.wants[t]))
    && Sum(s.pcs, WaitingOf()) == s.core.posted + Sum(s.pcs, UnpostedOf()) + Owed(s.core.count)
    && s.initial + s.signals
       == s.core.count + Sum(s.pcs, WaitingOf()) + Sum(s.pcs, GotOf()) + Sum(s.pcs, UnsignalledOf()) + s.taken
  }

  lemma Moved(pcs: seq<Pc>, t: nat, pc: Pc)
    requires t < |pcs|
    ensures Sum(pcs[t := pc], WaitingOf()) == Sum(pcs, WaitingOf()) - Waiting(pcs[t]) + Waiting(pc)
    ensures Sum(pcs[t := pc], UnpostedOf()) == Sum(pcs, UnpostedOf()) - Unposted(pcs[t]) + Unposted(pc)
    ensures Sum(pcs[t := pc], GotOf()) == Sum(pcs, GotOf()) - Got(pcs[t]) + Got(pc)
    ensures Sum(pcs[t := pc], UnsignalledOf()) == Sum(pcs, UnsignalledOf()) - Unsignalled(pcs[t]) + Unsignalled(pc)
  {
    SumUpdate(pcs, t, pc, WaitingOf());
    SumUpdate(pcs, t, pc, UnpostedOf());
    SumUpdate(pcs, t, pc, GotOf());
    SumUpdate(pcs, t, pc, UnsignalledOf());
  }

  lemma NoneIdle(pcs: seq<Pc>)
    requires forall pc <- pcs :: pc.Idle?
    ensures Sum(pcs, WaitingOf()) == Sum(pcs, UnpostedOf()) == Sum(pcs, GotOf()) == Sum(pcs, UnsignalledOf()) == 0
  {
    SumBounds(pcs, WaitingOf(), 0);
    SumBounds(pcs, UnpostedOf(), 0);
    SumBounds(pcs, GotOf(), 0);
    SumBounds(pcs, UnsignalledOf(), 0);
  }

  lemma StepInv(s: State, e: Event)
    requires Inv(s)
    ensures Inv(Step(s, e))
  {
    hide Sum, Advance;
    match e
    case CallTry(t, max) => if t < |s.pcs| { Moved(s.pcs, t, TryLoad(max, 0, Stop)); }
    case CallWait(t, max, timeout) => if t < |s.pcs| { Moved(s.pcs, t, TryLoad(max, 0, Block(timeout))); }
    case CallSignal(t, units) => if t < |s.pcs| { Moved(s.pcs, t, SigAdd(units)); }
    case Go(t, chance) =>
      if t < |s.pcs| {
        if s.pcs[t].Done? {
          Moved(s.pcs, t, Idle);
        } else {
          var (core, pc) := Advance(s.core, s.pcs[t], chance, s.maxSpins);
          AdvanceKeeps(s.core, s.pcs[t], chance, s.maxSpins, s.wants[t]);
          Moved(s.pcs, t, pc);
        }
      }
  }

  lemma {:induction false} RunInv(threads: nat, initial: nat, maxSpins: nat, trace: seq<Event>)
    ensures Inv(Run(threads, initial, maxSpins, trace))
    decreases |trace|
  {
    if trace == [] {
      NoneIdle(Init(threads, initial, maxSpins).pcs);
    } else {
      RunInv(threads, initial, maxSpins, trace[..|trace| - 1]);
      StepInv(Run(threads, initial, maxSpins, trace[..|trace| - 1]), trace[|trace| - 1]);
    }
  }

  // ---------- what holds in every run ----------

  /**
   Waiters are matched: by tokens posted, tokens released and about to be posted,
   and what the count still owes. So when the count is not negative every waiter,
   also one that has timed out and is in the recovery loop, has a token posted or
   on its way.
   */
  lemma WaitersAreMatched(threads: nat, initial: nat, maxSpins: nat, trace: seq<Event>)
    ensures var s := Run(threads, initial, maxSpins, trace);
            && Sum(s.pcs, WaitingOf()) == s.core.posted + Sum(s.pcs, UnpostedOf()) + Owed(s.core.count)
            && (s.core.count >= 0 ==> Sum(s.pcs, WaitingOf()) == s.core.posted + Sum(s.pcs, UnpostedOf()))
  {
    RunInv(threads, initial, maxSpins, trace);
  }

  /** Units are conserved, and those acquired never exceed the initial ones and those signalled. */
  lemma UnitsAreConserved(threads: nat, initial: nat, maxSpins: nat, trace: seq<Event>)
    ensures var s := Run(threads, initial, maxSpins, trace);
            var acquired := s.taken + Sum(s.pcs, GotOf());
            && s.initial == initial
            && initial + s.signals == acquired + s.core.count + Sum(s.pcs, WaitingOf()) + Sum(s.pcs, UnsignalledOf())
            && acquired + Sum(s.pcs, UnsignalledOf()) <= initial + s.signals
  {
    var s := Run(threads, initial, maxSpins, trace);
    RunInv(threads, initial, maxSpins, trace);
    SumBounds(s.pcs, UnpostedOf(), 0);
    InitialStays(threads, initial, maxSpins, trace);
  }

  lemma {:induction false} InitialStays(threads: nat, initial: nat, maxSpins: nat, trace: seq<Event>)
    ensures Run(threads, initial, maxSpins, trace).initial == initial
    decreases |trace|
  {
    if trace != [] { InitialStays(threads, initial, maxSpins, trace[..|trace| - 1]); }
  }

  /** A call gets at most what it asked for. */
  lemma NeverTooMany(threads: nat, initial: nat, maxSpins: nat, trace: seq<Event>, t: nat)
    requires t < threads
    ensures var s := Run(threads, initial, maxSpins, trace); |s.wants| == threads && (s.pcs[t].Done? ==> s.pcs[t].units <= s.wants[t])
  {
    RunInv(threads, initial, maxSpins, trace);
  }

  /** With no call under way there are no stray tokens: the count alone is the number of units left. */
  lemma QuiescentIsExact(threads: nat, initial: nat, maxSpins: nat, trace: seq<Event>)
    requires forall t | 0 <= t < threads :: Run(threads, initial, maxSpins, trace).pcs[t].Idle?
    ensures var s := Run(threads, initial, maxSpins, trace);
            s.core.posted == 0 && s.core.count >= 0 && s.core.count == initial + s.signals - s.taken
  {
    var s := Run(threads, initial, maxSpins, trace);
    RunInv(threads, initial, maxSpins, trace);
    InitialStays(threads, initial, maxSpins, trace);
    NoneIdle(s.pcs);
  }

  /**
   A timed-out waiter left to itself leaves the recovery loop within two
   operations, unless a signaller has still to post what it released: with a unit
   if the count says it was signalled, with its decrement taken back otherwise.
   */
  lemma RecoveryEnds(threads: nat, initial: nat, maxSpins: nat, trace: seq<Event>, t: nat, chance: Chance)
    requires t < threads && Run(threads, initial, maxSpins, trace).pcs[t].Recover?
    requires Sum(Run(threads, initial, maxSpins, trace).pcs, UnpostedOf()) == 0
    ensures var s := Run(threads, initial, maxSpins, trace);
            var r := Step(Step(s, Go(t, chance)), Go(t, chance));
            && !r.pcs[t].Recover? && Waiting(r.pcs[t]) == 0
            && (s.core.count >= 0 ==> Got(r.pcs[t]) == 1 && r.core == s.core.(posted := s.core.posted - 1))
            && (s.core.count < 0 ==> r.pcs[t] == Done(0) && r.core == s.core.(count := s.core.count + 1))
  {
    var s := Run(threads, initial, maxSpins, trace);
    RunInv(threads, initial, maxSpins, trace);
    SumBounds(s.pcs, WaitingOf(), 1);
    SumAtLeast(s.pcs, t, WaitingOf());
  }

  // ---------- what a blocking wait returns ----------

  /**
   The call that trace[from] begins, waiting for ever, for thread t: begun when t was
   idle, not yet returned at the end of the trace, and none of its waits on the
   kernel semaphore has failed.
   */
  ghost predicate Undisturbed(threads: nat, initial: nat, maxSpins: nat, trace: seq<Event>, from: nat, t: nat, max: nat) {
    && t < threads && from < |trace|
    && trace[from].CallWait? && trace[from].t == t && trace[from].max == max && trace[from].timeout < 0
    && Run(threads, initial, maxSpins, trace[..from]).pcs[t].Idle?
    && forall k | from < k < |trace| && trace[k].Go? && trace[k].t == t ::
         var pc := Run(threads, initial, maxSpins, trace[..k]).pcs[t]; !pc.Done? && (pc.Sleep? ==> trace[k].chance.woken)
  }

  /** Where such a call for max units can be. */
  predicate Blocking(pc: Pc, max: nat) {
    match pc
    case TryLoad(m, got, plan) => if plan.Block? then plan.timeout < 0 && m == max && got == 0 else got > 0 && max > 0
    case TryCas(seen, m, got, plan) => seen > 0 && if plan.Block? then plan.timeout < 0 && m == max && got == 0 else got > 0 && max > 0
    case Spin(_, m, timeout) => timeout < 0 && m == max > 0
    case SpinCas(seen, _, m, timeout) => seen > 0 && timeout < 0 && m == max > 0
    case Dec(m, timeout) => timeout < 0 && m == max > 0
    case Sleep(m, timeout) => timeout < 0 && m == max > 0
    case Done(units) => units > 0 <==> max > 0
    case _ => false
  }

  lemma AdvanceBlocking(c: Core, pc: Pc, chance: Chance, maxSpins: nat, max: nat)
    requires Blocking(pc, max) && !pc.Done? && (pc.Sleep? ==> chance.woken)
    ensures Blocking(Advance(c, pc, chance, maxSpins).1, max)
  {
  }

  /** Another event than an operation of t leaves a call of t where it is. */
  lemma OtherEvent(s: State, e: Event, t: nat)
    requires t < |s.pcs| && !s.pcs[t].Idle? && !(e.Go? && e.t == t)
    ensures Step(s, e).pcs[t] == s.pcs[t]
  {
    hide Advance;
  }

  /**
   `waitMany` without a timeout promises a positive number. In every run a call that
   waits for ever, and none of whose kernel waits fails, never enters the recovery
   loop, and when it is done it has got something if and only if it asked for
   something: the promise is kept exactly for max > 0.
   */
  lemma {:induction false} BlockingWaitGets(threads: nat, initial: nat, maxSpins: nat, trace: seq<Event>, from: nat, t: nat, max: nat)
    requires Undisturbed(threads, initial, maxSpins, trace, from, t, max)
    ensures var pc := Run(threads, initial, maxSpins, trace).pcs[t];
            && Blocking(pc, max) && !pc.Recover? && !pc.RecoverTry? && !pc.RecoverCas?
            && (pc.Done? ==> (pc.units > 0 <==> max > 0))
    decreases |trace|
  {
    hide Advance;
    var before, e := trace[..|trace| - 1], trace[|trace| - 1];
    var s := Run(threads, initial, maxSpins, before);
    RunInv(threads, initial, maxSpins, before);
    if |trace| == from + 1 {
      assert Run(threads, initial, maxSpins, trace).pcs[t] == TryLoad(max, 0, Block(e.timeout));
    } else {
      assert before[..from] == trace[..from];
      assert forall k | from < k < |before| :: before[..k] == trace[..k];
      BlockingWaitGets(threads, initial, maxSpins, before, from, t, max);
      if e.Go? && e.t == t {
        assert trace[..|trace| - 1] == before;
        AdvanceBlocking(s.core, s.pcs[t], e.chance, s.maxSpins, max);
      } else {
        OtherEvent(s, e, t);
      }
    }
  }

  const Lucky: Chance := Chance(false, true)
  const Unlucky: Chance := Chance(false, false)

  /** A run of one call of one thread. */
  lemma {:induction false} Unrolled(initial: nat, maxSpins: nat, trace: seq<Event>, states: seq<State>, n: nat)
    requires n <= |trace| && |states| == |trace| + 1 && states[0] == Init(1, initial, maxSpins)
    requires forall i | 0 <= i < |trace| :: states[i + 1] == Step(states[i], trace[i])
    ensures Run(1, initial, maxSpins, trace[..n]) == states[n] && trace[..|trace|] == trace
  {
    hide Step;
    if n > 0 {
      Unrolled(initial, maxSpins, trace, states, n - 1);
      assert trace[..n][..n - 1] == trace[..n - 1];
      assert states[n - 1 + 1] == Step(states[n - 1], trace[n - 1]);
    }
  }

  /** A wait for no units. */
  function EmptyWait(): seq<Event> { [CallWait(0, 0, -1), Go(0, Lucky), Go(0, Lucky)] }

  /** Asking for nothing gets nothing: the assertion fails for max = 0, however many units there are. */
  lemma NothingForNothing(initial: nat, maxSpins: nat)
    requires initial > 0
    ensures Run(1, initial, maxSpins, EmptyWait()).pcs == [Done(0)]
  {
    hide Run;
    var tr := EmptyWait();
    var s0 := Init(1, initial, maxSpins);
    var s1 := Step(s0, tr[0]);
    assert s1.pcs == [TryLoad(0, 0, Block(-1))];
    var s2 := Step(s1, tr[1]);
    assert s2.pcs == [TryCas(initial, 0, 0, Block(-1))];
    var s3 := Step(s2, tr[2]);
    assert s3.pcs == [Done(0)];
    Unrolled(initial, maxSpins, tr, [s0, s1, s2, s3], 3);
  }

  /** A wait whose one wait on the kernel semaphore fails: load, subtract, wait, load, take back. */
  function FailedWait(max: nat): seq<Event> {
    [CallWait(0, max, -1), Go(0, Lucky), Go(0, Lucky), Go(0, Unlucky), Go(0, Lucky), Go(0, Lucky)]
  }

  /**
   The condition on the kernel is needed: for every max > 0, if nothing is available
   and the kernel wait fails, a wait for ever returns without a unit.
   */
  lemma FailedWaitGetsNothing(max: nat)
    requires max > 0
    ensures Run(1, 0, 0, FailedWait(max)).pcs == [Done(0)]
  {
    hide Run;
    var tr := FailedWait(max);
    var s0 := Init(1, 0, 0);
    var s1 := Step(s0, tr[0]);
    assert s1.pcs == [TryLoad(max, 0, Block(-1))];
    var s2 := Step(s1, tr[1]);
    assert s2.pcs == [Dec(max, -1)];
    var s3 := Step(s2, tr[2]);
    assert s3.pcs == [Sleep(max, -1)] && s3.core == Core(-1, 0);
    var s4 := Step(s3, tr[3]);
    assert s4.pcs == [Recover(max)] && s4.core == Core(-1, 0);
    var s5 := Step(s4, tr[4]);
    assert s5.pcs == [RecoverCas(-1, max)] && s5.core == Core(-1, 0);
    var s6 := Step(s5, tr[5]);
    assert s6.pcs == [Done(0)];
    Unrolled(0, 0, tr, [s0, s1, s2, s3, s4, s5, s6], 6);
  }

  // ---------- what a greedy grab takes ----------

  function Smaller(a: int, b: int): int { if a < b then a else b }

  /**
   A compare-exchange that succeeds takes as many units as it may: all that the call
   still wants, or all there are. This is so in the try loop and in the spin loop.
   */
  lemma GrabsAllItMay(c: Core, pc: Pc, chance: Chance, maxSpins: nat)
    requires pc.TryCas? || pc.SpinCas?
    requires c.count == pc.seen > 0 && (pc.TryCas? ==> !chance.weak)
    ensures var n := Smaller(pc.max, c.count); var (c', pc') := Advance(c, pc, chance, maxSpins);
            && c' == c.(count := c.count - n)
            && pc' == Done((if pc.TryCas? then pc.got else 0) + n)
  {
  }

  /** The call of `tryWaitMany` for max units that trace[from] begins for thread t has not returned. */
  ghost predicate Trying(threads: nat, initial: nat, maxSpins: nat, trace: seq<Event>, from: nat, t: nat, max: nat) {
    && t < threads && from < |trace| && trace[from] == CallTry(t, max)
    && Run(threads, initial, maxSpins, trace[..from]).pcs[t].Idle?
    && forall k | from < k <= |trace| :: !Run(threads, initial, maxSpins, trace[..k]).pcs[t].Done?
  }

  /** Where such a call is before it returns. */
  predicate InTry(pc: Pc, max: nat) {
    match pc
    case TryLoad(m, got, plan) => m == max && got == 0 && plan.Stop?
    case TryCas(seen, m, got, plan) => seen > 0 && m == max && got == 0 && plan.Stop?
    case _ => false
  }

  lemma RunMore(threads: nat, initial: nat, maxSpins: nat, trace: seq<Event>, e: Event)
    ensures Run(threads, initial, maxSpins, trace + [e]) == Step(Run(threads, initial, maxSpins, trace), e)
  {
    assert (trace + [e])[..|trace|] == trace;
  }

  lemma {:induction false} StaysInTry(threads: nat, initial: nat, maxSpins: nat, trace: seq<Event>, from: nat, t: nat, max: nat)
    requires Trying(threads, initial, maxSpins, trace, from, t, max)
    ensures InTry(Run(threads, initial, maxSpins, trace).pcs[t], max)
    decreases |trace|
  {
    hide Run, Step;
    var before, e := trace[..|trace| - 1], trace[|trace| - 1];
    assert trace == before + [e] && trace[..|trace|] == trace;
    RunMore(threads, initial, maxSpins, before, e);
    var s := Run(threads, initial, maxSpins, before);
    RunInv(threads, initial, maxSpins, before);
    if |trace| == from + 1 {
      CallsTry(s, t, max);
    } else {
      assert before[..from] == trace[..from];
      assert forall k | from < k <= |before| :: before[..k] == trace[..k];
      StaysInTry(threads, initial, maxSpins, before, from, t, max);
      TryStep(s, e, t, max);
    }
  }

  lemma CallsTry(s: State, t: nat, max: nat)
    requires t < |s.pcs| == |s.wants| && s.pcs[t].Idle?
    ensures Step(s, CallTry(t, max)).pcs == s.pcs[t := TryLoad(max, 0, Stop)] && Step(s, CallTry(t, max)).core == s.core
  {
  }

  lemma TryStep(s: State, e: Event, t: nat, max: nat)
    requires t < |s.pcs| && InTry(s.pcs[t], max)
    ensures |Step(s, e).pcs| == |s.pcs|
    ensures var pc := Step(s, e).pcs[t];
            && (InTry(pc, max) || pc.Done?)
            && (pc.Done? ==> var n := if s.core.count > 0 then Smaller(max, s.core.count) else 0;
                             pc == Done(n) && Step(s, e).core == s.core.(count := s.core.count - n))
  {
    if !(e.Go? && e.t == t) {
      OtherEvent(s, e, t);
    }
  }

  /**
   In every interleaving `tryWaitMany(max)` returns exactly the smaller of max and the
   count it finds at its last operation, and takes it; nothing only if that count is
   not positive (or max is 0).
   */
  lemma TryReturns(threads: nat, initial: nat, maxSpins: nat, trace: seq<Event>, from: nat, t: nat, max: nat, e: Event)
    requires Trying(threads, initial, maxSpins, trace, from, t, max)
    requires Run(threads, initial, maxSpins, trace + [e]).pcs[t].Done?
    ensures var s := Run(threads, initial, maxSpins, trace); var r := Run(threads, initial, maxSpins, trace + [e]);
            var n := if s.core.count > 0 then Smaller(max, s.core.count) else 0;
            r.pcs[t] == Done(n) && r.core == s.core.(count := s.core.count - n)
  {
    hide Run, Step;
    StaysInTry(threads, initial, maxSpins, trace, from, t, max);
    RunMore(threads, initial, maxSpins, trace, e);
    TryStep(Run(threads, initial, maxSpins, trace), e, t, max);
  }

  /** Run alone it takes at most two operations, whatever calls of others are under way. */
  lemma TryAlone(threads: nat, initial: nat, maxSpins: nat, trace: seq<Event>, t: nat, max: nat)
    requires t < threads && Run(threads, initial, maxSpins, trace).pcs[t].Idle?
    ensures var s := Run(threads, initial, maxSpins, trace);
            var r := Run(threads, initial, maxSpins, trace + [CallTry(t, max), Go(t, Lucky)]);
            var q := Run(threads, initial, maxSpins, trace + [CallTry(t, max), Go(t, Lucky), Go(t, Lucky)]);
            if s.core.count > 0 then
              var n := Smaller(max, s.core.count);
              q.pcs == s.pcs[t := Done(n)] && q.core == s.core.(count := s.core.count - n)
            else r.pcs == s.pcs[t := Done(0)] && r.core == s.core
  {
    hide Run;
    var s := Run(threads, initial, maxSpins, trace);
    var call, go := CallTry(t, max), Go(t, Lucky);
    RunInv(threads, initial, maxSpins, trace);
    RunMore(threads, initial, maxSpins, trace, call);
    RunMore(threads, initial, maxSpins, trace + [call], go);
    RunMore(threads, initial, maxSpins, trace + [call] + [go], go);
    assert trace + [call, go] == trace + [call] + [go];
    assert trace + [call, go, go] == trace + [call] + [go] + [go];
    TryOperations(s, t, max);
  }

  lemma TryOperations(s: State, t: nat, max: nat)
    requires t < |s.pcs| == |s.wants| && s.pcs[t].Idle?
    ensures var r := Step(Step(s, CallTry(t, max)), Go(t, Lucky)); var q := Step(r, Go(t, Lucky));
            if s.core.count > 0 then
              var n := Smaller(max, s.core.count);
              q.pcs == s.pcs[t := Done(n)] && q.core == s.core.(count := s.core.count - n)
            else r.pcs == s.pcs[t := Done(0)] && r.core == s.core
  {
    CallsTry(s, t, max);
    var s1 := Step(s, CallTry(t, max));
    var r := Step(s1, Go(t, Lucky));
    assert r.core == s.core;
    if s.core.count > 0 {
      assert r.pcs == s.pcs[t := TryCas(s.core.count, max, 0, Stop)];
    }
  }

  /** What a call has got and what it still asks for make up what it wants. */
  predicate Asking(pc: Pc, want: nat) {
    match pc
    case TryLoad(max, got, _) => got + max == want
    case TryCas(_, max, got, _) => got + max == want
    case Spin(_, max, _) => max == want
    case SpinCas(_, _, max, _) => max == want
    case Dec(max, _) => max == want
    case Sleep(max, _) => max == want
    case Recover(max) => max == want
    case RecoverTry(max) => max == want
    case RecoverCas(_, max) => max == want
    case SigAdd(_) => want == 0
    case Post(_) => want == 0
    case _ => true
  }

  lemma AdvanceAsks(c: Core, pc: Pc, chance: Chance, maxSpins: nat, want: nat)
    requires Sane(pc) && Within(pc, want) && Asking(pc, want)
    ensures var (c', pc') := Advance(c, pc, chance, maxSpins);
            && Asking(pc', want)
            && (pc'.Done? && !pc.Done? && pc'.units < want ==> c'.count <= 0)
  {
  }

  lemma StepAsks(s: State, e: Event, t: nat)
    requires Inv(s) && t < |s.pcs| && Asking(s.pcs[t], s.wants[t])
    ensures var r := Step(s, e);
            && t < |r.pcs| && t < |r.wants| && Asking(r.pcs[t], r.wants[t])
            && (!s.pcs[t].Done? && r.pcs[t].Done? && r.pcs[t].units < r.wants[t] ==> r.core.count <= 0)
  {
    hide Advance, Asking, Sum;
    assert Sane(s.pcs[t]) && Within(s.pcs[t], s.wants[t]);
    CallsAsk();
    if e.Go? && e.t == t && !s.pcs[t].Done? {
      AdvanceAsks(s.core, s.pcs[t], e.chance, s.maxSpins, s.wants[t]);
    }
  }

  lemma CallsAsk()
    ensures forall max: nat, plan :: Asking(TryLoad(max, 0, plan), max)
    ensures forall units: nat :: Asking(SigAdd(units), 0)
    ensures forall want: nat :: Asking(Idle, want)
  {
  }

  lemma {:induction false} RunAsks(threads: nat, initial: nat, maxSpins: nat, trace: seq<Event>, t: nat)
    requires t < threads
    ensures var s := Run(threads, initial, maxSpins, trace); t < |s.wants| && Asking(s.pcs[t], s.wants[t])
    decreases |trace|
  {
    hide Step, Asking;
    RunInv(threads, initial, maxSpins, trace);
    if trace == [] {
      CallsAsk();
    } else {
      var before := trace[..|trace| - 1];
      RunAsks(threads, initial, maxSpins, before, t);
      RunInv(threads, initial, maxSpins, before);
      StepAsks(Run(threads, initial, maxSpins, before), trace[|trace| - 1], t);
    }
  }

  /**
   In every interleaving a call, trying, waiting or timed, returns with fewer units
   than it asked for only if its last operation leaves none to be had.
   */
  lemma LessOnlyIfNoneLeft(threads: nat, initial: nat, maxSpins: nat, trace: seq<Event>, t: nat, e: Event)
    requires t < threads && !Run(threads, initial, maxSpins, trace).pcs[t].Done?
    requires Run(threads, initial, maxSpins, trace + [e]).pcs[t].Done?
    ensures var r := Run(threads, initial, maxSpins, trace + [e]);
            |r.wants| == threads && (r.pcs[t].units < r.wants[t] ==> r.core.count <= 0)
  {
    hide Run, Step, Asking;
    RunInv(threads, initial, maxSpins, trace);
    RunAsks(threads, initial, maxSpins, trace, t);
    RunMore(threads, initial, maxSpins, trace, e);
    StepAsks(Run(threads, initial, maxSpins, trace), e, t);
    NeverTooMany(threads, initial, maxSpins, trace + [e], t);
  }

  /** A thread's next n operations on an unchanging shared part. */
  function Onward(c: Core, pc: Pc, maxSpins: nat, n: nat): (Core, Pc) {
    if n == 0 then (c, pc)
    else
      var (c', pc') := Onward(c, pc, maxSpins, n - 1);
      Advance(c', pc', Lucky, maxSpins)
  }

  /** A waiter that finds no units runs its spins down. */
  lemma {:induction false} WaiterQueuesUp(c: Core, max: nat, timeout: int, maxSpins: nat, n: nat)
    requires c.count <= 0 && max > 0 && n <= maxSpins
    ensures Onward(c, TryLoad(max, 0, Block(timeout)), maxSpins, n + 1) == (c, AfterSpin(maxSpins - n, max, timeout))
    decreases n
  {
    if n > 0 { WaiterQueuesUp(c, max, timeout, maxSpins, n - 1); }
  }

  /** Then it queues up: it subtracts one and waits, or, if it may not wait, tries to recover. */
  lemma WaitAlone(c: Core, max: nat, timeout: int, maxSpins: nat)
    requires c.count <= 0 && max > 0
    ensures Onward(c, TryLoad(max, 0, Block(timeout)), maxSpins, maxSpins + 2)
            == (c.(count := c.count - 1), if timeout == 0 then Recover(max) else Sleep(max, timeout))
  {
    WaiterQueuesUp(c, max, timeout, maxSpins, maxSpins);
    assert Onward(c, TryLoad(max, 0, Block(timeout)), maxSpins, maxSpins + 1) == (c, Dec(max, timeout));
  }

  /** In every run a call that may not wait (timeout 0, or a mere try) never waits on the kernel semaphore. */
  lemma {:induction false} SleepsOnlyWithTime(threads: nat, initial: nat, maxSpins: nat, trace: seq<Event>, t: nat)
    requires t < threads
    ensures var pc := Run(threads, initial, maxSpins, trace).pcs[t]; pc.Sleep? ==> pc.timeout != 0
    decreases |trace|
  {
    hide Advance;
    if trace != [] {
      var before, e := trace[..|trace| - 1], trace[|trace| - 1];
      SleepsOnlyWithTime(threads, initial, maxSpins, before, t);
      var s := Run(threads, initial, maxSpins, before);
      if e.Go? && e.t == t { AdvanceSleeps(s.core, s.pcs[t], e.chance, s.maxSpins); }
    }
  }

  lemma AdvanceSleeps(c: Core, pc: Pc, chance: Chance, maxSpins: nat)
    requires pc.Sleep? ==> pc.timeout != 0
    ensures var pc' := Advance(c, pc, chance, maxSpins).1; pc'.Sleep? ==> pc'.timeout != 0
  {
  }

  /** `signal` run alone: its units are available, and as many tokens are posted as waiters are owed. */
  lemma SignalAdds(c: Core, units: nat, chance: Chance, maxSpins: nat)
    ensures var (c', pc') := Advance(c, SigAdd(units), chance, maxSpins);
            && c' == c.(count := c.count + units)
            && pc' == if c.count < 0 < units then Post(Smaller(-c.count, units)) else Done(0)
  {
  }
}
