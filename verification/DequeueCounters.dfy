/**
 The four counters by which any number of consumers share one explicit producer
 of the concurrent queue: `tailIndex`, `headIndex`, `dequeueOptimisticCount` and
 `dequeueOvercommit`. One atomic operation a step, any interleaving, counters as
 unbounded integers (the source compares them modulo the index width).
 */
module DequeueCounters {
  import opened Counting

  datatype Pc =
    | Idle                             // between calls; calling `dequeue` loads tailIndex
    | LoadOver(tail: nat)              // load dequeueOvercommit
    | TestOptimistic(tail: nat, over: nat)   // load dequeueOptimisticCount, compare
    | BumpOptimistic(over: nat)        // fetch_add on dequeueOptimisticCount
    | ReloadTail(over: nat, my: nat)   // load tailIndex again, compare
    | BumpHead(my: nat)                // fetch_add on headIndex
    | BumpOver(my: nat)                // fetch_add on dequeueOvercommit
    | Claimed(index: nat)              // owns the element at index

  datatype Fate =
    | Open(t: nat)     // drew its count, has not compared yet
    | Won              // will claim, or has claimed, an index
    | Lost(t: nat)     // will add to the overcommit
    | Counted          // has added to the overcommit

  /**
   Two fields record history and are never read by a step: `claimants[i]` is the
   thread that claimed index i, and `fate[m]` says what became of the attempt that
   drew the optimistic count m.
   */
  datatype State = State(
    tail: nat,
    head: nat,
    optimistic: nat,
    over: nat,
    pcs: seq<Pc>,
    claimants: seq<nat>,
    fate: seq<Fate>)

  /** The producer publishes one more element, a consumer starts `dequeue`, or a consumer performs one operation. */
  datatype Event = Enqueue | CallDequeue(t: nat) | Go(t: nat)

  function Init(threads: nat): State {
    State(0, 0, 0, 0, seq(threads, _ => Idle), [], [])
  }

  function Goto(s: State, t: nat, pc: Pc): State
    requires t < |s.pcs|
  {
    s.(pcs := s.pcs[t := pc])
  }

  function StepGo(s: State, t: nat): State
    requires t < |s.pcs|
  {
    match s.pcs[t]
    case Idle => s
    case LoadOver(tail) =>
      Goto(s, t, TestOptimistic(tail, s.over))
    case TestOptimistic(tail, over) =>
      if s.optimistic - over < tail then Goto(s, t, BumpOptimistic(over)) else Goto(s, t, Idle)
    case BumpOptimistic(over) =>
      Goto(s.(optimistic := s.optimistic + 1, fate := s.fate + [Open(t)]), t, ReloadTail(over, s.optimistic))
    case ReloadTail(over, my) =>
      if my - over < s.tail then Goto(Decide(s, my, Won), t, BumpHead(my))
      else Goto(Decide(s, my, Lost(t)), t, BumpOver(my))
    case BumpHead(my) =>
      Goto(s.(head := s.head + 1, claimants := s.claimants + [t]), t, Claimed(s.head))
    case BumpOver(my) =>
      Goto(Decide(s.(over := s.over + 1), my, Counted), t, Idle)
    case Claimed(_) =>
      Goto(s, t, Idle)
  }

  function Decide(s: State, my: nat, f: Fate): State {
    s.(fate := if my < |s.fate| then s.fate[my := f] else s.fate)
  }

  function Step(s: State, e: Event): State {
    match e
    case Enqueue => s.(tail := s.tail + 1)
    case CallDequeue(t) => if t < |s.pcs| && s.pcs[t].Idle? then Goto(s, t, LoadOver(s.tail)) else s
    case Go(t) => if t < |s.pcs| then StepGo(s, t) else s
  }

  ghost function Exec(s: State, trace: seq<Event>): (r: State)
    ensures |r.pcs| == |s.pcs|
    decreases |trace|
  {
    if trace == [] then s else Step(Exec(s, trace[..|trace| - 1]), trace[|trace| - 1])
  }

  // ---------- the invariant ----------

  function IsWon(): Fate -> int { (f: Fate) => if f.Won? then 1 else 0 }

  function IsCounted(): Fate -> int { (f: Fate) => if f.Counted? then 1 else 0 }

  /** Is the thread between its fetch_add on the optimistic count and its second one? */
  function IsBetween(): Pc -> int {
    (pc: Pc) => if pc.ReloadTail? || pc.BumpHead? || pc.BumpOver? then 1 else 0
  }

  function IsBumpingHead(): Pc -> int { (pc: Pc) => if pc.BumpHead? then 1 else 0 }

  /** How many of the first n attempts have been added to the overcommit. */
  ghost function CountedBefore(fate: seq<Fate>, n: nat): int
    requires n <= |fate|
  {
    Sum(fate[..n], IsCounted())
  }

  ghost predicate ThreadInv(s: State, t: nat)
    requires t < |s.pcs|
  {
    match s.pcs[t]
    case TestOptimistic(_, over) => over <= s.over
    case BumpOptimistic(over) => over <= s.over
    case ReloadTail(over, my) => my < |s.fate| && s.fate[my] == Open(t) && over <= CountedBefore(s.fate, my)
    case BumpHead(my) => my < |s.fate| && s.fate[my] == Won
    case BumpOver(my) => my < |s.fate| && s.fate[my] == Lost(t)
    case Claimed(i) => i < |s.claimants| && s.claimants[i] == t
    case _ => true
  }

  /** Up to and including a winner, the attempts not yet known to be losers fit below the tail. */
  ghost predicate WinnersFit(fate: seq<Fate>, tail: nat) {
    forall m: nat | m < |fate| && fate[m].Won? :: m + 1 - CountedBefore(fate, m + 1) <= tail
  }

  ghost predicate Inv(s: State) {
    && s.optimistic == |s.fate|
    && s.head == |s.claimants|
    && s.over == CountedBefore(s.fate, |s.fate|)
    && s.optimistic == s.head + s.over + Sum(s.pcs, IsBetween())
    && Sum(s.fate, IsWon()) == s.head + Sum(s.pcs, IsBumpingHead())
    && WinnersFit(s.fate, s.tail)
    && forall t | 0 <= t < |s.pcs| :: ThreadInv(s, t)
  }

  lemma {:induction false} WonAndCounted(fate: seq<Fate>)
    ensures Sum(fate, IsWon()) + Sum(fate, IsCounted()) <= |fate|
  {
    if |fate| > 0 {
      WonAndCounted(fate[..|fate| - 1]);
    }
  }

  /** The attempts that win never outnumber the elements published. */
  lemma {:induction false} WinnersBelowTail(fate: seq<Fate>, n: nat, tail: nat)
    requires n <= |fate| && WinnersFit(fate, tail)
    ensures Sum(fate[..n], IsWon()) <= tail
  {
    if n > 0 {
      assert fate[..n][..n - 1] == fate[..n - 1];
      if fate[n - 1].Won? {
        WonAndCounted(fate[..n]);
      } else {
        WinnersBelowTail(fate, n - 1, tail);
      }
    }
  }

  /** Changing the fate of attempt k changes the counts of exactly the prefixes that contain k. */
  lemma CountedUpdate(fate: seq<Fate>, k: nat, f: Fate, n: nat)
    requires k < |fate| && n <= |fate| && !fate[k].Counted?
    ensures CountedBefore(fate[k := f], n) == CountedBefore(fate, n) + (if k < n && f.Counted? then 1 else 0)
  {
    if k < n {
      assert fate[k := f][..n] == fate[..n][k := f];
      SumUpdate(fate[..n], k, f, IsCounted());
    } else {
      assert fate[k := f][..n] == fate[..n];
    }
  }

  lemma CountedAppend(fate: seq<Fate>, f: Fate, n: nat)
    requires n <= |fate|
    ensures CountedBefore(fate + [f], n) == CountedBefore(fate, n)
  {
    assert (fate + [f])[..n] == fate[..n];
  }

  lemma InitInv(threads: nat)
    ensures Inv(Init(threads))
  {
    SumBounds(Init(threads).pcs, IsBetween(), 0);
    SumBounds(Init(threads).pcs, IsBumpingHead(), 0);
  }

  /** The thread sums after one thread moves. */
  lemma Moved(s: State, t: nat, pc: Pc)
    requires t < |s.pcs|
    ensures Sum(s.pcs[t := pc], IsBetween()) == Sum(s.pcs, IsBetween()) - IsBetween()(s.pcs[t]) + IsBetween()(pc)
    ensures Sum(s.pcs[t := pc], IsBumpingHead()) == Sum(s.pcs, IsBumpingHead()) - IsBumpingHead()(s.pcs[t]) + IsBumpingHead()(pc)
  {
    SumUpdate(s.pcs, t, pc, IsBetween());
    SumUpdate(s.pcs, t, pc, IsBumpingHead());
  }

  lemma BumpOptimisticInv(s: State, t: nat)
    requires Inv(s) && t < |s.pcs| && s.pcs[t].BumpOptimistic?
    ensures Inv(StepGo(s, t))
  {
    var s' := StepGo(s, t);
    Moved(s, t, s'.pcs[t]);
    assert s'.fate[..|s.fate|] == s.fate == s.fate[..|s.fate|];
    assert s'.fate[..|s'.fate|] == s'.fate;
    forall n: nat | n <= |s.fate| ensures CountedBefore(s'.fate, n) == CountedBefore(s.fate, n) {
      CountedAppend(s.fate, Open(t), n);
    }
    forall u | 0 <= u < |s.pcs| ensures ThreadInv(s', u) {
      assert ThreadInv(s, u);
    }
  }

  lemma CountedNext(fate: seq<Fate>, n: nat)
    requires n < |fate| && !fate[n].Counted?
    ensures CountedBefore(fate, n + 1) == CountedBefore(fate, n)
  {
    assert fate[..n + 1][..n] == fate[..n];
  }

  lemma DecideInv(s: State, t: nat)
    requires Inv(s) && t < |s.pcs| && s.pcs[t].ReloadTail?
    ensures Inv(StepGo(s, t))
  {
    hide Sum, CountedBefore;
    var s' := StepGo(s, t);
    var my := s.pcs[t].my;
    assert ThreadInv(s, t);
    Moved(s, t, s'.pcs[t]);
    SumUpdate(s.fate, my, s'.fate[my], IsWon());
    forall n: nat | n <= |s.fate| ensures CountedBefore(s'.fate, n) == CountedBefore(s.fate, n) {
      CountedUpdate(s.fate, my, s'.fate[my], n);
    }
    CountedNext(s.fate, my);
    forall u | 0 <= u < |s.pcs| ensures ThreadInv(s', u) {
      assert ThreadInv(s, u);
    }
  }

  lemma BumpOverInv(s: State, t: nat)
    requires Inv(s) && t < |s.pcs| && s.pcs[t].BumpOver?
    ensures Inv(StepGo(s, t))
  {
    var s' := StepGo(s, t);
    var my := s.pcs[t].my;
    assert ThreadInv(s, t);
    Moved(s, t, Idle);
    SumUpdate(s.fate, my, Counted, IsWon());
    forall n: nat | n <= |s.fate|
      ensures CountedBefore(s'.fate, n) == CountedBefore(s.fate, n) + (if my < n then 1 else 0)
    {
      CountedUpdate(s.fate, my, Counted, n);
    }
    forall u | 0 <= u < |s.pcs| ensures ThreadInv(s', u) {
      assert ThreadInv(s, u);
    }
  }

  lemma OtherInv(s: State, t: nat)
    requires Inv(s) && t < |s.pcs|
    requires !s.pcs[t].BumpOptimistic? && !s.pcs[t].ReloadTail? && !s.pcs[t].BumpOver?
    ensures Inv(StepGo(s, t))
  {
    hide Sum, CountedBefore;
    var s' := StepGo(s, t);
    Moved(s, t, s'.pcs[t]);
    forall u | 0 <= u < |s.pcs| ensures ThreadInv(s', u) {
      assert ThreadInv(s, u);
    }
  }

  lemma StepInv(s: State, e: Event)
    requires Inv(s)
    ensures Inv(Step(s, e))
  {
    match e
    case Enqueue =>
      forall u | 0 <= u < |s.pcs| ensures ThreadInv(Step(s, e), u) { assert ThreadInv(s, u); }
    case CallDequeue(t) =>
      if t < |s.pcs| && s.pcs[t].Idle? {
        Moved(s, t, LoadOver(s.tail));
        forall u | 0 <= u < |s.pcs| ensures ThreadInv(Step(s, e), u) { assert ThreadInv(s, u); }
      }
    case Go(t) =>
      if t < |s.pcs| {
        if s.pcs[t].BumpOptimistic? { BumpOptimisticInv(s, t); }
        else if s.pcs[t].ReloadTail? { DecideInv(s, t); }
        else if s.pcs[t].BumpOver? { BumpOverInv(s, t); }
        else { OtherInv(s, t); }
      }
  }

  lemma {:induction false} RunInv(threads: nat, trace: seq<Event>)
    ensures Inv(Exec(Init(threads), trace))
    decreases |trace|
  {
    if trace == [] {
      InitInv(threads);
    } else {
      RunInv(threads, trace[..|trace| - 1]);
      StepInv(Exec(Init(threads), trace[..|trace| - 1]), trace[|trace| - 1]);
    }
  }

  /** In a state that meets the invariant the head is within the tail, committed consumers included. */
  lemma HeadInv(s: State)
    requires Inv(s)
    ensures s.head <= s.head + Sum(s.pcs, IsBumpingHead()) <= s.tail
  {
    WinnersBelowTail(s.fate, |s.fate|, s.tail);
    assert s.fate[..|s.fate|] == s.fate;
    SumBounds(s.pcs, IsBumpingHead(), 1);
  }

  /** What the owner of the elements may rely on: published indices below the head, each in at most one consumer's hands. */
  predicate Claims(s: State) {
    && s.head <= s.tail
    && |s.claimants| == s.head
    && forall t | 0 <= t < |s.pcs| && s.pcs[t].Claimed? :: s.pcs[t].index < s.head && s.claimants[s.pcs[t].index] == t
  }

  lemma ClaimsInv(s: State)
    requires Inv(s)
    ensures Claims(s)
  {
    HeadInv(s);
    forall t | 0 <= t < |s.pcs| && s.pcs[t].Claimed? ensures s.pcs[t].index < s.head && s.claimants[s.pcs[t].index] == t {
      assert ThreadInv(s, t);
    }
  }

  // ---------- what holds in every run ----------

  /**
   The head never passes the tail, even counting the consumers that are already
   committed to advancing it; and the optimistic count is accounted for exactly.
   */
  lemma HeadWithinTail(threads: nat, trace: seq<Event>)
    ensures var s := Exec(Init(threads), trace);
            && s.head + Sum(s.pcs, IsBumpingHead()) <= s.tail
            && s.head <= s.tail
            && s.optimistic == s.head + s.over + Sum(s.pcs, IsBetween())
  {
    RunInv(threads, trace);
    HeadInv(Exec(Init(threads), trace));
  }

  /** Every index below the head has one claimant, an index in a consumer's hands is published and no one else holds it. */
  lemma ClaimedOnce(threads: nat, trace: seq<Event>, t: nat, u: nat)
    requires t < threads && u < threads
    ensures var s := Exec(Init(threads), trace);
            && |s.claimants| == s.head
            && (s.pcs[t].Claimed? ==> s.pcs[t].index < s.head <= s.tail && s.claimants[s.pcs[t].index] == t)
            && (s.pcs[t].Claimed? && s.pcs[u].Claimed? && s.pcs[t].index == s.pcs[u].index ==> t == u)
  {
    RunInv(threads, trace);
    HeadWithinTail(threads, trace);
    var s := Exec(Init(threads), trace);
    assert ThreadInv(s, t) && ThreadInv(s, u);
  }

  /** Indices are handed out in order: a claim takes the current head, which is below the tail, and advances it by one. */
  lemma ClaimsAreInOrder(threads: nat, trace: seq<Event>, t: nat)
    requires t < threads && Exec(Init(threads), trace).pcs[t].BumpHead?
    ensures var s := Exec(Init(threads), trace);
            var s' := Step(s, Go(t));
            && s.head < s.tail
            && s'.pcs[t] == Claimed(s.head) && s'.head == s.head + 1
            && s'.claimants == s.claimants + [t]
  {
    RunInv(threads, trace);
    HeadWithinTail(threads, trace);
    var s := Exec(Init(threads), trace);
    SumBounds(s.pcs, IsBumpingHead(), 1);
    SumAtLeast(s.pcs, t, IsBumpingHead());
  }

  /** One whole call of `dequeue` by t with nobody interfering. */
  function Solo(t: nat): seq<Event> {
    [CallDequeue(t), Go(t), Go(t), Go(t), Go(t), Go(t)]
  }

  /**
   In a state no dequeue is in flight, the difference of the counters is the
   head, so a call that runs alone obtains the next element exactly when there is
   one: a non-empty queue never refuses, an empty one always does.
   */
  lemma QuiescentDequeue(threads: nat, trace: seq<Event>, t: nat)
    requires t < threads
    requires forall u | 0 <= u < threads :: Exec(Init(threads), trace).pcs[u].Idle?
    ensures var s := Exec(Init(threads), trace);
            var r := Exec(s, Solo(t));
            && s.optimistic - s.over == s.head
            && (s.head < s.tail ==> r.pcs[t] == Claimed(s.head) && r.head == s.head + 1)
            && (s.head == s.tail ==> r == s)
  {
    hide Sum, ThreadInv, WinnersFit;
    RunInv(threads, trace);
    HeadWithinTail(threads, trace);
    var s := Exec(Init(threads), trace);
    SumBounds(s.pcs, IsBetween(), 0);
    SoloRun(s, t);
    if s.head == s.tail {
      assert Goto(s, t, Idle).pcs == s.pcs;
    }
  }

  /**
   A dequeue that runs alone, whatever calls of others have been left under way: it
   claims the next index if and only if there is an element beyond those that these
   calls may still claim; otherwise it changes nothing.
   */
  lemma DequeueAlone(threads: nat, trace: seq<Event>, t: nat)
    requires t < threads && Exec(Init(threads), trace).pcs[t].Idle?
    ensures var s := Exec(Init(threads), trace);
            var r := Exec(s, Solo(t));
            if s.head + Sum(s.pcs, IsBetween()) < s.tail then
              r.pcs == s.pcs[t := Claimed(s.head)] && r.head == s.head + 1 && r.claimants == s.claimants + [t] && r.tail == s.tail
            else r == s
  {
    hide Sum, ThreadInv, WinnersFit, Exec;
    RunInv(threads, trace);
    var s := Exec(Init(threads), trace);
    SoloRun(s, t);
    SoloSteps(s, t);
  }

  lemma SoloSteps(s: State, t: nat)
    requires t < |s.pcs| && s.pcs[t].Idle? && s.optimistic == |s.fate|
    ensures var r := Step(Step(Step(Step(Step(Step(s, CallDequeue(t)), Go(t)), Go(t)), Go(t)), Go(t)), Go(t));
            if s.optimistic - s.over < s.tail then
              r.pcs == s.pcs[t := Claimed(s.head)] && r.head == s.head + 1 && r.claimants == s.claimants + [t] && r.tail == s.tail
            else r == s
  {
    var s1 := Step(s, CallDequeue(t));
    assert s1 == s.(pcs := s.pcs[t := LoadOver(s.tail)]);
    var s2 := Step(s1, Go(t));
    assert s2 == s.(pcs := s.pcs[t := TestOptimistic(s.tail, s.over)]);
    var s3 := Step(s2, Go(t));
    if s.optimistic - s.over < s.tail {
      assert s3 == s.(pcs := s.pcs[t := BumpOptimistic(s.over)]);
      SoloClaims(s, s3, t);
    } else {
      assert s3.pcs == s.pcs;
    }
  }

  lemma SoloClaims(s: State, s3: State, t: nat)
    requires t < |s.pcs| && s.optimistic == |s.fate| && s.optimistic - s.over < s.tail
    requires s3 == s.(pcs := s.pcs[t := BumpOptimistic(s.over)])
    ensures var r := Step(Step(Step(s3, Go(t)), Go(t)), Go(t));
            r.pcs == s.pcs[t := Claimed(s.head)] && r.head == s.head + 1 && r.claimants == s.claimants + [t] && r.tail == s.tail
  {
    var s4 := Step(s3, Go(t));
    assert s4.pcs == s.pcs[t := ReloadTail(s.over, s.optimistic)] && s4.tail == s.tail && s4.head == s.head && s4.claimants == s.claimants;
    var s5 := Step(s4, Go(t));
    assert s5.pcs == s.pcs[t := BumpHead(s.optimistic)] && s5.tail == s.tail && s5.head == s.head && s5.claimants == s.claimants;
  }

  lemma SoloRun(s: State, t: nat)
    ensures Exec(s, Solo(t)) == Step(Step(Step(Step(Step(Step(s, CallDequeue(t)), Go(t)), Go(t)), Go(t)), Go(t)), Go(t))
  {
    hide Step;
    var calls := Solo(t);
    assert calls[..0] == [] && calls[..6] == calls;
    assert calls[..1][..0] == [] && calls[..2][..1] == calls[..1] && calls[..3][..2] == calls[..2];
    assert calls[..4][..3] == calls[..3] && calls[..5][..4] == calls[..4] && calls[..6][..5] == calls[..5];
    var s1 := Step(s, CallDequeue(t));
    var s2 := Step(s1, Go(t));
    var s3 := Step(s2, Go(t));
    var s4 := Step(s3, Go(t));
    assert Exec(s, calls[..1]) == s1;
    assert Exec(s, calls[..2]) == s2;
    assert Exec(s, calls[..3]) == s3;
    assert Exec(s, calls[..4]) == s4;
    assert Exec(s, calls[..5]) == Step(s4, Go(t));
  }
}
