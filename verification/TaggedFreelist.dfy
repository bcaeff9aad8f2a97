/**
 The pool of blocks behind the linked queue: a stack whose head pointer carries a
 tag that pops increase and pushes do not. Any number of threads allocate and
 free, one atomic operation a step, any interleaving, tags unbounded.
 */
module TaggedFreelist {

  datatype Link = Null | To(block: nat)

  datatype Tagged = Tagged(ptr: Link, tag: nat)

  datatype Owner = Pool | Thread(t: nat)

  datatype Pc =
    | Idle
    // allocate_safe
    | AllocLoad
    | AllocRead(seen: Tagged)             // pool empty? else read seen->next
    | AllocCas(seen: Tagged, next: Link)  // weak compare-exchange of the pool's head
    // deallocate_safe
    | FreeLoad(b: nat)
    | FreeWrite(b: nat, seen: Tagged)     // write b->next
    | FreeCas(b: nat, seen: Tagged)       // weak compare-exchange of the pool's head

  /**
   A block's `next` word lies inside the block, so whoever holds the block may
   overwrite it at any time. Two fields record history and are never read by a
   step: `list` is the stack, top first, and `owner[b]` says who holds block b.
   */
  datatype State = State(
    pool: Tagged,
    next: seq<Link>,
    pcs: seq<Pc>,
    list: seq<nat>,
    owner: seq<Owner>)

  /**
   Calls; an operation of a thread (`weak`: the compare-exchange fails for no
   reason); a holder writing anything into its block; a block from the system
   allocator, as the constructor obtains them.
   */
  datatype Event =
    | CallAllocate(t: nat)
    | CallFree(t: nat, b: nat)
    | Go(t: nat, weak: bool)
    | Scribble(t: nat, b: nat, junk: Link)
    | Obtain(t: nat)

  function Init(threads: nat): State {
    State(Tagged(Null, 0), [], seq(threads, _ => Idle), [], [])
  }

  function Goto(s: State, t: nat, pc: Pc): State
    requires t < |s.pcs|
  {
    s.(pcs := s.pcs[t := pc])
  }

  predicate Holds(s: State, t: nat, b: nat) {
    b < |s.owner| && s.owner[b] == Thread(t)
  }

  /** A new block, zeroed, in t's hands. */
  function Fresh(s: State, t: nat): State {
    s.(next := s.next + [Null], owner := s.owner + [Thread(t)])
  }

  function NextOf(next: seq<Link>, p: Link): Link {
    if p.To? && p.block < |next| then next[p.block] else Null
  }

  function SetOwner(owner: seq<Owner>, b: nat, o: Owner): seq<Owner> {
    if b < |owner| then owner[b := o] else owner
  }

  function SetNext(next: seq<Link>, b: nat, p: Link): seq<Link> {
    if b < |next| then next[b := p] else next
  }

  function StepGo(s: State, t: nat, weak: bool): State
    requires t < |s.pcs|
  {
    match s.pcs[t]
    case Idle => s
    case AllocLoad => Goto(s, t, AllocRead(s.pool))
    case AllocRead(seen) =>
      if seen.ptr.Null? then Goto(Fresh(s, t), t, Idle)
      else Goto(s, t, AllocCas(seen, NextOf(s.next, seen.ptr)))
    case AllocCas(seen, next) =>
      if s.pool == seen && !weak && seen.ptr.To? then
        Goto(s.(pool := Tagged(next, seen.tag + 1), list := if s.list == [] then [] else s.list[1..],
                owner := SetOwner(s.owner, seen.ptr.block, Thread(t))), t, Idle)
      else Goto(s, t, AllocRead(s.pool))
    case FreeLoad(b) => Goto(s, t, FreeWrite(b, s.pool))
    case FreeWrite(b, seen) => Goto(s.(next := SetNext(s.next, b, seen.ptr)), t, FreeCas(b, seen))
    case FreeCas(b, seen) =>
      if s.pool == seen && !weak then
        Goto(s.(pool := Tagged(To(b), seen.tag), list := [b] + s.list, owner := SetOwner(s.owner, b, Pool)), t, Idle)
      else Goto(s, t, FreeWrite(b, s.pool))
  }

  function Step(s: State, e: Event): State {
    match e
    case CallAllocate(t) => if t < |s.pcs| && s.pcs[t].Idle? then Goto(s, t, AllocLoad) else s
    case CallFree(t, b) => if t < |s.pcs| && s.pcs[t].Idle? && Holds(s, t, b) then Goto(s, t, FreeLoad(b)) else s
    case Go(t, weak) => if t < |s.pcs| then StepGo(s, t, weak) else s
    case Scribble(t, b, junk) =>
      if t < |s.pcs| && s.pcs[t].Idle? && Holds(s, t, b) then s.(next := SetNext(s.next, b, junk)) else s
    case Obtain(t) => if t < |s.pcs| && s.pcs[t].Idle? then Fresh(s, t) else s
  }

  ghost function Exec(s: State, trace: seq<Event>): (r: State)
    ensures |r.pcs| == |s.pcs|
    decreases |trace|
  {
    if trace == [] then s else Step(Exec(s, trace[..|trace| - 1]), trace[|trace| - 1])
  }

  ghost function Run(threads: nat, trace: seq<Event>): (r: State)
    ensures |r.pcs| == threads
  {
    Exec(Init(threads), trace)
  }

  // ---------- the invariant ----------

  /** Following `next` from p visits exactly the blocks of the list, in order, and ends. */
  predicate Chain(next: seq<Link>, p: Link, list: seq<nat>)
    decreases |list|
  {
    if list == [] then p.Null?
    else p == To(list[0]) && list[0] < |next| && Chain(next, next[list[0]], list[1..])
  }

  predicate Distinct(list: seq<nat>) {
    forall i, j | 0 <= i < j < |list| :: list[i] != list[j]
  }

  /** The blocks in the pool are those of the list; all others are in someone's hands. */
  ghost predicate Accounted(list: seq<nat>, owner: seq<Owner>, threads: nat) {
    && (forall b: nat | b < |owner| :: b in list <==> owner[b] == Pool)
    && (forall b <- list :: b < |owner|)
    && (forall b: nat | b < |owner| && owner[b].Thread? :: owner[b].t < threads)
  }

  /**
   What a thread in the middle of a call may rely on. An allocator that saw the
   present tag saw a block that is still in the list, and read its present link:
   no block has left the list since.
   */
  predicate Local(pc: Pc, t: nat, pool: Tagged, next: seq<Link>, list: seq<nat>, owner: seq<Owner>) {
    match pc
    case AllocRead(seen) =>
      seen.tag <= pool.tag && (seen.tag == pool.tag && seen.ptr.To? ==> seen.ptr.block in list)
    case AllocCas(seen, link) =>
      seen.ptr.To? && seen.tag <= pool.tag && (seen.tag == pool.tag ==> seen.ptr.block in list && NextOf(next, seen.ptr) == link)
    case FreeLoad(b) => b < |owner| && owner[b] == Thread(t)
    case FreeWrite(b, seen) => b < |owner| && owner[b] == Thread(t)
    case FreeCas(b, seen) => b < |owner| && owner[b] == Thread(t) && NextOf(next, To(b)) == seen.ptr
    case _ => true
  }

  ghost predicate Locals(s: State) {
    forall t | 0 <= t < |s.pcs| :: Local(s.pcs[t], t, s.pool, s.next, s.list, s.owner)
  }

  ghost predicate Inv(s: State) {
    && |s.next| == |s.owner|
    && Chain(s.next, s.pool.ptr, s.list)
    && Distinct(s.list)
    && Accounted(s.list, s.owner, |s.pcs|)
    && Locals(s)
  }

  lemma {:induction false} ChainFrame(next: seq<Link>, next': seq<Link>, p: Link, list: seq<nat>)
    requires Chain(next, p, list) && |next| <= |next'|
    requires forall b <- list :: b < |next| ==> next'[b] == next[b]
    ensures Chain(next', p, list)
    decreases |list|
  {
    if list != [] {
      ChainFrame(next, next', next[list[0]], list[1..]);
    }
  }

  /** Seen from the other threads: pops raise the tag, blocks in the list and blocks of thread u keep their links. */
  ghost predicate Kept(s: State, s': State, u: nat) {
    && s.pool.tag <= s'.pool.tag && |s.next| == |s.owner| <= |s'.owner| == |s'.next|
    && (s'.pool.tag == s.pool.tag ==> forall b <- s.list :: b in s'.list && NextOf(s'.next, To(b)) == NextOf(s.next, To(b)))
    && (forall b: nat | b < |s.owner| && s.owner[b] == Thread(u) :: s'.owner[b] == s.owner[b] && s'.next[b] == s.next[b])
  }

  lemma LocalsFrame(s: State, s': State, t: nat)
    requires Locals(s) && t < |s.pcs| && |s'.pcs| == |s.pcs| && s'.pcs == s.pcs[t := s'.pcs[t]]
    requires forall u: nat | u < |s.pcs| && u != t :: Kept(s, s', u)
    requires Local(s'.pcs[t], t, s'.pool, s'.next, s'.list, s'.owner)
    ensures Locals(s')
  {
    forall u | 0 <= u < |s.pcs| ensures Local(s'.pcs[u], u, s'.pool, s'.next, s'.list, s'.owner) {
      if u != t { assert Kept(s, s', u); }
    }
  }

  lemma QuietInv(s: State, t: nat, pc: Pc)
    requires Inv(s) && t < |s.pcs| && Local(pc, t, s.pool, s.next, s.list, s.owner)
    ensures Inv(Goto(s, t, pc))
  {
    LocalsFrame(s, Goto(s, t, pc), t);
  }

  lemma FreshInv(s: State, t: nat)
    requires Inv(s) && t < |s.pcs|
    ensures Inv(Goto(Fresh(s, t), t, Idle))
  {
    var s' := Goto(Fresh(s, t), t, Idle);
    ChainFrame(s.next, s'.next, s.pool.ptr, s.list);
    LocalsFrame(s, s', t);
  }

  /** Writing into a block that thread t holds. */
  lemma WriteInv(s: State, t: nat, b: nat, p: Link, pc: Pc)
    requires Inv(s) && t < |s.pcs| && Holds(s, t, b)
    requires pc == Idle || (pc.FreeCas? && pc.b == b && pc.seen.ptr == p)
    ensures Inv(Goto(s.(next := SetNext(s.next, b, p)), t, pc))
  {
    var s' := Goto(s.(next := SetNext(s.next, b, p)), t, pc);
    assert b !in s.list;
    ChainFrame(s.next, s'.next, s.pool.ptr, s.list);
    LocalsFrame(s, s', t);
  }

  /** A successful pop takes the top block, and the link it installs is that block's present one. */
  lemma PopSound(s: State, t: nat)
    requires Inv(s) && t < |s.pcs| && s.pcs[t].AllocCas? && s.pool == s.pcs[t].seen
    ensures s.list != [] && s.pool.ptr == To(s.list[0]) && s.list[0] < |s.next| && s.pcs[t].next == s.next[s.list[0]]
    ensures s.owner[s.list[0]] == Pool
  {
    assert Local(s.pcs[t], t, s.pool, s.next, s.list, s.owner);
  }

  lemma PopInv(s: State, t: nat)
    requires Inv(s) && t < |s.pcs| && s.pcs[t].AllocCas? && s.pool == s.pcs[t].seen
    ensures Inv(StepGo(s, t, false))
  {
    hide Local;
    var s' := StepGo(s, t, false);
    PopSound(s, t);
    LocalIdle(s', t);
    var b := s.list[0];
    assert b !in s.list[1..] by { assert forall j | 0 <= j < |s.list| - 1 :: s.list[1..][j] == s.list[j + 1]; }
    assert forall c: nat :: c in s.list <==> c == b || c in s.list[1..] by { assert s.list == [b] + s.list[1..]; }
    assert forall u: nat | u < |s.pcs| && u != t :: Kept(s, s', u);
    LocalsFrame(s, s', t);
  }

  lemma LocalIdle(s: State, t: nat)
    requires t < |s.pcs| && s.pcs[t].Idle?
    ensures Local(s.pcs[t], t, s.pool, s.next, s.list, s.owner)
  {
  }

  lemma PushInv(s: State, t: nat)
    requires Inv(s) && t < |s.pcs| && s.pcs[t].FreeCas? && s.pool == s.pcs[t].seen
    ensures Inv(StepGo(s, t, false))
  {
    hide Local;
    var s' := StepGo(s, t, false);
    var b := s.pcs[t].b;
    PushLocal(s, t);
    LocalIdle(s', t);
    assert s'.list[1..] == s.list;
    assert b !in s.list;
    assert forall u: nat | u < |s.pcs| && u != t :: Kept(s, s', u);
    LocalsFrame(s, s', t);
  }

  lemma PushLocal(s: State, t: nat)
    requires Inv(s) && t < |s.pcs| && s.pcs[t].FreeCas?
    ensures var b := s.pcs[t].b; b < |s.owner| && s.owner[b] == Thread(t) && s.next[b] == s.pcs[t].seen.ptr
  {
    assert Local(s.pcs[t], t, s.pool, s.next, s.list, s.owner);
  }

  lemma GoInv(s: State, t: nat, weak: bool)
    requires Inv(s) && t < |s.pcs|
    ensures Inv(StepGo(s, t, weak))
  {
    hide Distinct, Accounted, Locals;
    var pc := s.pcs[t];
    assert Local(pc, t, s.pool, s.next, s.list, s.owner) by { LocalOf(s, t); }
    match pc
    case Idle =>
    case AllocLoad => QuietInv(s, t, AllocRead(s.pool));
    case AllocRead(seen) =>
      if seen.ptr.Null? { FreshInv(s, t); } else { QuietInv(s, t, AllocCas(seen, NextOf(s.next, seen.ptr))); }
    case AllocCas(seen, next) =>
      if s.pool == seen && !weak { PopInv(s, t); } else { QuietInv(s, t, AllocRead(s.pool)); }
    case FreeLoad(b) => QuietInv(s, t, FreeWrite(b, s.pool));
    case FreeWrite(b, seen) => WriteInv(s, t, b, seen.ptr, FreeCas(b, seen));
    case FreeCas(b, seen) =>
      if s.pool == seen && !weak { PushInv(s, t); } else { QuietInv(s, t, FreeWrite(b, s.pool)); }
  }

  lemma LocalOf(s: State, t: nat)
    requires Locals(s) && t < |s.pcs|
    ensures Local(s.pcs[t], t, s.pool, s.next, s.list, s.owner)
  {
  }

  lemma SamePlace(s: State, t: nat)
    requires t < |s.pcs|
    ensures Goto(s, t, s.pcs[t]) == s
  {
    assert s.pcs[t := s.pcs[t]] == s.pcs;
  }

  lemma StepInv(s: State, e: Event)
    requires Inv(s)
    ensures Inv(Step(s, e))
  {
    hide Inv;
    match e
    case CallAllocate(t) => if t < |s.pcs| && s.pcs[t].Idle? { QuietInv(s, t, AllocLoad); }
    case CallFree(t, b) => if t < |s.pcs| && s.pcs[t].Idle? && Holds(s, t, b) { QuietInv(s, t, FreeLoad(b)); }
    case Go(t, weak) => if t < |s.pcs| { GoInv(s, t, weak); }
    case Scribble(t, b, junk) =>
      if t < |s.pcs| && s.pcs[t].Idle? && Holds(s, t, b) {
        WriteInv(s, t, b, junk, Idle);
        SamePlace(Step(s, e), t);
      }
    case Obtain(t) =>
      if t < |s.pcs| && s.pcs[t].Idle? {
        FreshInv(s, t);
        SamePlace(Step(s, e), t);
      }
  }

  lemma {:induction false} RunInv(threads: nat, trace: seq<Event>)
    ensures Inv(Run(threads, trace))
    decreases |trace|
  {
    if trace != [] {
      RunInv(threads, trace[..|trace| - 1]);
      StepInv(Run(threads, trace[..|trace| - 1]), trace[|trace| - 1]);
    }
  }

  // ---------- what holds in every run ----------

  /**
   The pool is an acyclic chain, and every block is in exactly one place: on the
   chain, once, or in the hands of one thread. Nothing is lost.
   */
  lemma PoolIsAChain(threads: nat, trace: seq<Event>)
    ensures var s := Run(threads, trace);
            && Chain(s.next, s.pool.ptr, s.list) && Distinct(s.list)
            && (forall b: nat | b < |s.owner| :: b in s.list <==> s.owner[b] == Pool)
            && (forall b: nat | b < |s.owner| && s.owner[b].Thread? :: s.owner[b].t < threads)
  {
    RunInv(threads, trace);
  }

  /**
   An allocation that succeeds gets a block nobody holds, the top of the chain,
   and leaves the rest of the chain as the pool, however stale the thread's view:
   the compare-exchange with the tag cannot succeed on an old link.
   */
  lemma AllocationIsSound(threads: nat, trace: seq<Event>, t: nat)
    requires t < threads && Run(threads, trace).pcs[t].AllocCas?
    requires Run(threads, trace).pool == Run(threads, trace).pcs[t].seen
    ensures var s := Run(threads, trace);
            var s' := Step(s, Go(t, false));
            && s.list != [] && s.list[0] < |s.owner| && s.owner[s.list[0]] == Pool && s.list[0] < |s.next|
            && s'.list == s.list[1..] && s'.owner == s.owner[s.list[0] := Thread(t)]
            && s'.pool.ptr == s.next[s.list[0]] && Chain(s'.next, s'.pool.ptr, s.list[1..])
  {
    var s := Run(threads, trace);
    RunInv(threads, trace);
    PopSound(s, t);
    PopInv(s, t);
  }

  /** A block freed goes to the top of the chain and leaves the freeing thread's hands. */
  lemma FreeIsSound(threads: nat, trace: seq<Event>, t: nat)
    requires t < threads && Run(threads, trace).pcs[t].FreeCas?
    requires Run(threads, trace).pool == Run(threads, trace).pcs[t].seen
    ensures var s := Run(threads, trace);
            var s' := Step(s, Go(t, false));
            var b := s.pcs[t].b;
            && b !in s.list && b < |s.owner| && s.owner[b] == Thread(t)
            && s'.list == [b] + s.list && s'.owner == s.owner[b := Pool]
            && Chain(s'.next, To(b), [b] + s.list)
  {
    var s := Run(threads, trace);
    RunInv(threads, trace);
    PushLocal(s, t);
    PushInv(s, t);
  }

  // ---------- what a call achieves ----------

  lemma RunMore(threads: nat, trace: seq<Event>, e: Event)
    ensures Run(threads, trace + [e]) == Step(Run(threads, trace), e)
  {
    assert (trace + [e])[..|trace|] == trace;
  }

  /**
   An allocation that runs alone, whatever calls of others are under way, takes the
   top block of a pool that is not empty, and otherwise a new block.
   */
  lemma AllocateAlone(threads: nat, trace: seq<Event>, t: nat)
    requires t < threads && Run(threads, trace).pcs[t].Idle?
    ensures var s := Run(threads, trace);
            var r := Run(threads, trace + [CallAllocate(t), Go(t, false), Go(t, false), Go(t, false)]);
            && r.pcs == s.pcs
            && (s.list != [] ==> s.list[0] < |s.owner| && r.list == s.list[1..] && r.owner == s.owner[s.list[0] := Thread(t)])
            && (s.list == [] ==> r.list == [] && r.owner == s.owner + [Thread(t)] && r.next == s.next + [Null])
  {
    hide Run, Inv;
    var s := Run(threads, trace);
    var call, go := CallAllocate(t), Go(t, false);
    RunInv(threads, trace);
    RunMore(threads, trace, call);
    RunMore(threads, trace + [call], go);
    RunMore(threads, trace + [call] + [go], go);
    RunMore(threads, trace + [call] + [go] + [go], go);
    assert trace + [call, go, go, go] == trace + [call] + [go] + [go] + [go];
    AllocateSteps(s, t);
  }

  lemma AllocateSteps(s: State, t: nat)
    requires Inv(s) && t < |s.pcs| && s.pcs[t].Idle?
    ensures var r := Step(Step(Step(Step(s, CallAllocate(t)), Go(t, false)), Go(t, false)), Go(t, false));
            && r.pcs == s.pcs
            && (s.list != [] ==> s.list[0] < |s.owner| && r.list == s.list[1..] && r.owner == s.owner[s.list[0] := Thread(t)])
            && (s.list == [] ==> r.list == [] && r.owner == s.owner + [Thread(t)] && r.next == s.next + [Null])
  {
    hide Locals;
    var s1 := Step(s, CallAllocate(t));
    assert s1 == s.(pcs := s.pcs[t := AllocLoad]);
    var s2 := Step(s1, Go(t, false));
    assert s2 == s.(pcs := s.pcs[t := AllocRead(s.pool)]);
    var s3 := Step(s2, Go(t, false));
    if s.list == [] {
      assert s3.pcs == s.pcs;
    } else {
      assert s3 == s.(pcs := s.pcs[t := AllocCas(s.pool, NextOf(s.next, s.pool.ptr))]);
      assert Step(s3, Go(t, false)).pcs == s.pcs;
    }
  }

  /** A block freed by a thread that runs alone comes first in the pool. */
  lemma FreeAlone(threads: nat, trace: seq<Event>, t: nat, b: nat)
    requires t < threads && Run(threads, trace).pcs[t].Idle? && Holds(Run(threads, trace), t, b)
    ensures var s := Run(threads, trace);
            var r := Run(threads, trace + [CallFree(t, b), Go(t, false), Go(t, false), Go(t, false)]);
            && r.pcs == s.pcs && r.list == [b] + s.list && r.owner == s.owner[b := Pool]
  {
    hide Run, Inv;
    var s := Run(threads, trace);
    var call, go := CallFree(t, b), Go(t, false);
    RunMore(threads, trace, call);
    RunMore(threads, trace + [call], go);
    RunMore(threads, trace + [call] + [go], go);
    RunMore(threads, trace + [call] + [go] + [go], go);
    assert trace + [call, go, go, go] == trace + [call] + [go] + [go] + [go];
    FreeSteps(s, t, b);
  }

  lemma FreeSteps(s: State, t: nat, b: nat)
    requires t < |s.pcs| && s.pcs[t].Idle? && Holds(s, t, b)
    ensures var r := Step(Step(Step(Step(s, CallFree(t, b)), Go(t, false)), Go(t, false)), Go(t, false));
            r.pcs == s.pcs && r.list == [b] + s.list && r.owner == s.owner[b := Pool]
  {
    var s1 := Step(s, CallFree(t, b));
    assert s1 == s.(pcs := s.pcs[t := FreeLoad(b)]);
    var s2 := Step(s1, Go(t, false));
    assert s2 == s.(pcs := s.pcs[t := FreeWrite(b, s.pool)]);
    var s3 := Step(s2, Go(t, false));
    assert s3.pcs == s.pcs[t := FreeCas(b, s.pool)];
    assert Step(s3, Go(t, false)).pcs == s.pcs;
  }

  // ---------- when a new block is made ----------

  predicate InAllocate(pc: Pc) { pc.AllocLoad? || pc.AllocRead? || pc.AllocCas? }

  /** From `from` on, thread t is inside one call of `allocate_safe`. */
  ghost predicate Allocating(threads: nat, trace: seq<Event>, from: nat, t: nat) {
    && t < threads && from < |trace| && trace[from] == CallAllocate(t)
    && Run(threads, trace[..from]).pcs[t].Idle?
    && forall k | from < k <= |trace| :: !Run(threads, trace[..k]).pcs[t].Idle?
  }

  ghost predicate WasEmpty(threads: nat, trace: seq<Event>, from: nat) {
    exists k :: from < k <= |trace| && Run(threads, trace[..k]).list == []
  }

  lemma WasEmptyLater(threads: nat, trace: seq<Event>, from: nat, e: Event)
    requires WasEmpty(threads, trace, from)
    ensures WasEmpty(threads, trace + [e], from)
  {
    hide Run;
    var k :| from < k <= |trace| && Run(threads, trace[..k]).list == [];
    assert (trace + [e])[..k] == trace[..k];
  }

  predicate SawNull(pc: Pc) { pc.AllocRead? && pc.seen.ptr.Null? }

  lemma AllocateStep(s: State, e: Event, t: nat)
    requires t < |s.pcs| && InAllocate(s.pcs[t])
    ensures |Step(s, e).pcs| == |s.pcs|
    ensures var pc := Step(s, e).pcs[t];
            && (pc.Idle? || InAllocate(pc))
            && (SawNull(pc) ==> SawNull(s.pcs[t]) || s.pool.ptr.Null?)
            && (pc.Idle? && !SawNull(s.pcs[t]) ==> |Step(s, e).owner| == |s.owner|)
  {
  }

  lemma {:induction false} NullWasSeen(threads: nat, trace: seq<Event>, from: nat, t: nat)
    requires Allocating(threads, trace, from, t)
    ensures var pc := Run(threads, trace).pcs[t]; InAllocate(pc) && (SawNull(pc) ==> WasEmpty(threads, trace, from))
    decreases |trace|
  {
    hide Run, Step;
    var before, e := trace[..|trace| - 1], trace[|trace| - 1];
    assert trace == before + [e] && trace[..|trace|] == trace;
    RunMore(threads, before, e);
    var s := Run(threads, before);
    if |trace| == from + 1 {
      CallsAllocate(s, t);
    } else {
      assert before[..from] == trace[..from];
      assert forall k | from < k <= |before| :: before[..k] == trace[..k];
      NullWasSeen(threads, before, from, t);
      AllocateStep(s, e, t);
      RunInv(threads, before);
      if SawNull(s.pcs[t]) {
        WasEmptyLater(threads, before, from, e);
      } else if s.pool.ptr.Null? {
        assert s.list == [];
        assert trace[..|before|] == before;
      }
    }
  }

  lemma CallsAllocate(s: State, t: nat)
    requires t < |s.pcs| && s.pcs[t].Idle?
    ensures Step(s, CallAllocate(t)).pcs == s.pcs[t := AllocLoad]
  {
  }

  /** A call of `allocate_safe` ends with a block of the system allocator only if the pool was empty at a moment inside the call. */
  lemma NewOnlyFromEmpty(threads: nat, trace: seq<Event>, from: nat, t: nat, e: Event)
    requires Allocating(threads, trace, from, t) && Run(threads, trace + [e]).pcs[t].Idle?
    ensures |Run(threads, trace + [e]).owner| == |Run(threads, trace).owner| || WasEmpty(threads, trace, from)
  {
    hide Run, Step;
    NullWasSeen(threads, trace, from, t);
    RunMore(threads, trace, e);
    AllocateStep(Run(threads, trace), e, t);
  }
}
