/**
 What the calls on one explicit producer achieve: which elements the queue holds,
 told from the calls alone; that a call which has got its block publishes its
 element, and a consumer which has claimed an index delivers it, whatever the others
 do meanwhile.
 */
module BlockProgress {
  import opened BlockIndex
  import C = DequeueCounters

  lemma ReachedMore(threads: nat, blocks: nat, logSize: nat, trace: seq<Event>, e: Event)
    ensures Sized(Reached(threads, blocks, logSize, trace))
    ensures Reached(threads, blocks, logSize, trace + [e]) == Step(Reached(threads, blocks, logSize, trace), e)
  {
    hide Inv, Step;
    InvSized(Reached(threads, blocks, logSize, trace));
    assert (trace + [e])[..|trace|] == trace;
  }

  // ---------- the elements are the arguments of the calls ----------

  /** The arguments of the enqueue calls, in order, without those given up because no block was to be had. */
  ghost function Calls(threads: nat, blocks: nat, logSize: nat, trace: seq<Event>): seq<int>
    decreases |trace|
  {
    if trace == [] then []
    else
      var before, e := trace[..|trace| - 1], trace[|trace| - 1];
      var done, s := Calls(threads, blocks, logSize, before), Reached(threads, blocks, logSize, before);
      if e.Enqueue? && s.prod.ProdIdle? then done + [e.x]
      else if e.RequisitionFails? && s.prod.NeedBlock? && done != [] then done[..|done| - 1]
      else done
  }

  /** The argument of the call under way. */
  function Pending(prod: ProdPc): seq<int> { if prod.ProdIdle? then [] else [prod.x] }

  lemma ArgumentStep(s: State, e: Event)
    requires Inv(s)
    ensures Sized(s)
    ensures var s' := Step(s, e);
            if e.Enqueue? && s.prod.ProdIdle? then s'.items == s.items && Pending(s'.prod) == [e.x]
            else if e.RequisitionFails? && s.prod.NeedBlock? then s'.items == s.items && Pending(s'.prod) == []
            else s'.items + Pending(s'.prod) == s.items + Pending(s.prod)
  {
    hide Circle, IndexInv, Live, Out, Looks, C.Step, C.Claims;
    if e.Consume? && e.t < |s.look| && s.c.pcs[e.t].Claimed? {
    } else if e.Produce? {
      ProduceArgument(s);
    }
  }

  lemma ProduceArgument(s: State)
    requires Inv(s)
    ensures Sized(s) && ProduceStep(s).items + Pending(ProduceStep(s).prod) == s.items + Pending(s.prod)
  {
    hide IndexInv, Live, Out, Looks, C.Step, C.Claims;
  }

  /**
   In every run the elements published are exactly the arguments of the enqueue
   calls, in the order of the calls, less the call under way and those given up.
   */
  lemma {:induction false} ElementsAreArguments(threads: nat, blocks: nat, logSize: nat, trace: seq<Event>)
    ensures var s := Reached(threads, blocks, logSize, trace);
            Calls(threads, blocks, logSize, trace) == s.items + Pending(s.prod)
    decreases |trace|
  {
    hide Inv, Step, Pending;
    if trace == [] {
      NothingPending(threads, blocks, logSize);
    } else {
      var before, e := trace[..|trace| - 1], trace[|trace| - 1];
      ElementsAreArguments(threads, blocks, logSize, before);
      ArgumentStep(Reached(threads, blocks, logSize, before), e);
      PendingShort(Reached(threads, blocks, logSize, before).prod);
    }
  }

  lemma NothingPending(threads: nat, blocks: nat, logSize: nat)
    ensures Init(threads, blocks, logSize).items + Pending(Init(threads, blocks, logSize).prod) == []
  {
  }

  lemma PendingShort(prod: ProdPc)
    ensures Pending(prod) == if prod.ProdIdle? then [] else [prod.x]
  {
  }

  /** What is delivered for index i is the argument of the i-th successful call. */
  lemma DeliversArguments(threads: nat, blocks: nat, logSize: nat, trace: seq<Event>)
    ensures var s := Reached(threads, blocks, logSize, trace); var calls := Calls(threads, blocks, logSize, trace);
            forall i <- s.out :: i < |calls| && s.out[i] == calls[i]
  {
    hide Reached, Calls;
    ElementsAreArguments(threads, blocks, logSize, trace);
    DeliversTheQueue(threads, blocks, logSize, trace);
  }

  // ---------- a call that has its block publishes ----------

  /** How many operations of the producer are left until the element is published, once the call has its block; 0 before that. */
  function Left(prod: ProdPc): nat {
    match prod
    case ReuseNext(_) => 6
    case WriteBase(_) => 5
    case WriteBlock(_) => 4
    case WriteFront(_) => 3
    case WriteElem(_) => 2
    case WriteTail(_) => 1
    case _ => 0
  }

  function Produces(trace: seq<Event>): nat {
    if trace == [] then 0 else Produces(trace[..|trace| - 1]) + if trace[|trace| - 1].Produce? then 1 else 0
  }

  /** After n of the producer's operations. */
  predicate PublishedBy(s: State, r: State, n: nat)
    requires Left(s.prod) > 0
  {
    if n < Left(s.prod) then r.items == s.items && Left(r.prod) == Left(s.prod) - n && r.prod.x == s.prod.x
    else s.items + [s.prod.x] <= r.items
  }

  /** One operation nearer, or published. */
  predicate Nearer(s: State, r: State, e: Event)
    requires Left(s.prod) > 0
  {
    if !e.Produce? then r.prod == s.prod && r.items == s.items
    else if Left(s.prod) > 1 then Left(r.prod) == Left(s.prod) - 1 && r.prod.x == s.prod.x && r.items == s.items
    else r.items == s.items + [s.prod.x]
  }

  lemma PublishedMore(s: State, q: State, r: State, e: Event, n: nat)
    requires Left(s.prod) > 0 && PublishedBy(s, q, n) && q.items <= r.items && (Left(q.prod) > 0 ==> Nearer(q, r, e))
    ensures PublishedBy(s, r, if e.Produce? then n + 1 else n)
  {
    hide Left;
  }

  lemma ProducerStep(s: State, e: Event)
    requires Inv(s)
    ensures Sized(s) && s.items <= Step(s, e).items && (Left(s.prod) > 0 ==> Nearer(s, Step(s, e), e))
  {
    hide IndexInv, Live, Out, Looks, C.Step, C.Claims;
  }

  /** Whatever the others do, the producer's next operations publish the element of a call that has its block. */
  lemma {:induction false} AlwaysPublishes(threads: nat, blocks: nat, logSize: nat, trace: seq<Event>, more: seq<Event>)
    requires Left(Reached(threads, blocks, logSize, trace).prod) > 0
    ensures PublishedBy(Reached(threads, blocks, logSize, trace), Reached(threads, blocks, logSize, trace + more), Produces(more))
    decreases |more|
  {
    hide Reached, Step, Left, Inv, PublishedBy, Nearer;
    if more == [] {
      assert trace + more == trace;
      NothingYet(Reached(threads, blocks, logSize, trace));
    } else {
      var before, e := more[..|more| - 1], more[|more| - 1];
      AlwaysPublishes(threads, blocks, logSize, trace, before);
      assert trace + more == (trace + before) + [e];
      ReachedMore(threads, blocks, logSize, trace + before, e);
      ProducerStep(Reached(threads, blocks, logSize, trace + before), e);
      PublishedMore(Reached(threads, blocks, logSize, trace), Reached(threads, blocks, logSize, trace + before),
                    Reached(threads, blocks, logSize, trace + more), e, Produces(before));
    }
  }

  lemma NothingYet(s: State)
    requires Left(s.prod) > 0
    ensures PublishedBy(s, s, 0)
  {
  }

  /** A block handed over by the pool is such a block. */
  lemma RequisitionGoesOn(threads: nat, blocks: nat, logSize: nat, trace: seq<Event>, b: nat)
    requires Reached(threads, blocks, logSize, trace).prod.NeedBlock?
    ensures var s := Reached(threads, blocks, logSize, trace); var r := Reached(threads, blocks, logSize, trace + [Requisition(b)]);
            Sized(s) && (Spare(s, b) ==> Left(r.prod) == 5 && r.prod.x == s.prod.x && r.tailBlock == b)
  {
    hide Reached, Inv;
    ReachedMore(threads, blocks, logSize, trace, Requisition(b));
  }

  /** Where a call begins: in the middle of a block it has its block already. */
  lemma EnqueueBegins(threads: nat, blocks: nat, logSize: nat, trace: seq<Event>, x: int)
    requires Reached(threads, blocks, logSize, trace).prod.ProdIdle?
    ensures var s := Reached(threads, blocks, logSize, trace); var r := Reached(threads, blocks, logSize, trace + [Enqueue(x)]);
            r == s.(prod := r.prod) && Pending(r.prod) == [x]
            && if |s.items| % BLOCK_SIZE == 0 then r.prod.CheckNext? else Left(r.prod) == 2
  {
    hide Reached;
    ReachedMore(threads, blocks, logSize, trace, Enqueue(x));
  }

  /** All elements of a run of indices have been delivered. */
  predicate Consumed(s: State, k: int) {
    forall i: nat | k * BLOCK_SIZE <= i < (k + 1) * BLOCK_SIZE :: i in s.out
  }

  /**
   At the end of a block the producer takes the oldest block again if and only if all
   of its elements have been delivered; otherwise it goes on to need a new one.
   */
  lemma ReusesEmptied(threads: nat, blocks: nat, logSize: nat, trace: seq<Event>)
    requires Reached(threads, blocks, logSize, trace).prod.CheckNext?
    ensures var s := Reached(threads, blocks, logSize, trace); var x := s.prod.x;
            var r := Reached(threads, blocks, logSize, trace + [Produce]);
            var q := Reached(threads, blocks, logSize, trace + [Produce] + [Produce]);
            if s.hist != [] && Consumed(s, Oldest(s)) then r.prod == ReuseNext(x) && q.tailBlock == s.hist[Oldest(s)]
            else r.prod == MakeRoom(x) && q.prod == NeedBlock(x)
  {
    hide Reached, Consumed, Inv, CheckStep, ReuseStep, RoomStep;
    ReachedMore(threads, blocks, logSize, trace, Produce);
    ReachedMore(threads, blocks, logSize, trace + [Produce], Produce);
    var s := Reached(threads, blocks, logSize, trace);
    CheckExact(s);
    AfterCheck(s);
  }

  lemma AfterCheck(s: State)
    requires Sized(s) && s.prod.CheckNext?
    ensures var r := s.(prod := ReuseNext(s.prod.x)); s.tailBlock >= 0 ==> ReuseStep(r).tailBlock == s.blocks[s.tailBlock].next
    ensures var r := s.(prod := MakeRoom(s.prod.x)); RoomStep(r).prod == NeedBlock(s.prod.x)
  {
    hide Doubled;
  }

  lemma CheckExact(s: State)
    requires Inv(s) && s.prod.CheckNext?
    ensures Sized(s) && Sized(CheckStep(s))
    ensures if s.hist != [] && Consumed(s, Oldest(s)) then
              CheckStep(s) == s.(prod := ReuseNext(s.prod.x)) && s.tailBlock >= 0 && s.blocks[s.tailBlock].next == s.hist[Oldest(s)]
            else CheckStep(s) == s.(prod := MakeRoom(s.prod.x))
  {
    hide IndexInv, Out, Looks, C.Claims, BlockElems, Consumed, AllEmpty;
    if s.hist != [] {
      var b := s.blocks[s.hist[Oldest(s)]];
      assert BlockFlags(b, Oldest(s), s.out);
      FlagsConsumed(s, b, Oldest(s));
    }
  }

  lemma FlagsConsumed(s: State, b: Block, k: nat)
    requires |b.empty| == BLOCK_SIZE && BlockFlags(b, k, s.out)
    ensures AllEmpty(b) <==> Consumed(s, k)
  {
    if AllEmpty(b) {
      forall i: nat | k * BLOCK_SIZE <= i < (k + 1) * BLOCK_SIZE ensures i in s.out {
        assert b.empty[k * BLOCK_SIZE + (BLOCK_SIZE - 1) - i];
      }
    }
    if Consumed(s, k) {
      forall j | 0 <= j < |b.empty| ensures b.empty[j] {
        var i: nat := k * BLOCK_SIZE + (BLOCK_SIZE - 1 - j);
        assert i in s.out;
      }
    }
  }

  // ---------- a consumer that has claimed delivers ----------

  /** How many operations of the consumer are left until it returns. */
  function LeftToRead(pc: LookPc): nat {
    match pc
    case Before => 6
    case LoadFront(_) => 5
    case LoadBase(_, _, _) => 4
    case LoadBlock(_, _, _, _) => 3
    case LoadElem(_) => 2
    case SetEmpty(_, _) => 1
  }

  function Consumes(trace: seq<Event>, t: nat): nat {
    if trace == [] then 0 else Consumes(trace[..|trace| - 1], t) + if trace[|trace| - 1] == Consume(t) then 1 else 0
  }

  /** One operation nearer, or delivered. */
  predicate ReadsOn(s: State, r: State, t: nat)
    requires t < |s.look| && t < |s.c.pcs| && s.c.pcs[t].Claimed?
  {
    var i := s.c.pcs[t].index;
    if s.look[t].SetEmpty? then i < |s.items| && i in r.out && r.out[i] == s.items[i]
    else r.c == s.c && |r.look| == |s.look| && LeftToRead(r.look[t]) == LeftToRead(s.look[t]) - 1
  }

  lemma LookProgress(s: State, t: nat)
    requires Sized(s) && Inv(s) && t < |s.look| && s.c.pcs[t].Claimed?
    ensures ReadsOn(s, LookStep(s, t), t)
  {
    hide C.Claims, AtSlot, Out, Circle, Live, Ring, Partial, Runs, C.Step;
    assert LookInv(s.look[t], s.c.pcs[t], s.headers, s.spans, s.hist, s.items);
    CircleParts(s.hist, Oldest(s), s.tailBlock, s.blocks);
  }

  /** Other events leave a consumer that has claimed an index where it is, and take nothing back. */
  lemma OthersStay(s: State, e: Event, t: nat)
    requires Inv(s) && t < |s.look| && s.c.pcs[t].Claimed? && e != Consume(t)
    ensures Sized(s) && t < |Step(s, e).look| && Step(s, e).look[t] == s.look[t]
    ensures t < |Step(s, e).c.pcs| && Step(s, e).c.pcs[t] == s.c.pcs[t]
  {
    hide IndexInv, Circle, Out, Live, Looks, C.Claims;
    InvSized(s);
  }

  /** Deliveries are final. */
  lemma OutStays(s: State, e: Event, i: nat, v: int)
    requires Inv(s) && i in s.out && s.out[i] == v
    ensures Sized(s) && i in Step(s, e).out && Step(s, e).out[i] == v
  {
    hide IndexInv, Circle, Live, Looks, C.Claims, C.Step;
    InvSized(s);
    if e.Consume? && e.t < |s.look| && s.c.pcs[e.t].Claimed? {
      assert s.c.pcs[e.t].index !in s.out;
    }
  }

  /** Whatever the others do, a consumer that has claimed index i delivers the element of index i with its next operations. */
  lemma {:induction false} AlwaysDelivers(threads: nat, blocks: nat, logSize: nat, trace: seq<Event>, t: nat, more: seq<Event>)
    requires t < |Reached(threads, blocks, logSize, trace).look| && t < |Reached(threads, blocks, logSize, trace).c.pcs|
    requires Reached(threads, blocks, logSize, trace).c.pcs[t].Claimed?
    ensures var s := Reached(threads, blocks, logSize, trace); var r := Reached(threads, blocks, logSize, trace + more);
            var i, n, left := s.c.pcs[t].index, Consumes(more, t), LeftToRead(s.look[t]);
            && i < |s.items|
            && (n < left ==> t < |r.look| && t < |r.c.pcs| && r.c.pcs[t] == s.c.pcs[t] && LeftToRead(r.look[t]) == left - n)
            && (n >= left ==> i in r.out && r.out[i] == s.items[i])
    decreases |more|
  {
    hide Reached, Step, LeftToRead, Inv;
    ClaimInRange(Reached(threads, blocks, logSize, trace), t);
    if more == [] {
      assert trace + more == trace;
      LastRead(Reached(threads, blocks, logSize, trace).look[t]);
    } else {
      var before, e := more[..|more| - 1], more[|more| - 1];
      AlwaysDelivers(threads, blocks, logSize, trace, t, before);
      assert trace + more == (trace + before) + [e];
      ReachedMore(threads, blocks, logSize, trace + before, e);
      var s, q := Reached(threads, blocks, logSize, trace), Reached(threads, blocks, logSize, trace + before);
      ItemsGrow(threads, blocks, logSize, trace, before);
      var i := s.c.pcs[t].index;
      if Consumes(before, t) >= LeftToRead(s.look[t]) {
        OutStays(q, e, i, s.items[i]);
      } else if e == Consume(t) {
        ReadStep(q, t);
        LastRead(q.look[t]);
      } else {
        OthersStay(q, e, t);
      }
    }
  }

  lemma LastRead(pc: LookPc)
    ensures pc.SetEmpty? <==> LeftToRead(pc) == 1
    ensures LeftToRead(pc) > 0
  {
  }

  lemma ReadStep(q: State, t: nat)
    requires Inv(q) && t < |q.look| && t < |q.c.pcs| && q.c.pcs[t].Claimed?
    ensures Sized(q) && ReadsOn(q, Step(q, Consume(t)), t)
  {
    hide LookStep, ReadsOn, Inv;
    InvSized(q);
    LookProgress(q, t);
  }

  lemma ClaimInRange(s: State, t: nat)
    requires Inv(s) && t < |s.c.pcs| && s.c.pcs[t].Claimed?
    ensures s.c.pcs[t].index < |s.items|
  {
    hide IndexInv, Circle, Live, Looks, Out;
  }

  lemma {:induction false} ItemsGrow(threads: nat, blocks: nat, logSize: nat, trace: seq<Event>, more: seq<Event>)
    ensures Reached(threads, blocks, logSize, trace).items <= Reached(threads, blocks, logSize, trace + more).items
    decreases |more|
  {
    hide Reached, Step, Inv;
    if more == [] {
      assert trace + more == trace;
    } else {
      var before, e := more[..|more| - 1], more[|more| - 1];
      ItemsGrow(threads, blocks, logSize, trace, before);
      assert trace + more == (trace + before) + [e];
      ReachedMore(threads, blocks, logSize, trace + before, e);
      ProducerStep(Reached(threads, blocks, logSize, trace + before), e);
    }
  }
}
