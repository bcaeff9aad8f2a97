/**
 What the calls of the linked queue achieve: every outcome answers its own call, with
 the call's own argument; and a call that runs alone ends, whatever calls of others
 have been left under way.
 */
module LockfreeProgress {
  import opened LockfreeQueue

  lemma RunMore(threads: nat, trace: seq<Event>, e: Event)
    ensures Run(threads, trace + [e]) == Step(Run(threads, trace), e)
  {
    assert (trace + [e])[..|trace|] == trace;
  }

  // ---------- outcomes answer calls ----------

  datatype Call = Pushes(v: int) | Pops

  /** The calls thread t has begun, in order. */
  ghost function Calls(threads: nat, trace: seq<Event>, t: nat): seq<Call>
    requires t < threads
    decreases |trace|
  {
    if trace == [] then []
    else
      var before, e := trace[..|trace| - 1], trace[|trace| - 1];
      Calls(threads, before, t)
      + if e.Go? || e.t != t || !Run(threads, before).pcs[t].Idle? then []
        else if e.CallPush? then [Pushes(e.v)] else [Pops]
  }

  predicate Answers(op: Op, call: Call) {
    match op
    case Push(v) => call == Pushes(v)
    case Pop(_) => call == Pops
    case PopEmpty => call == Pops
  }

  /** The call under way. */
  predicate Serves(pc: Pc, call: Call) {
    match pc
    case Idle => false
    case PushLoadTail(_, v) => call == Pushes(v)
    case PushLoadNext(_, v, _) => call == Pushes(v)
    case PushLink(_, v, _, _) => call == Pushes(v)
    case PushHelp(_, v, _, _) => call == Pushes(v)
    case PushSwing(_, v, _) => call == Pushes(v)
    case PushCount(v) => call == Pushes(v)
    case _ => call == Pops
  }

  /** Each outcome answers its call; one more call may be under way. */
  ghost predicate Answered(returned: seq<Op>, pc: Pc, calls: seq<Call>) {
    && |calls| == |returned| + (if pc.Idle? then 0 else 1)
    && (forall i | 0 <= i < |returned| :: Answers(returned[i], calls[i]))
    && (!pc.Idle? ==> Serves(pc, calls[|returned|]))
  }

  /** One event: a call begins, an outcome is returned, or the call goes on. */
  lemma CallStep(s: State, e: Event, t: nat)
    requires t < |s.pcs| == |s.returned|
    ensures var r := Step(s, e);
            && |r.pcs| == |r.returned| == |s.pcs|
            && (if e.Go? || e.t != t || !s.pcs[t].Idle? then
                  || (r.pcs[t].Idle? && s.pcs[t].Idle? && r.returned[t] == s.returned[t])
                  || (r.pcs[t].Idle? && !s.pcs[t].Idle?
                      && exists op :: r.returned[t] == s.returned[t] + [op]
                                      && forall call :: Serves(s.pcs[t], call) ==> Answers(op, call))
                  || (!r.pcs[t].Idle? && !s.pcs[t].Idle? && r.returned[t] == s.returned[t]
                      && forall call :: Serves(s.pcs[t], call) ==> Serves(r.pcs[t], call))
                else
                  !r.pcs[t].Idle? && r.returned[t] == s.returned[t]
                  && Serves(r.pcs[t], if e.CallPush? then Pushes(e.v) else Pops))
  {
    if e.Go? && e.t == t {
      match s.pcs[t]
      case PushCount(v) => assert Step(s, e).returned[t] == s.returned[t] + [Push(v)];
      case PopCount(v) => assert Step(s, e).returned[t] == s.returned[t] + [Pop(v)];
      case PopLoadNext(_, _) =>
        if Step(s, e).pcs[t].Idle? { assert Step(s, e).returned[t] == s.returned[t] + [PopEmpty]; }
      case _ =>
    }
  }

  /** In every run each thread's outcomes answer its calls, one by one, a push with the call's own argument. */
  lemma {:induction false} OutcomesAnswerCalls(threads: nat, trace: seq<Event>, t: nat)
    requires t < threads
    ensures var s := Run(threads, trace); Answered(s.returned[t], s.pcs[t], Calls(threads, trace, t))
    decreases |trace|
  {
    hide Run, Step, Serves, Answers;
    if trace == [] {
      NothingCalled(threads, t);
    } else {
      var before, e := trace[..|trace| - 1], trace[|trace| - 1];
      OutcomesAnswerCalls(threads, before, t);
      assert trace == before + [e];
      RunMore(threads, before, e);
      CallStep(Run(threads, before), e, t);
    }
  }

  lemma NothingCalled(threads: nat, t: nat)
    requires t < threads
    ensures var s := Run(threads, []); s.returned[t] == [] && s.pcs[t].Idle?
  {
  }

  // ---------- a call that runs alone ends ----------

  /** t's next n operations, no compare-exchange failing for no reason (an idle thread does nothing). */
  function Onward(s: State, t: nat, n: nat): (r: State)
    ensures |r.pcs| == |s.pcs| && |r.returned| == |s.returned|
    decreases n
  {
    if n == 0 then s else Step(Onward(s, t, n - 1), Go(t, false))
  }

  /** A call of t and n operations of t, nobody else moving. */
  function Alone(s: State, call: Event, t: nat, n: nat): (r: State)
    ensures |r.pcs| == |s.pcs| && |r.returned| == |s.returned|
  {
    Onward(Step(s, call), t, n)
  }

  lemma {:induction false} OnwardTwice(s: State, t: nat, a: nat, b: nat)
    ensures Onward(s, t, a + b) == Onward(Onward(s, t, a), t, b)
    decreases b
  {
    hide Step;
    if b > 0 { OnwardTwice(s, t, a, b - 1); }
  }

  lemma {:induction false} IdleStays(s: State, t: nat, n: nat)
    requires t < |s.pcs| && s.pcs[t].Idle?
    ensures Onward(s, t, n) == s
    decreases n
  {
    if n > 0 { IdleStays(s, t, n - 1); }
  }

  lemma {:induction false} OnwardInv(s: State, t: nat, n: nat)
    requires Inv(s)
    ensures Inv(Onward(s, t, n))
    decreases n
  {
    hide Inv, Step;
    if n > 0 {
      OnwardInv(s, t, n - 1);
      StepInv(Onward(s, t, n - 1), Go(t, false));
    }
  }

  /** The call has ended with this outcome, the log has its one entry, nobody else has moved. */
  predicate Ended(s: State, r: State, t: nat, op: Op)
    requires t < |s.pcs| && t < |s.returned|
  {
    && r.pcs == s.pcs[t := Idle] && r.returned == s.returned[t := s.returned[t] + [op]]
    && r.log == s.log + [Entry(t, op)]
  }

  lemma One(s: State, t: nat, n: nat)
    ensures Onward(s, t, n + 1) == Step(Onward(s, t, n), Go(t, false))
    ensures Onward(s, t, 0) == s
  {
  }

  /** t stands at another place, everything else is as it was. */
  function With(s: State, t: nat, pc: Pc): (r: State)
    requires t < |s.pcs|
    ensures |r.pcs| == |s.pcs| && r.pcs[t] == pc
  {
    s.(pcs := s.pcs[t := pc])
  }

  lemma WithTwice(s: State, t: nat, a: Pc, b: Pc)
    requires t < |s.pcs|
    ensures Goto(With(s, t, a), t, b) == With(s, t, b) && (s.pcs[t] == b ==> With(s, t, b) == s)
  {
    assert s.pcs[t := a][t := b] == s.pcs[t := b];
  }

  /** Every pop begins with its two loads. */
  lemma PopLoads(s: State, t: nat)
    requires t < |s.pcs| && s.pcs[t].PopLoadHead?
    ensures Onward(s, t, 2) == With(s, t, PopLoadNext(s.head, s.tail))
  {
    hide Onward, With;
    One(s, t, 0);
    One(s, t, 1);
    WithTwice(s, t, PopLoadHead, PopLoadTail(s.head));
    WithTwice(s, t, PopLoadTail(s.head), PopLoadNext(s.head, s.tail));
    FirstLoad(s, t);
    SecondLoad(s, t);
  }

  lemma FirstLoad(s: State, t: nat)
    requires t < |s.pcs| && s.pcs[t].PopLoadHead?
    ensures Step(s, Go(t, false)) == With(s, t, PopLoadTail(s.head))
  {
  }

  lemma SecondLoad(s: State, t: nat)
    requires t < |s.pcs|
    ensures Step(With(s, t, PopLoadTail(s.head)), Go(t, false)) == With(s, t, PopLoadNext(s.head, s.tail))
  {
    WithTwice(s, t, PopLoadTail(s.head), PopLoadNext(s.head, s.tail));
  }

  /** Head and tail at the same last node: the pop finds the queue empty. */
  lemma PopEmptyAlone(s: State, t: nat)
    requires t < |s.pcs| == |s.returned| && s.pcs[t].PopLoadHead? && s.tail == s.head && NextOf(s.nodes, s.head).ptr.Null?
    ensures Ended(s, Onward(s, t, 3), t, PopEmpty)
  {
    hide Onward, NextOf;
    PopLoads(s, t);
    One(s, t, 2);
    assert Onward(s, t, 3).pcs == s.pcs[t := Idle];
  }

  /** The tail is ahead of the head: the pop takes the first element. */
  lemma PopFirstAlone(s: State, t: nat, next: Tagged, v: int)
    requires t < |s.pcs| == |s.returned| && s.pcs[t].PopLoadHead? && s.tail != s.head
    requires NextOf(s.nodes, s.head) == next && next.ptr.To? && DataOf(s.nodes, next) == v
    ensures Ended(s, Onward(s, t, 5), t, Pop(v))
  {
    hide Onward, NextOf, DataOf, Step, With;
    PopLoads(s, t);
    One(s, t, 2);
    One(s, t, 3);
    One(s, t, 4);
    ThirdLoad(s, t, next, v);
    HeadSwings(s, t, next, v);
  }

  lemma ThirdLoad(s: State, t: nat, next: Tagged, v: int)
    requires t < |s.pcs| && s.tail != s.head
    requires NextOf(s.nodes, s.head) == next && next.ptr.To? && DataOf(s.nodes, next) == v
    ensures Step(With(s, t, PopLoadNext(s.head, s.tail)), Go(t, false)) == With(s, t, PopSwing(s.head, next, v))
  {
    hide NextOf, DataOf;
    WithTwice(s, t, PopLoadNext(s.head, s.tail), PopSwing(s.head, next, v));
  }

  lemma HeadSwings(s: State, t: nat, next: Tagged, v: int)
    requires t < |s.pcs| == |s.returned|
    ensures Ended(s, Step(Step(With(s, t, PopSwing(s.head, next, v)), Go(t, false)), Go(t, false)), t, Pop(v))
  {
    var s4 := Step(With(s, t, PopSwing(s.head, next, v)), Go(t, false));
    assert s4.pcs == s.pcs[t := PopCount(v)] && s4.log == s.log + [Entry(t, Pop(v))] && s4.returned == s.returned;
    assert Step(s4, Go(t, false)).pcs == s.pcs[t := Idle];
  }

  /** Another thread has linked a node and not moved the tail: the pop does it first. */
  lemma PopHelps(s: State, t: nat, next: Tagged)
    requires t < |s.pcs| && s.pcs[t].PopLoadHead? && s.tail == s.head && NextOf(s.nodes, s.head) == next && next.ptr.To?
    ensures Onward(s, t, 4) == s.(tail := Tagged(next.ptr, s.tail.tag + 1))
  {
    hide Onward, NextOf, Step, With;
    PopLoads(s, t);
    One(s, t, 2);
    One(s, t, 3);
    NeedsHelp(s, t, next);
    HelpStep(s, t, s.tail, next);
  }

  lemma NeedsHelp(s: State, t: nat, next: Tagged)
    requires t < |s.pcs| && s.tail == s.head && NextOf(s.nodes, s.head) == next && next.ptr.To?
    ensures Step(With(s, t, PopLoadNext(s.head, s.tail)), Go(t, false)) == With(s, t, PopHelp(s.tail, next))
  {
    hide NextOf;
    WithTwice(s, t, PopLoadNext(s.head, s.tail), PopHelp(s.tail, next));
  }

  lemma HelpStep(s: State, t: nat, tail: Tagged, next: Tagged)
    requires t < |s.pcs| && s.pcs[t].PopLoadHead? && s.tail == tail
    ensures Step(With(s, t, PopHelp(tail, next)), Go(t, false)) == s.(tail := Tagged(next.ptr, tail.tag + 1))
  {
    assert s.pcs[t := PopHelp(tail, next)][t := PopLoadHead] == s.pcs;
  }

  /** What a walker along the chain reads. */
  lemma ReadsChain(s: State, p: Tagged)
    requires Inv(s) && p.tag < |s.chain| && p.ptr == To(s.chain[p.tag])
    ensures if p.tag + 1 == |s.chain| then NextOf(s.nodes, p) == NIL
            else NextOf(s.nodes, p).ptr == To(s.chain[p.tag + 1]) && DataOf(s.nodes, NextOf(s.nodes, p)) == s.vals[p.tag + 1]
  {
    hide Replay, Histories, Sized, Locals, Ends;
    assert s.nodes[s.chain[p.tag]].next == if p.tag + 1 < |s.chain| then Tagged(To(s.chain[p.tag + 1]), 1) else NIL;
  }

  lemma PopOnward(s: State, t: nat)
    requires Inv(s) && t < |s.pcs| && s.pcs[t].PopLoadHead?
    ensures |s.returned| == |s.pcs| && Ended(s, Onward(s, t, 9), t, if Contents(s) == [] then PopEmpty else Pop(Contents(s)[0]))
  {
    hide Onward, Inv, NextOf, DataOf;
    EndsInOrder(s);
    ReadsChain(s, s.head);
    var next := NextOf(s.nodes, s.head);
    if s.head.tag + 1 == |s.chain| {
      PopEmptyAlone(s, t);
      OnwardTwice(s, t, 3, 6);
      IdleStays(Onward(s, t, 3), t, 6);
    } else if s.head.tag < s.tail.tag {
      PopFirstAlone(s, t, next, s.vals[s.head.tag + 1]);
      OnwardTwice(s, t, 5, 4);
      IdleStays(Onward(s, t, 5), t, 4);
    } else {
      PopHelps(s, t, next);
      PopFirstAlone(Onward(s, t, 4), t, next, s.vals[s.head.tag + 1]);
      OnwardTwice(s, t, 4, 5);
    }
  }

  lemma EndsInOrder(s: State)
    requires Inv(s)
    ensures s.head.tag <= s.tail.tag < |s.chain| == |s.vals| && |s.chain| <= s.tail.tag + 2
    ensures s.head.ptr == To(s.chain[s.head.tag]) && s.tail.ptr == To(s.chain[s.tail.tag])
    ensures Contents(s) == s.vals[s.head.tag + 1..]
    ensures |s.returned| == |s.pcs|
  {
  }

  /** A pop run alone ends with the first element, or, if there is none, empty-handed. */
  lemma PopAlone(threads: nat, trace: seq<Event>, t: nat)
    requires t < threads && Run(threads, trace).pcs[t].Idle?
    ensures var s := Run(threads, trace); var r := Alone(s, CallPop(t), t, 9);
            && r.pcs == s.pcs
            && r.returned[t] == s.returned[t] + [if Contents(s) == [] then PopEmpty else Pop(Contents(s)[0])]
            && Contents(r) == if Contents(s) == [] then [] else Contents(s)[1..]
  {
    hide Run, Onward, Inv, Contents, Of;
    RunInv(threads, trace);
    var s := Run(threads, trace);
    EndsInOrder(s);
    var s1 := Step(s, CallPop(t));
    StepInv(s, CallPop(t));
    PopOnward(s1, t);
    OnwardInv(s1, t, 9);
    CalledPop(s, t);
    LogTells(s1, Onward(s1, t, 9), t, if Contents(s) == [] then PopEmpty else Pop(Contents(s)[0]));
    assert s.pcs[t := PopLoadHead][t := Idle] == s.pcs;
  }

  lemma CalledPop(s: State, t: nat)
    requires t < |s.pcs| && s.pcs[t].Idle?
    ensures var r := Step(s, CallPop(t)); r == s.(pcs := s.pcs[t := PopLoadHead]) && Contents(r) == Contents(s)
  {
  }

  /** The contents follow from the log. */
  lemma LogTells(s: State, r: State, t: nat, op: Op)
    requires Inv(s) && Inv(r) && r.log == s.log + [Entry(t, op)]
    ensures Holds(Contents(r)) == Apply(Holds(Contents(s)), op)
  {
    hide Contents, Linked, Ends, Locals, Histories, Sized, Replay, Apply;
    ReplayAppend(s.log, Entry(t, op));
  }

  // ---------- a push that runs alone ends ----------

  lemma PushLastAlone(s: State, t: nat, n: nat, v: int)
    requires t < |s.pcs| == |s.returned| && s.pcs[t] == PushLoadTail(n, v) && NextOf(s.nodes, s.tail) == NIL
    ensures Ended(s, Onward(s, t, 5), t, Push(v))
  {
    hide Onward, NextOf, WithNext;
    One(s, t, 0);
    One(s, t, 1);
    One(s, t, 2);
    One(s, t, 3);
    One(s, t, 4);
    assert Onward(s, t, 1) == s.(pcs := s.pcs[t := PushLoadNext(n, v, s.tail)]);
    assert Onward(s, t, 2) == s.(pcs := s.pcs[t := PushLink(n, v, s.tail, NIL)]);
    var s3 := Onward(s, t, 3);
    assert s3.pcs == s.pcs[t := PushSwing(n, v, s.tail)] && s3.log == s.log + [Entry(t, Push(v))] && s3.returned == s.returned;
    var s4 := Onward(s, t, 4);
    assert s4.pcs == s.pcs[t := PushCount(v)] && s4.log == s3.log && s4.returned == s.returned;
    assert Onward(s, t, 5).pcs == s.pcs[t := Idle];
  }

  lemma PushHelps(s: State, t: nat, n: nat, v: int, next: Tagged)
    requires t < |s.pcs| && s.pcs[t] == PushLoadTail(n, v) && NextOf(s.nodes, s.tail) == next && next.ptr.To?
    ensures Onward(s, t, 3) == s.(tail := Tagged(next.ptr, s.tail.tag + 1))
  {
    hide Onward, NextOf;
    One(s, t, 0);
    One(s, t, 1);
    One(s, t, 2);
    assert Onward(s, t, 1) == s.(pcs := s.pcs[t := PushLoadNext(n, v, s.tail)]);
    assert Onward(s, t, 2) == s.(pcs := s.pcs[t := PushHelp(n, v, s.tail, next)]);
    assert Onward(s, t, 3).pcs == s.pcs;
  }

  lemma PushOnward(s: State, t: nat, n: nat, v: int)
    requires Inv(s) && t < |s.pcs| && s.pcs[t] == PushLoadTail(n, v)
    ensures |s.returned| == |s.pcs| && Ended(s, Onward(s, t, 8), t, Push(v))
  {
    hide Onward, Inv, NextOf, DataOf;
    EndsInOrder(s);
    ReadsChain(s, s.tail);
    if s.tail.tag + 1 == |s.chain| {
      PushLastAlone(s, t, n, v);
      OnwardTwice(s, t, 5, 3);
      IdleStays(Onward(s, t, 5), t, 3);
    } else {
      var next := NextOf(s.nodes, s.tail);
      PushHelps(s, t, n, v, next);
      ReadsChain(s, Tagged(next.ptr, s.tail.tag + 1));
      PushLastAlone(Onward(s, t, 3), t, n, v);
      OnwardTwice(s, t, 3, 5);
    }
  }

  /** A push run alone ends with its own argument at the end of the queue. */
  lemma PushAlone(threads: nat, trace: seq<Event>, t: nat, v: int)
    requires t < threads && Run(threads, trace).pcs[t].Idle?
    ensures var s := Run(threads, trace); var r := Alone(s, CallPush(t, v), t, 8);
            r.pcs == s.pcs && r.returned[t] == s.returned[t] + [Push(v)] && Contents(r) == Contents(s) + [v]
  {
    hide Run, Onward, Inv, Contents, Of;
    RunInv(threads, trace);
    var s := Run(threads, trace);
    var s1 := Step(s, CallPush(t, v));
    StepInv(s, CallPush(t, v));
    CalledPush(s, t, v);
    PushOnward(s1, t, |s.nodes|, v);
    OnwardInv(s1, t, 8);
    LogTells(s1, Onward(s1, t, 8), t, Push(v));
    assert s.pcs[t := PushLoadTail(|s.nodes|, v)][t := Idle] == s.pcs;
  }

  lemma CalledPush(s: State, t: nat, v: int)
    requires t < |s.pcs| && s.pcs[t].Idle?
    ensures var r := Step(s, CallPush(t, v));
            r.pcs == s.pcs[t := PushLoadTail(|s.nodes|, v)] && r.returned == s.returned && Contents(r) == Contents(s)
  {
  }
}
