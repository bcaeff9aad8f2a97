/**
 The linked queue with tagged head and tail pointers: any number of threads push
 and pop, one atomic operation a step, any interleaving. Nodes are never reused
 and tags are unbounded; a weak compare-exchange may fail for no reason.
 */
module LockfreeQueue {
  import opened Counting

  const SIZE_MODULUS: int := 0x1_0000_0000_0000_0000

  datatype Link = Null | To(node: nat)

  datatype Tagged = Tagged(ptr: Link, tag: nat)

  /** `owner` is the thread that created the node; it is never read by a step. */
  datatype Node = Node(next: Tagged, data: int, owner: nat)

  datatype Pc =
    | Idle
    // push_back
    | PushLoadTail(n: nat, v: int)
    | PushLoadNext(n: nat, v: int, tail: Tagged)
    | PushLink(n: nat, v: int, tail: Tagged, next: Tagged)    // compare-exchange on tail->next
    | PushHelp(n: nat, v: int, tail: Tagged, next: Tagged)    // swing m_tail for another thread, start again
    | PushSwing(n: nat, v: int, tail: Tagged)                 // swing m_tail to the own node
    | PushCount(v: int)                                       // m_size.fetch_add
    // pop_front
    | PopLoadHead
    | PopLoadTail(head: Tagged)
    | PopLoadNext(head: Tagged, tail: Tagged)
    | PopHelp(tail: Tagged, next: Tagged)                     // swing m_tail, start again
    | PopSwing(head: Tagged, next: Tagged, v: int)            // compare-exchange on m_head; v has been read from next
    | PopCount(v: int)                                        // m_size.fetch_sub

  datatype Op = Push(v: int) | Pop(v: int) | PopEmpty

  datatype Entry = Entry(thread: nat, op: Op)

  /**
   Four fields record history and are never read by a step: `chain` lists the nodes
   in the order they were linked (chain[0] is the first dummy), `vals` their data,
   `log` the operations in the order they take effect, and `returned[t]` the
   outcomes of the calls thread t has completed.
   */
  datatype State = State(
    nodes: seq<Node>,
    head: Tagged,
    tail: Tagged,
    size: nat,
    pcs: seq<Pc>,
    chain: seq<nat>,
    vals: seq<int>,
    log: seq<Entry>,
    returned: seq<seq<Op>>)

  /** A call, or one operation of a thread; `weak` says that a weak compare-exchange fails spuriously. */
  datatype Event = CallPush(t: nat, v: int) | CallPop(t: nat) | Go(t: nat, weak: bool)

  const NIL: Tagged := Tagged(Null, 0)

  function Init(threads: nat): State {
    State([Node(NIL, 0, 0)], Tagged(To(0), 0), Tagged(To(0), 0), 0, seq(threads, _ => Idle),
          [0], [0], [], seq(threads, _ => []))
  }

  function NextOf(nodes: seq<Node>, p: Tagged): Tagged {
    if p.ptr.To? && p.ptr.node < |nodes| then nodes[p.ptr.node].next else NIL
  }

  function DataOf(nodes: seq<Node>, p: Tagged): int {
    if p.ptr.To? && p.ptr.node < |nodes| then nodes[p.ptr.node].data else 0
  }

  function WithNext(nodes: seq<Node>, p: Tagged, next: Tagged): seq<Node> {
    if p.ptr.To? && p.ptr.node < |nodes| then nodes[p.ptr.node := nodes[p.ptr.node].(next := next)] else nodes
  }

  function Goto(s: State, t: nat, pc: Pc): State
    requires t < |s.pcs|
  {
    s.(pcs := s.pcs[t := pc])
  }

  function Return(s: State, t: nat, op: Op): State
    requires t < |s.pcs|
  {
    if t < |s.returned| then Goto(s, t, Idle).(returned := s.returned[t := s.returned[t] + [op]]) else s
  }

  function SwingTail(s: State, seen: Tagged, p: Link): State {
    if s.tail == seen then s.(tail := Tagged(p, seen.tag + 1)) else s
  }

  function StepGo(s: State, t: nat, weak: bool): (r: State)
    requires t < |s.pcs|
    ensures |r.pcs| == |s.pcs| && |r.returned| == |s.returned|
  {
    match s.pcs[t]
    case Idle => s
    case PushLoadTail(n, v) => Goto(s, t, PushLoadNext(n, v, s.tail))
    case PushLoadNext(n, v, tail) =>
      var next := NextOf(s.nodes, tail);
      Goto(s, t, if next.ptr.Null? then PushLink(n, v, tail, next) else PushHelp(n, v, tail, next))
    case PushLink(n, v, tail, next) =>
      if NextOf(s.nodes, tail) == next && !weak then
        var s1 := s.(nodes := WithNext(s.nodes, tail, Tagged(To(n), next.tag + 1)),
                     chain := s.chain + [n], vals := s.vals + [v], log := s.log + [Entry(t, Push(v))]);
        Goto(s1, t, PushSwing(n, v, tail))
      else Goto(s, t, PushLoadTail(n, v))
    case PushHelp(n, v, tail, next) => Goto(SwingTail(s, tail, next.ptr), t, PushLoadTail(n, v))
    case PushSwing(n, v, tail) => Goto(SwingTail(s, tail, To(n)), t, PushCount(v))
    case PushCount(v) => Return(s.(size := (s.size + 1) % SIZE_MODULUS), t, Push(v))
    case PopLoadHead => Goto(s, t, PopLoadTail(s.head))
    case PopLoadTail(head) => Goto(s, t, PopLoadNext(head, s.tail))
    case PopLoadNext(head, tail) =>
      var next := NextOf(s.nodes, head);
      if head == tail then
        if next.ptr.Null? then Return(s.(log := s.log + [Entry(t, PopEmpty)]), t, PopEmpty)
        else Goto(s, t, PopHelp(tail, next))
      else if next.ptr.Null? then Goto(s, t, PopLoadHead)
      else Goto(s, t, PopSwing(head, next, DataOf(s.nodes, next)))
    case PopHelp(tail, next) => Goto(SwingTail(s, tail, next.ptr), t, PopLoadHead)
    case PopSwing(head, next, v) =>
      if s.head == head && !weak then
        Goto(s.(head := Tagged(next.ptr, head.tag + 1), log := s.log + [Entry(t, Pop(v))]), t, PopCount(v))
      else Goto(s, t, PopLoadHead)
    case PopCount(v) => Return(s.(size := (s.size - 1) % SIZE_MODULUS), t, Pop(v))
  }

  function Step(s: State, e: Event): (r: State)
    ensures |r.pcs| == |s.pcs| && |r.returned| == |s.returned|
  {
    match e
    case CallPush(t, v) =>
      if t < |s.pcs| && s.pcs[t].Idle? then
        Goto(s.(nodes := s.nodes + [Node(NIL, v, t)]), t, PushLoadTail(|s.nodes|, v))
      else s
    case CallPop(t) => if t < |s.pcs| && s.pcs[t].Idle? then Goto(s, t, PopLoadHead) else s
    case Go(t, weak) => if t < |s.pcs| then StepGo(s, t, weak) else s
  }

  ghost function Exec(s: State, trace: seq<Event>): (r: State)
    ensures |r.pcs| == |s.pcs| && |r.returned| == |s.returned|
    decreases |trace|
  {
    if trace == [] then s else Step(Exec(s, trace[..|trace| - 1]), trace[|trace| - 1])
  }

  ghost function Run(threads: nat, trace: seq<Event>): (r: State)
    ensures |r.pcs| == |r.returned| == threads
  {
    Exec(Init(threads), trace)
  }

  // ---------- the atomic queue ----------

  datatype Replayed = Illegal | Holds(items: seq<int>)

  /** The operations applied, one at a time, to an initially empty FIFO queue; illegal if an outcome is wrong. */
  function Replay(log: seq<Entry>): Replayed {
    if log == [] then Holds([]) else Apply(Replay(log[..|log| - 1]), log[|log| - 1].op)
  }

  function Apply(q: Replayed, op: Op): Replayed {
    if q.Illegal? then Illegal else
    match op
    case Push(v) => Holds(q.items + [v])
    case Pop(v) => if q.items != [] && q.items[0] == v then Holds(q.items[1..]) else Illegal
    case PopEmpty => if q.items == [] then q else Illegal
  }

  /** The operations of thread t, in order. */
  function Of(log: seq<Entry>, t: nat): seq<Op> {
    if log == [] then []
    else Of(log[..|log| - 1], t) + if log[|log| - 1].thread == t then [log[|log| - 1].op] else []
  }

  /** The operation that has taken effect in the call under way. */
  function InEffect(pc: Pc): seq<Op> {
    match pc
    case PushSwing(_, v, _) => [Push(v)]
    case PushCount(v) => [Push(v)]
    case PopCount(v) => [Pop(v)]
    case _ => []
  }

  lemma ReplayAppend(log: seq<Entry>, e: Entry)
    ensures Replay(log + [e]) == Apply(Replay(log), e.op)
  {
    assert (log + [e])[..|log|] == log;
  }

  lemma OfAppend(log: seq<Entry>, e: Entry, t: nat)
    ensures Of(log + [e], t) == Of(log, t) + if e.thread == t then [e.op] else []
  {
    assert (log + [e])[..|log|] == log;
  }

  // ---------- the invariant ----------

  /** The tagged pointer is the one to the node at position `tag` of the chain, at most `limit`. */
  predicate Seen(chain: seq<nat>, p: Tagged, limit: nat) {
    p.tag <= limit && p.tag < |chain| && p.ptr == To(chain[p.tag])
  }

  /** A node a pusher has not linked yet. */
  predicate Private(nodes: seq<Node>, chain: seq<nat>, t: nat, n: nat, v: int) {
    n < |nodes| && nodes[n] == Node(NIL, v, t) && n !in chain
  }

  /** What a thread in the middle of a call may rely on; h and l are the tags of m_head and m_tail. */
  predicate Local(pc: Pc, t: nat, nodes: seq<Node>, chain: seq<nat>, vals: seq<int>, h: nat, l: nat) {
    match pc
    case PushLoadTail(n, v) => Private(nodes, chain, t, n, v)
    case PushLoadNext(n, v, tail) => Private(nodes, chain, t, n, v) && Seen(chain, tail, l)
    case PushLink(n, v, tail, next) => Private(nodes, chain, t, n, v) && Seen(chain, tail, l) && next == NIL
    case PushHelp(n, v, tail, next) =>
      Private(nodes, chain, t, n, v) && Seen(chain, tail, l) && tail.tag + 1 < |chain| && next.ptr == To(chain[tail.tag + 1])
    case PushSwing(n, v, tail) => Seen(chain, tail, l) && tail.tag + 1 < |chain| && chain[tail.tag + 1] == n
    case PopLoadTail(head) => Seen(chain, head, h)
    case PopLoadNext(head, tail) => Seen(chain, head, h) && Seen(chain, tail, l) && head.tag <= tail.tag
    case PopHelp(tail, next) => Seen(chain, tail, l) && tail.tag + 1 < |chain| && next.ptr == To(chain[tail.tag + 1])
    case PopSwing(head, next, v) =>
      && Seen(chain, head, h) && head.tag + 1 <= l && head.tag + 1 < |chain| && head.tag + 1 < |vals|
      && next.ptr == To(chain[head.tag + 1]) && v == vals[head.tag + 1]
    case _ => true
  }

  /** The nodes of the chain are linked in order, each link made once. */
  predicate Linked(nodes: seq<Node>, chain: seq<nat>, vals: seq<int>) {
    && |chain| > 0 && |vals| == |chain|
    && (forall i | 0 <= i < |chain| :: chain[i] < |nodes| && nodes[chain[i]].data == vals[i])
    && (forall i, j | 0 <= i < j < |chain| :: chain[i] != chain[j])
    && (forall i {:trigger nodes[chain[i]]} | 0 <= i < |chain| ::
          nodes[chain[i]].next == if i + 1 < |chain| then Tagged(To(chain[i + 1]), 1) else NIL)
  }

  /** Tags are positions; the tail lags by at most one node, and only until the thread that linked the node moves on. */
  predicate Ends(head: Tagged, tail: Tagged, nodes: seq<Node>, chain: seq<nat>, pcs: seq<Pc>) {
    && Seen(chain, head, tail.tag) && Seen(chain, tail, |chain| - 1)
    && |chain| <= tail.tag + 2
    && (tail.tag + 1 < |chain| ==>
          var n := chain[tail.tag + 1];
          n < |nodes| && nodes[n].owner < |pcs| && var pc := pcs[nodes[n].owner]; pc.PushSwing? && pc.n == n)
  }

  /** The counter's error caused by the calls under way. */
  function Uncounted(): Pc -> int {
    (pc: Pc) => if pc.PushSwing? || pc.PushCount? then 1 else if pc.PopCount? then -1 else 0
  }

  predicate Sized(size: nat, held: int, pcs: seq<Pc>) {
    size == (held - Sum(pcs, Uncounted())) % SIZE_MODULUS
  }

  /** The elements in the queue. */
  function Contents(s: State): seq<int> {
    if s.head.tag < |s.vals| then s.vals[s.head.tag + 1..] else []
  }

  ghost predicate Locals(s: State) {
    forall t | 0 <= t < |s.pcs| :: Local(s.pcs[t], t, s.nodes, s.chain, s.vals, s.head.tag, s.tail.tag)
  }

  ghost predicate Histories(log: seq<Entry>, returned: seq<seq<Op>>, pcs: seq<Pc>) {
    |returned| == |pcs| && forall t | 0 <= t < |pcs| :: Of(log, t) == returned[t] + InEffect(pcs[t])
  }

  ghost predicate Inv(s: State) {
    && Linked(s.nodes, s.chain, s.vals)
    && Ends(s.head, s.tail, s.nodes, s.chain, s.pcs)
    && Locals(s)
    && Replay(s.log) == Holds(Contents(s))
    && Histories(s.log, s.returned, s.pcs)
    && Sized(s.size, |Contents(s)|, s.pcs)
  }

  lemma InitInv(threads: nat)
    ensures Inv(Init(threads))
  {
    SumBounds(Init(threads).pcs, Uncounted(), 0);
  }

  // ---------- frames ----------

  /** What other threads' steps leave alone, seen from thread t. */
  ghost predicate Grown(s: State, s': State, t: nat) {
    && s.chain <= s'.chain && s.vals <= s'.vals && s.head.tag <= s'.head.tag && s.tail.tag <= s'.tail.tag
    && |s.nodes| <= |s'.nodes|
    && forall n: nat | n < |s.nodes| && s.nodes[n].owner == t && n !in s.chain :: s'.nodes[n] == s.nodes[n] && n !in s'.chain
  }

  lemma LocalFrame(pc: Pc, s: State, s': State, t: nat)
    requires Local(pc, t, s.nodes, s.chain, s.vals, s.head.tag, s.tail.tag) && Grown(s, s', t)
    ensures Local(pc, t, s'.nodes, s'.chain, s'.vals, s'.head.tag, s'.tail.tag)
  {
  }

  lemma LocalsFrame(s: State, s': State, t: nat)
    requires Locals(s) && t < |s.pcs| && |s'.pcs| == |s.pcs|
    requires s'.pcs == s.pcs[t := s'.pcs[t]]
    requires forall u: nat | u < |s.pcs| && u != t :: Grown(s, s', u)
    requires Local(s'.pcs[t], t, s'.nodes, s'.chain, s'.vals, s'.head.tag, s'.tail.tag)
    ensures Locals(s')
  {
    hide Local, Grown;
    forall u | 0 <= u < |s.pcs| ensures Local(s'.pcs[u], u, s'.nodes, s'.chain, s'.vals, s'.head.tag, s'.tail.tag) {
      if u != t { LocalFrame(s.pcs[u], s, s', u); }
    }
  }

  lemma EndsFrame(s: State, t: nat, pc: Pc)
    requires Ends(s.head, s.tail, s.nodes, s.chain, s.pcs) && t < |s.pcs|
    requires !s.pcs[t].PushSwing?
    ensures Ends(s.head, s.tail, s.nodes, s.chain, s.pcs[t := pc])
  {
  }

  lemma SizedFrame(s: State, t: nat, pc: Pc, held: int)
    requires t < |s.pcs| && Sized(s.size, held, s.pcs)
    ensures Sized(s.size, held + Uncounted()(pc) - Uncounted()(s.pcs[t]), s.pcs[t := pc])
  {
    SumUpdate(s.pcs, t, pc, Uncounted());
  }

  lemma HistoriesQuiet(log: seq<Entry>, returned: seq<seq<Op>>, pcs: seq<Pc>, t: nat, pc: Pc)
    requires Histories(log, returned, pcs) && t < |pcs| && InEffect(pc) == InEffect(pcs[t])
    ensures Histories(log, returned, pcs[t := pc])
  {
  }

  lemma HistoriesEffect(log: seq<Entry>, returned: seq<seq<Op>>, pcs: seq<Pc>, t: nat, op: Op, pc: Pc)
    requires Histories(log, returned, pcs) && t < |pcs| && InEffect(pcs[t]) == [] && InEffect(pc) == [op]
    ensures Histories(log + [Entry(t, op)], returned, pcs[t := pc])
  {
    forall u | 0 <= u < |pcs| ensures Of(log + [Entry(t, op)], u) == returned[u] + InEffect(pcs[t := pc][u]) {
      OfAppend(log, Entry(t, op), u);
    }
  }

  lemma HistoriesReturn(log: seq<Entry>, returned: seq<seq<Op>>, pcs: seq<Pc>, t: nat, op: Op)
    requires Histories(log, returned, pcs) && t < |pcs| && InEffect(pcs[t]) == [op]
    ensures Histories(log, returned[t := returned[t] + [op]], pcs[t := Idle])
  {
  }

  // ---------- every step keeps the invariant ----------

  /** Positions of two tagged pointers into the chain. */
  lemma NextInChain(s: State, p: Tagged, limit: nat)
    requires Linked(s.nodes, s.chain, s.vals) && Seen(s.chain, p, limit)
    ensures NextOf(s.nodes, p) == if p.tag + 1 < |s.chain| then Tagged(To(s.chain[p.tag + 1]), 1) else NIL
  {
    var n := s.chain[p.tag];
    assert s.nodes[s.chain[p.tag]].next == NextOf(s.nodes, p);
  }

  lemma GrownSame(s: State, s': State, t: nat)
    requires s'.nodes == s.nodes && s'.chain == s.chain && s'.vals == s.vals
    requires s.head.tag <= s'.head.tag && s.tail.tag <= s'.tail.tag
    ensures Grown(s, s', t)
  {
  }

  /** A step that changes only the thread's own place. */
  lemma QuietInv(s: State, t: nat, pc: Pc)
    requires Inv(s) && t < |s.pcs| && !s.pcs[t].PushSwing?
    requires InEffect(pc) == InEffect(s.pcs[t]) && Uncounted()(pc) == Uncounted()(s.pcs[t])
    requires Local(pc, t, s.nodes, s.chain, s.vals, s.head.tag, s.tail.tag)
    ensures Inv(Goto(s, t, pc))
  {
    hide Local, Linked, Ends, Sized, Replay, Of;
    LocalsFrame(s, Goto(s, t, pc), t);
    EndsFrame(s, t, pc);
    SizedFrame(s, t, pc, |Contents(s)|);
    HistoriesQuiet(s.log, s.returned, s.pcs, t, pc);
  }

  lemma QuietLocals(s: State, s': State, t: nat)
    requires Locals(s) && t < |s.pcs| && |s'.pcs| == |s.pcs| && s'.pcs == s.pcs[t := s'.pcs[t]]
    requires s'.nodes == s.nodes && s'.chain == s.chain && s'.vals == s.vals
    requires s.head.tag <= s'.head.tag && s.tail.tag <= s'.tail.tag
    requires Local(s'.pcs[t], t, s'.nodes, s'.chain, s'.vals, s'.head.tag, s'.tail.tag)
    ensures Locals(s')
  {
    hide Local, Locals, Grown;
    forall u: nat | u < |s.pcs| && u != t ensures Grown(s, s', u) { GrownSame(s, s', u); }
    LocalsFrame(s, s', t);
  }

  lemma CallPushInv(s: State, t: nat, v: int)
    requires Inv(s) && t < |s.pcs| && s.pcs[t].Idle?
    ensures Inv(Step(s, CallPush(t, v)))
  {
    hide Replay, Of, Sum, Sized, Histories, Linked, Ends, Locals, StepGo;
    var s', pc := Step(s, CallPush(t, v)), PushLoadTail(|s.nodes|, v);
    assert s' == s.(nodes := s.nodes + [Node(NIL, v, t)], pcs := s.pcs[t := pc]);
    assert Contents(s') == Contents(s);
    CallPushLocals(s, t, v);
    EndsFrame(s, t, pc);
    EndsMore(s.head, s.tail, s.nodes, s.chain, s'.pcs, Node(NIL, v, t));
    SizedFrame(s, t, pc, |Contents(s)|);
    HistoriesQuiet(s.log, s.returned, s.pcs, t, pc);
    LinkedMore(s.nodes, s.chain, s.vals, Node(NIL, v, t));
  }

  lemma CallPushLocals(s: State, t: nat, v: int)
    requires Linked(s.nodes, s.chain, s.vals) && Locals(s) && t < |s.pcs| && s.pcs[t].Idle?
    ensures Locals(Step(s, CallPush(t, v)))
  {
    hide Linked, Locals;
    var s' := Step(s, CallPush(t, v));
    LinkedSizes(s.nodes, s.chain, s.vals);
    forall u: nat | u < |s.pcs| && u != t ensures Grown(s, s', u) {
    }
    LocalsFrame(s, s', t);
  }

  lemma EndsMore(head: Tagged, tail: Tagged, nodes: seq<Node>, chain: seq<nat>, pcs: seq<Pc>, n: Node)
    requires Ends(head, tail, nodes, chain, pcs)
    ensures Ends(head, tail, nodes + [n], chain, pcs)
  {
  }

  lemma LinkedMore(nodes: seq<Node>, chain: seq<nat>, vals: seq<int>, n: Node)
    requires Linked(nodes, chain, vals)
    ensures Linked(nodes + [n], chain, vals)
  {
  }

  /** The link compare-exchange succeeds only at the end of the chain. */
  lemma LinkAtEnd(s: State, t: nat, weak: bool)
    requires Inv(s) && t < |s.pcs| && s.pcs[t].PushLink? && NextOf(s.nodes, s.pcs[t].tail) == s.pcs[t].next
    ensures var pc := s.pcs[t];
            && pc.next == NIL && pc.tail == s.tail && s.tail.tag + 1 == |s.chain|
            && Private(s.nodes, s.chain, t, pc.n, pc.v) && Seen(s.chain, s.tail, s.tail.tag)
  {
    hide Replay, Of, Sum, Histories, Sized;
    var pc := s.pcs[t];
    assert Local(pc, t, s.nodes, s.chain, s.vals, s.head.tag, s.tail.tag);
    NextInChain(s, pc.tail, s.tail.tag);
  }

  lemma LinkedAppend(nodes: seq<Node>, chain: seq<nat>, vals: seq<int>, tail: Tagged, t: nat, n: nat, v: int)
    requires Linked(nodes, chain, vals) && Private(nodes, chain, t, n, v) && Seen(chain, tail, |chain| - 1) && tail.tag + 1 == |chain|
    ensures Linked(WithNext(nodes, tail, Tagged(To(n), 1)), chain + [n], vals + [v])
    ensures WithNext(nodes, tail, Tagged(To(n), 1))[n] == nodes[n]
  {
    var last := |chain| - 1;
    var ns, c := WithNext(nodes, tail, Tagged(To(n), 1)), chain + [n];
    assert chain[last] in chain;
    forall i {:trigger ns[c[i]]} | 0 <= i < |c| ensures ns[c[i]].next == if i + 1 < |c| then Tagged(To(c[i + 1]), 1) else NIL {
      if i < last {
        assert chain[i] != chain[last];
        assert nodes[chain[i]].next == Tagged(To(chain[i + 1]), 1);
      }
    }
    forall i, j | 0 <= i < j < |c| ensures c[i] != c[j] {
      if j == |chain| { assert chain[i] in chain; }
    }
  }

  lemma LinkInv(s: State, t: nat)
    requires Inv(s) && t < |s.pcs| && s.pcs[t].PushLink? && NextOf(s.nodes, s.pcs[t].tail) == s.pcs[t].next
    ensures Inv(StepGo(s, t, false))
  {
    hide Replay, Of, Sum, Sized, Histories, Linked;
    var s', pc := StepGo(s, t, false), s.pcs[t];
    LinkAtEnd(s, t, false);
    LinkedAppend(s.nodes, s.chain, s.vals, s.tail, t, pc.n, pc.v);
    LinkLocals(s, t);
    assert |s.vals| == |s.chain| by { LinkedSizes(s.nodes, s.chain, s.vals); }
    assert Contents(s') == Contents(s) + [pc.v];
    ReplayAppend(s.log, Entry(t, Push(pc.v)));
    SizedFrame(s, t, s'.pcs[t], |Contents(s)|);
    HistoriesEffect(s.log, s.returned, s.pcs, t, Push(pc.v), s'.pcs[t]);
  }

  lemma LinkedSizes(nodes: seq<Node>, chain: seq<nat>, vals: seq<int>)
    requires Linked(nodes, chain, vals)
    ensures |vals| == |chain| > 0 && forall i | 0 <= i < |chain| :: chain[i] < |nodes|
  {
  }

  lemma LinkLocals(s: State, t: nat)
    requires Inv(s) && t < |s.pcs| && s.pcs[t].PushLink? && NextOf(s.nodes, s.pcs[t].tail) == s.pcs[t].next
    ensures Locals(StepGo(s, t, false))
  {
    hide Replay, Of, Sum, Sized, Histories, Linked, Locals;
    var s', pc := StepGo(s, t, false), s.pcs[t];
    LinkAtEnd(s, t, false);
    LinkedSizes(s.nodes, s.chain, s.vals);
    assert s.chain[s.tail.tag] in s.chain;
    forall u: nat | u < |s.pcs| && u != t ensures Grown(s, s', u) {
    }
    LocalsFrame(s, s', t);
  }

  /** Any of the three swings of m_tail. */
  lemma SwingInv(s: State, t: nat, seen: Tagged, pc: Pc)
    requires Inv(s) && t < |s.pcs|
    requires Seen(s.chain, seen, s.tail.tag) && seen.tag + 1 < |s.chain|
    requires s.pcs[t].PushSwing? ==> s.pcs[t].n == s.chain[seen.tag + 1]
    requires InEffect(pc) == InEffect(s.pcs[t]) && Uncounted()(pc) == Uncounted()(s.pcs[t])
    requires Local(pc, t, s.nodes, s.chain, s.vals, s.head.tag, s.tail.tag) && !pc.PushSwing?
    ensures Inv(Goto(SwingTail(s, seen, To(s.chain[seen.tag + 1])), t, pc))
  {
    hide Replay, Of, Sum, Sized, Histories, Locals, Local, Linked, Ends;
    var s' := Goto(SwingTail(s, seen, To(s.chain[seen.tag + 1])), t, pc);
    SizedFrame(s, t, pc, |Contents(s)|);
    HistoriesQuiet(s.log, s.returned, s.pcs, t, pc);
    LocalTail(pc, t, s, s'.tail.tag);
    QuietLocals(s, s', t);
    SwingEnds(s, t, seen, pc);
  }

  lemma SwingEnds(s: State, t: nat, seen: Tagged, pc: Pc)
    requires Linked(s.nodes, s.chain, s.vals) && Ends(s.head, s.tail, s.nodes, s.chain, s.pcs) && t < |s.pcs|
    requires Seen(s.chain, seen, s.tail.tag) && seen.tag + 1 < |s.chain|
    requires s.pcs[t].PushSwing? ==> s.pcs[t].n == s.chain[seen.tag + 1]
    ensures var s' := Goto(SwingTail(s, seen, To(s.chain[seen.tag + 1])), t, pc);
            Ends(s'.head, s'.tail, s'.nodes, s'.chain, s'.pcs)
  {
    hide Linked;
    if s.tail.tag + 1 < |s.chain| && s.chain[seen.tag + 1] == s.chain[s.tail.tag + 1] {
      SamePosition(s.nodes, s.chain, s.vals, seen.tag + 1, s.tail.tag + 1);
    }
  }

  lemma SamePosition(nodes: seq<Node>, chain: seq<nat>, vals: seq<int>, i: nat, j: nat)
    requires Linked(nodes, chain, vals) && i < |chain| && j < |chain| && chain[i] == chain[j]
    ensures i == j
  {
  }

  lemma LocalTail(pc: Pc, t: nat, s: State, l: nat)
    requires Local(pc, t, s.nodes, s.chain, s.vals, s.head.tag, s.tail.tag) && s.tail.tag <= l
    ensures Local(pc, t, s.nodes, s.chain, s.vals, s.head.tag, l)
  {
  }

  lemma PopSwingInv(s: State, t: nat)
    requires Inv(s) && t < |s.pcs| && s.pcs[t].PopSwing? && s.pcs[t].head == s.head
    ensures Inv(StepGo(s, t, false))
  {
    hide Replay, Of, Sum, Sized, Histories, Locals, Linked;
    var s', pc := StepGo(s, t, false), s.pcs[t];
    LinkedSizes(s.nodes, s.chain, s.vals);
    LocalOf(s, t);
    QuietLocals(s, s', t);
    assert Contents(s)[0] == pc.v && Contents(s') == Contents(s)[1..];
    ReplayAppend(s.log, Entry(t, Pop(pc.v)));
    SizedFrame(s, t, s'.pcs[t], |Contents(s)|);
    HistoriesEffect(s.log, s.returned, s.pcs, t, Pop(pc.v), s'.pcs[t]);
  }

  lemma LocalOf(s: State, t: nat)
    requires Locals(s) && t < |s.pcs|
    ensures Local(s.pcs[t], t, s.nodes, s.chain, s.vals, s.head.tag, s.tail.tag)
  {
  }

  lemma PopEmptyInv(s: State, t: nat)
    requires Inv(s) && t < |s.pcs| && s.pcs[t].PopLoadNext?
    requires s.pcs[t].head == s.pcs[t].tail && NextOf(s.nodes, s.pcs[t].head).ptr.Null?
    ensures Contents(s) == [] && Inv(StepGo(s, t, false))
  {
    hide Replay, Of, Sum, Sized, Histories, Locals, Linked;
    var s', pc := StepGo(s, t, false), s.pcs[t];
    LinkedSizes(s.nodes, s.chain, s.vals);
    LocalOf(s, t);
    NextInChain(s, pc.head, s.head.tag);
    HistoriesEmpty(s.log, s.returned, s.pcs, t);
    QuietLocals(s, s', t);
    ReplayAppend(s.log, Entry(t, PopEmpty));
    SizedFrame(s, t, Idle, |Contents(s)|);
    EndsFrame(s, t, Idle);
  }

  lemma HistoriesEmpty(log: seq<Entry>, returned: seq<seq<Op>>, pcs: seq<Pc>, t: nat)
    requires Histories(log, returned, pcs) && t < |pcs| && InEffect(pcs[t]) == []
    ensures t < |returned| && Histories(log + [Entry(t, PopEmpty)], returned[t := returned[t] + [PopEmpty]], pcs[t := Idle])
  {
    forall u | 0 <= u < |pcs|
      ensures Of(log + [Entry(t, PopEmpty)], u) == returned[t := returned[t] + [PopEmpty]][u] + InEffect(pcs[t := Idle][u])
    {
      OfAppend(log, Entry(t, PopEmpty), u);
    }
  }

  lemma CountInv(s: State, t: nat)
    requires Inv(s) && t < |s.pcs| && (s.pcs[t].PushCount? || s.pcs[t].PopCount?)
    ensures Inv(StepGo(s, t, false))
  {
    hide Replay, Of, Sum, Locals, Linked, Ends, Sized, Histories;
    var s', pc := StepGo(s, t, false), s.pcs[t];
    HistoriesLength(s.log, s.returned, s.pcs);
    var op := if pc.PushCount? then Push(pc.v) else Pop(pc.v);
    HistoriesReturn(s.log, s.returned, s.pcs, t, op);
    QuietLocals(s, s', t);
    EndsFrame(s, t, Idle);
    SizedCount(s.size, |Contents(s)|, s.pcs, t);
  }

  lemma HistoriesLength(log: seq<Entry>, returned: seq<seq<Op>>, pcs: seq<Pc>)
    requires Histories(log, returned, pcs)
    ensures |returned| == |pcs|
  {
  }

  lemma SizedCount(size: nat, held: int, pcs: seq<Pc>, t: nat)
    requires Sized(size, held, pcs) && t < |pcs| && (pcs[t].PushCount? || pcs[t].PopCount?)
    ensures Sized(if pcs[t].PushCount? then (size + 1) % SIZE_MODULUS else (size - 1) % SIZE_MODULUS, held, pcs[t := Idle])
  {
    SumUpdate(pcs, t, Idle, Uncounted());
  }

  /** Loading m_next: where the pointer read leads. */
  lemma LoadNextInv(s: State, t: nat)
    requires Inv(s) && t < |s.pcs| && (s.pcs[t].PushLoadNext? || s.pcs[t].PopLoadNext?)
    ensures Inv(StepGo(s, t, false))
    ensures s.pcs[t].PopLoadNext? && s.pcs[t].head != s.pcs[t].tail ==> NextOf(s.nodes, s.pcs[t].head).ptr.To?
  {
    hide Replay, Of, Sum, Sized, Histories, Locals, Contents, Linked, Ends, NextOf, DataOf;
    var pc := s.pcs[t];
    LocalOf(s, t);
    LinkedSizes(s.nodes, s.chain, s.vals);
    EndsSeen(s);
    if pc.PushLoadNext? {
      NextInChain(s, pc.tail, s.tail.tag);
      QuietInv(s, t, StepGo(s, t, false).pcs[t]);
    } else {
      NextInChain(s, pc.head, s.head.tag);
      if pc.head == pc.tail && NextOf(s.nodes, pc.head).ptr.Null? {
        PopEmptyInv(s, t);
      } else {
        if pc.head.tag + 1 < |s.chain| { DataInChain(s, pc.head.tag + 1); }
        QuietInv(s, t, StepGo(s, t, false).pcs[t]);
      }
    }
  }

  lemma DataInChain(s: State, i: nat)
    requires Linked(s.nodes, s.chain, s.vals) && i < |s.chain|
    ensures DataOf(s.nodes, Tagged(To(s.chain[i]), 1)) == s.vals[i]
  {
  }

  lemma EndsSeen(s: State)
    requires Ends(s.head, s.tail, s.nodes, s.chain, s.pcs)
    ensures s.head.tag <= s.tail.tag < |s.chain| <= s.tail.tag + 2
    ensures Seen(s.chain, s.head, s.head.tag) && Seen(s.chain, s.tail, s.tail.tag)
  {
  }

  lemma GoInv(s: State, t: nat, weak: bool)
    requires Inv(s) && t < |s.pcs|
    ensures Inv(StepGo(s, t, weak))
  {
    hide Replay, Of, Sum, Sized, Histories, Locals, Linked, Contents;
    var pc := s.pcs[t];
    LocalOf(s, t);
    match pc
    case Idle =>
    case PushLoadTail(n, v) => QuietInv(s, t, PushLoadNext(n, v, s.tail));
    case PushLoadNext(n, v, tail) => LoadNextInv(s, t);
    case PushLink(n, v, tail, next) =>
      if NextOf(s.nodes, tail) == next && !weak { LinkInv(s, t); } else { QuietInv(s, t, PushLoadTail(n, v)); }
    case PushHelp(n, v, tail, next) => SwingInv(s, t, tail, PushLoadTail(n, v));
    case PushSwing(n, v, tail) => SwingInv(s, t, tail, PushCount(v));
    case PushCount(v) => CountInv(s, t);
    case PopLoadHead => QuietInv(s, t, PopLoadTail(s.head));
    case PopLoadTail(head) => QuietInv(s, t, PopLoadNext(head, s.tail));
    case PopLoadNext(head, tail) => LoadNextInv(s, t);
    case PopHelp(tail, next) => SwingInv(s, t, tail, PopLoadHead);
    case PopSwing(head, next, v) =>
      if s.head == head && !weak { PopSwingInv(s, t); } else { QuietInv(s, t, PopLoadHead); }
    case PopCount(v) => CountInv(s, t);
  }

  lemma StepInv(s: State, e: Event)
    requires Inv(s)
    ensures Inv(Step(s, e))
  {
    hide Inv;
    match e
    case CallPush(t, v) => if t < |s.pcs| && s.pcs[t].Idle? { CallPushInv(s, t, v); }
    case CallPop(t) => if t < |s.pcs| && s.pcs[t].Idle? { QuietInv(s, t, PopLoadHead); }
    case Go(t, weak) => if t < |s.pcs| { GoInv(s, t, weak); }
  }

  lemma {:induction false} RunInv(threads: nat, trace: seq<Event>)
    ensures Inv(Run(threads, trace))
    decreases |trace|
  {
    hide Inv;
    if trace == [] {
      InitInv(threads);
    } else {
      RunInv(threads, trace[..|trace| - 1]);
      StepInv(Run(threads, trace[..|trace| - 1]), trace[|trace| - 1]);
    }
  }

  // ---------- what a legal history says ----------

  function Pushed(log: seq<Entry>): seq<int> {
    if log == [] then []
    else Pushed(log[..|log| - 1]) + if log[|log| - 1].op.Push? then [log[|log| - 1].op.v] else []
  }

  function Popped(log: seq<Entry>): seq<int> {
    if log == [] then []
    else Popped(log[..|log| - 1]) + if log[|log| - 1].op.Pop? then [log[|log| - 1].op.v] else []
  }

  /** First in, first out: what has been popped, followed by what is held, is what has been pushed. */
  lemma {:induction false} FifoOfReplay(log: seq<Entry>)
    ensures Replay(log).Holds? ==> Pushed(log) == Popped(log) + Replay(log).items
  {
    if log != [] {
      FifoOfReplay(log[..|log| - 1]);
    }
  }

  // ---------- what holds in every run ----------

  /**
   Every run is one of an atomic FIFO queue: the effects, in order, are legal for
   such a queue and leave it with the present contents; each thread's effects are
   exactly the outcomes its calls returned, in order, plus that of the call under
   way if it has taken effect.
   */
  lemma Linearizable(threads: nat, trace: seq<Event>)
    ensures var s := Run(threads, trace);
            && Replay(s.log) == Holds(Contents(s))
            && forall t | 0 <= t < threads :: Of(s.log, t) == s.returned[t] + InEffect(s.pcs[t])
  {
    RunInv(threads, trace);
  }

  /** Nothing is lost, duplicated or reordered. */
  lemma NothingLost(threads: nat, trace: seq<Event>)
    ensures var s := Run(threads, trace); Pushed(s.log) == Popped(s.log) + Contents(s)
  {
    Linearizable(threads, trace);
    FifoOfReplay(Run(threads, trace).log);
  }

  /** An operation takes effect in a step of its own thread, inside its call: the record only grows by that step's entry. */
  lemma EffectsInsideCalls(s: State, e: Event)
    requires |s.returned| == |s.pcs|
    ensures var s' := Step(s, e);
            s'.log == s.log
            || (e.Go? && e.t < |s.pcs| && !s.pcs[e.t].Idle? && exists op :: s'.log == s.log + [Entry(e.t, op)])
  {
    if e.Go? && e.t < |s.pcs| {
      var pc := s.pcs[e.t];
      match pc
      case PushLink(n, v, tail, next) =>
        if Step(s, e).log != s.log { assert Step(s, e).log == s.log + [Entry(e.t, Push(v))]; }
      case PopLoadNext(head, tail) =>
        if Step(s, e).log != s.log { assert Step(s, e).log == s.log + [Entry(e.t, PopEmpty)]; }
      case PopSwing(head, next, v) =>
        if Step(s, e).log != s.log { assert Step(s, e).log == s.log + [Entry(e.t, Pop(v))]; }
      case _ =>
    }
  }

  /**
   Head position <= tail position <= last position, the tail at most one node
   behind, tags equal to positions; so equal tagged pointers are equal nodes and
   the other way round.
   */
  lemma PositionsInOrder(threads: nat, trace: seq<Event>)
    ensures var s := Run(threads, trace);
            && s.head.tag <= s.tail.tag < |s.chain| <= s.tail.tag + 2
            && s.head.ptr == To(s.chain[s.head.tag]) && s.tail.ptr == To(s.chain[s.tail.tag])
            && (s.head.ptr == s.tail.ptr <==> s.head == s.tail)
            && |Contents(s)| == |s.chain| - 1 - s.head.tag
  {
    RunInv(threads, trace);
    var s := Run(threads, trace);
    LinkedSizes(s.nodes, s.chain, s.vals);
    EndsSeen(s);
    if s.head.ptr == s.tail.ptr { SamePosition(s.nodes, s.chain, s.vals, s.head.tag, s.tail.tag); }
  }

  /** The tag of m_head counts the pops. */
  lemma {:induction false} HeadTagCountsPops(threads: nat, trace: seq<Event>)
    ensures Run(threads, trace).head.tag == |Popped(Run(threads, trace).log)|
    decreases |trace|
  {
    if trace != [] {
      HeadTagCountsPops(threads, trace[..|trace| - 1]);
      HeadTagStep(Run(threads, trace[..|trace| - 1]), trace[|trace| - 1]);
    }
  }

  lemma PoppedAppend(log: seq<Entry>, e: Entry)
    ensures Popped(log + [e]) == Popped(log) + if e.op.Pop? then [e.op.v] else []
  {
    assert (log + [e])[..|log|] == log;
  }

  lemma HeadTagStep(s: State, e: Event)
    requires s.head.tag == |Popped(s.log)|
    ensures Step(s, e).head.tag == |Popped(Step(s, e).log)|
  {
    hide Popped;
    if e.Go? && e.t < |s.pcs| {
      var pc := s.pcs[e.t];
      match pc
      case PushLink(n, v, tail, next) => PoppedAppend(s.log, Entry(e.t, Push(v)));
      case PopLoadNext(head, tail) => PoppedAppend(s.log, Entry(e.t, PopEmpty));
      case PopSwing(head, next, v) => PoppedAppend(s.log, Entry(e.t, Pop(v)));
      case _ =>
    }
  }

  /** A popper that saw head and tail differ always finds a next node: the branch that waits for one is never taken. */
  lemma NeverWaits(threads: nat, trace: seq<Event>, t: nat)
    requires t < threads && Run(threads, trace).pcs[t].PopLoadNext?
    ensures var s := Run(threads, trace); var pc := s.pcs[t];
            pc.head != pc.tail ==> NextOf(s.nodes, pc.head).ptr.To?
  {
    RunInv(threads, trace);
    LoadNextInv(Run(threads, trace), t);
  }

  /** With no call under way the counter is exact, the tail points to the last node, and `empty` tells the truth. */
  lemma QuiescentIsExact(threads: nat, trace: seq<Event>)
    requires forall t | 0 <= t < threads :: Run(threads, trace).pcs[t].Idle?
    ensures var s := Run(threads, trace);
            && s.size == |Contents(s)| % SIZE_MODULUS
            && s.tail.tag + 1 == |s.chain|
            && (s.head == s.tail <==> Contents(s) == [])
  {
    hide Inv, Run, Contents, Sum;
    RunInv(threads, trace);
    var s := Run(threads, trace);
    PositionsInOrder(threads, trace);
    SumBounds(s.pcs, Uncounted(), 0);
    ParkedEnds(s);
    SizedOf(s);
  }

  lemma ParkedEnds(s: State)
    requires Inv(s) && forall pc <- s.pcs :: pc.Idle?
    ensures s.tail.tag + 1 == |s.chain|
  {
  }

  lemma SizedOf(s: State)
    requires Inv(s)
    ensures s.size == (|Contents(s)| - Sum(s.pcs, Uncounted())) % SIZE_MODULUS
  {
    hide Linked, Ends, Locals, Replay, Histories, Contents, Sum;
  }

  /** In any state the counter is the number of elements, give or take the calls that have not counted yet. */
  lemma SizeUpToCalls(threads: nat, trace: seq<Event>)
    ensures var s := Run(threads, trace); s.size == (|Contents(s)| - Sum(s.pcs, Uncounted())) % SIZE_MODULUS
  {
    hide Inv, Run, Contents, Sum;
    RunInv(threads, trace);
    SizedOf(Run(threads, trace));
  }

  lemma {:induction false} UncountedWithin(pcs: seq<Pc>)
    ensures -|pcs| <= Sum(pcs, Uncounted()) <= |pcs|
    decreases |pcs|
  {
    if pcs != [] { UncountedWithin(pcs[..|pcs| - 1]); }
  }

  /** The counter is exact when as many pushes as pops have still to count, and only then. */
  lemma SizeIsExact(threads: nat, trace: seq<Event>)
    requires threads < SIZE_MODULUS && |Contents(Run(threads, trace))| < SIZE_MODULUS
    ensures var s := Run(threads, trace); s.size == |Contents(s)| <==> Sum(s.pcs, Uncounted()) == 0
  {
    hide Run, Contents, Sum, Uncounted;
    SizeUpToCalls(threads, trace);
    var s := Run(threads, trace);
    UncountedWithin(s.pcs);
    SameModulo(|Contents(s)|, Sum(s.pcs, Uncounted()));
  }

  lemma SameModulo(n: nat, d: int)
    requires n < SIZE_MODULUS && -SIZE_MODULUS < d < SIZE_MODULUS
    ensures (n - d) % SIZE_MODULUS == n <==> d == 0
  {
    if (n - d) % SIZE_MODULUS == n {
      assert n - d == (n - d) / SIZE_MODULUS * SIZE_MODULUS + n;
    }
  }

  // ---------- the counter can wrap below zero ----------

  /** Thread 0 pushes and stops before it counts; thread 1 pops the element. */
  function PopBeforeCount(): seq<Event> {
    [CallPush(0, 7), Go(0, false), Go(0, false), Go(0, false), Go(0, false),
     CallPop(1), Go(1, false), Go(1, false), Go(1, false), Go(1, false), Go(1, false)]
  }

  /** The state once thread 0 has linked its node and swung the tail. */
  function Uncounted1(): State {
    State([Node(Tagged(To(1), 1), 0, 0), Node(NIL, 7, 0)], Tagged(To(0), 0), Tagged(To(1), 1), 0,
          [PushCount(7), Idle], [0, 1], [0, 7], [Entry(0, Push(7))], [[], []])
  }

  /** Thread 0 about to link its node. */
  function Linking(): State {
    State([Node(NIL, 0, 0), Node(NIL, 7, 0)], Tagged(To(0), 0), Tagged(To(0), 0), 0,
          [PushLink(1, 7, Tagged(To(0), 0), NIL), Idle], [0], [0], [], [[], []])
  }

  lemma Calling() returns (s1: State, s2: State)
    ensures s1 == Step(Init(2), PopBeforeCount()[0]) && s2 == Step(s1, PopBeforeCount()[1]) && Step(s2, PopBeforeCount()[2]) == Linking()
  {
    hide Exec, Replay, Of, Sum;
    s1 := State([Node(NIL, 0, 0), Node(NIL, 7, 0)], Tagged(To(0), 0), Tagged(To(0), 0), 0, [PushLoadTail(1, 7), Idle],
                [0], [0], [], [[], []]);
    s2 := s1.(pcs := [PushLoadNext(1, 7, Tagged(To(0), 0)), Idle]);
  }

  lemma FirstHalf() returns (states: seq<State>)
    ensures |states| == 6 && states[0] == Init(2) && states[5] == Uncounted1()
    ensures forall i | 0 <= i < 5 :: states[i + 1] == Step(states[i], PopBeforeCount()[i])
  {
    hide Exec, Replay, Of, Sum;
    var tr := PopBeforeCount();
    var s1, s2 := Calling();
    var s3 := Linking();
    var s4 := Step(s3, tr[3]);
    assert s4.pcs == [PushSwing(1, 7, Tagged(To(0), 0)), Idle];
    var s5 := Step(s4, tr[4]);
    assert s5.nodes == Uncounted1().nodes && s5.pcs == Uncounted1().pcs && s5.returned == Uncounted1().returned;
    states := [Init(2), s1, s2, s3, s4, s5];
  }

  lemma SecondHalf() returns (states: seq<State>)
    ensures |states| == 7 && states[0] == Uncounted1()
    ensures forall i | 0 <= i < 6 :: states[i + 1] == Step(states[i], PopBeforeCount()[5 + i])
    ensures states[6].size == SIZE_MODULUS - 1 && Contents(states[6]) == []
  {
    hide Exec, Replay, Of, Sum;
    var tr := PopBeforeCount();
    var s5 := Uncounted1();
    var s6 := Step(s5, tr[5]);
    assert s6.pcs == [PushCount(7), PopLoadHead];
    var s7 := Step(s6, tr[6]);
    assert s7.pcs == [PushCount(7), PopLoadTail(Tagged(To(0), 0))];
    var s8 := Step(s7, tr[7]);
    assert s8.pcs == [PushCount(7), PopLoadNext(Tagged(To(0), 0), Tagged(To(1), 1))];
    var s9 := Step(s8, tr[8]);
    assert s9.pcs == [PushCount(7), PopSwing(Tagged(To(0), 0), Tagged(To(1), 1), 7)];
    var s10 := Step(s9, tr[9]);
    assert s10.pcs == [PushCount(7), PopCount(7)] && s10.head == Tagged(To(1), 1);
    var s11 := Step(s10, tr[10]);
    states := [s5, s6, s7, s8, s9, s10, s11];
  }

  /** A run after which the queue is empty and size() reports 2^64 - 1. */
  lemma SizeCanWrap()
    ensures Run(2, PopBeforeCount()).size == SIZE_MODULUS - 1
    ensures Contents(Run(2, PopBeforeCount())) == []
  {
    hide Step, Exec, Contents;
    var a := FirstHalf();
    var b := SecondHalf();
    var states := a + b[1..];
    Unrolled(Init(2), PopBeforeCount(), states);
  }

  lemma {:induction false} Unrolled(s: State, trace: seq<Event>, states: seq<State>)
    requires |states| == |trace| + 1 && states[0] == s
    requires forall i | 0 <= i < |trace| :: states[i + 1] == Step(states[i], trace[i])
    ensures Exec(s, trace) == states[|trace|]
    decreases |trace|
  {
    if trace != [] {
      Unrolled(s, trace[..|trace| - 1], states[..|trace|]);
    }
  }
}
