/**
 The reference-counted lock-free free list of the concurrent queue, as a step
 machine: any number of threads run `add` and `try_get`, one atomic operation a
 step, in any interleaving.
 */
module FreeList {
  import opened Counting

  const SHOULD_BE_ON_FREELIST: int := 0x8000_0000

  datatype Ptr = Null | Ref(id: nat)

  /** Where `add_knowing_refcount_is_zero` returns to: its caller is `add`, or the loop of `try_get`. */
  datatype Cont = Return | Resume(head: Ptr)

  /** Program counter and local variables of one thread: the atomic operation it performs next. */
  datatype Pc =
    | Idle
    | AddMark(b: nat)                          // add: fetch_add of the mark
    | PushLoad(b: nat, k: Cont)                // load freeListHead
    | PushNext(b: nat, head: Ptr, k: Cont)     // store freeListNext
    | PushRefs(b: nat, head: Ptr, k: Cont)     // store 1 to freeListRefs
    | PushCas(b: nat, head: Ptr, k: Cont)      // CAS freeListHead
    | PushUndo(b: nat, head: Ptr, k: Cont)     // fetch_add(mark - 1) after a failed CAS
    | GetLoad                                  // try_get: load freeListHead
    | GetTest(h: Ptr)                          // loop test, then load freeListRefs
    | GetRef(b: nat, refs: int)                // CAS freeListRefs to refs + 1
    | GetNext(b: nat)                          // load freeListNext
    | GetCas(b: nat, next: Ptr)                // CAS freeListHead to next
    | GetTake(b: nat)                          // fetch_sub 2, return the block
    | GetDrop(b: nat, head: Ptr)               // fetch_sub 1 on the block that was not taken

  datatype Place =
    | Hand(t: nat)      // owned by the caller code of thread t
    | Adding(t: nat)    // passed to add by t, mark not yet set
    | Limbo             // marked; the last thread to drop its reference will push it
    | Pushing(t: nat)   // t is linking it, its count is zero
    | Armed(t: nat)     // t has published count 1 and is trying to swing the head
    | Listed
    | Taken(t: nat)     // popped by t, its references not yet given back

  /**
   A block carries a `next` pointer and one 32-bit word that holds a reference count
   and, in its top bit, the "should be on the free list" mark; the word is the single
   integer the source adds to and subtracts from. Two fields record history and are
   never read by a step: `list`, the blocks pushed and not yet popped (newest first),
   and `place`, which says for each block what currently accounts for it.
   */
  datatype State = State(
    head: Ptr,
    refs: seq<int>,
    next: seq<Ptr>,
    pcs: seq<Pc>,
    hands: seq<set<nat>>,
    list: seq<nat>,
    place: seq<Place>)

  /** What may happen next: a thread starts a call, performs one atomic operation, or hands a block over to another. */
  datatype Event =
    | CallAdd(t: nat, b: nat)
    | CallGet(t: nat)
    | Give(t: nat, u: nat, b: nat)
    | Go(t: nat)

  /** At the start every block is owned by the thread `owner` names, and the list is empty. */
  function Init(threads: nat, owner: seq<nat>): (s: State) {
    State(Null,
          seq(|owner|, _ => 0),
          seq(|owner|, _ => Null),
          seq(threads, _ => Idle),
          seq(threads, t requires 0 <= t => set b: nat | b < |owner| && owner[b] == t),
          [],
          seq(|owner|, b requires 0 <= b < |owner| => Hand(owner[b])))
  }

  function Goto(s: State, t: nat, pc: Pc): State
    requires t < |s.pcs|
  {
    s.(pcs := s.pcs[t := pc])
  }

  function After(k: Cont): Pc {
    match k
    case Return => Idle
    case Resume(head) => GetTest(head)
  }

  /** Every pointer a thread or the list can follow names a block, and per-thread and per-block tables line up. */
  predicate Sized(s: State) {
    var n := |s.refs|;
    && |s.hands| == |s.pcs|
    && |s.next| == |s.place| == n
    && InRange(n, s.head)
    && (forall b | 0 <= b < n :: InRange(n, s.next[b]))
    && (forall t | 0 <= t < |s.pcs| :: PcInRange(n, s.pcs[t]))
  }

  predicate InRange(n: nat, p: Ptr) {
    p.Ref? ==> p.id < n
  }

  predicate PcInRange(n: nat, pc: Pc) {
    match pc
    case AddMark(b) => b < n
    case PushLoad(b, k) => b < n && PcInRangeCont(n, k)
    case PushNext(b, h, k) => b < n && InRange(n, h) && PcInRangeCont(n, k)
    case PushRefs(b, h, k) => b < n && InRange(n, h) && PcInRangeCont(n, k)
    case PushCas(b, h, k) => b < n && InRange(n, h) && PcInRangeCont(n, k)
    case PushUndo(b, h, k) => b < n && InRange(n, h) && PcInRangeCont(n, k)
    case GetTest(h) => InRange(n, h)
    case GetRef(b, _) => b < n
    case GetNext(b) => b < n
    case GetCas(b, next) => b < n && InRange(n, next)
    case GetTake(b) => b < n
    case GetDrop(b, h) => b < n && InRange(n, h)
    case _ => true
  }

  predicate PcInRangeCont(n: nat, k: Cont) {
    k.Resume? ==> InRange(n, k.head)
  }

  predicate InPush(pc: Pc) {
    pc.AddMark? || pc.PushLoad? || pc.PushNext? || pc.PushRefs? || pc.PushCas? || pc.PushUndo?
  }

  /** One atomic operation of thread t inside `add` or `add_knowing_refcount_is_zero`. */
  function StepPush(s: State, t: nat): State
    requires Sized(s) && t < |s.pcs| && InPush(s.pcs[t])
  {
    match s.pcs[t]
    case AddMark(b) =>
      var was := s.refs[b];
      var s1 := s.(refs := s.refs[b := was + SHOULD_BE_ON_FREELIST]);
      if was == 0 then Goto(s1.(place := s.place[b := Pushing(t)]), t, PushLoad(b, Return))
      else Goto(s1.(place := s.place[b := Limbo]), t, Idle)
    case PushLoad(b, k) =>
      Goto(s, t, PushNext(b, s.head, k))
    case PushNext(b, h, k) =>
      Goto(s.(next := s.next[b := h]), t, PushRefs(b, h, k))
    case PushRefs(b, h, k) =>
      Goto(s.(refs := s.refs[b := 1], place := s.place[b := Armed(t)]), t, PushCas(b, h, k))
    case PushCas(b, h, k) =>
      if s.head == h then
        Goto(s.(head := Ref(b), list := [b] + s.list, place := s.place[b := Listed]), t, After(k))
      else
        Goto(s, t, PushUndo(b, s.head, k))
    case PushUndo(b, h, k) =>
      var was := s.refs[b];
      var s1 := s.(refs := s.refs[b := was + SHOULD_BE_ON_FREELIST - 1]);
      if was == 1 then Goto(s1.(place := s.place[b := Pushing(t)]), t, PushNext(b, h, k))
      else Goto(s1.(place := s.place[b := Limbo]), t, After(k))
  }

  /** One atomic operation of thread t inside `try_get`. */
  function StepGet(s: State, t: nat): State
    requires Sized(s) && t < |s.pcs| && !InPush(s.pcs[t])
  {
    match s.pcs[t]
    case Idle => s
    case GetLoad =>
      Goto(s, t, GetTest(s.head))
    case GetTest(h) =>
      if h.Null? then Goto(s, t, Idle)
      else if s.refs[h.id] % SHOULD_BE_ON_FREELIST == 0 then Goto(s, t, GetLoad)
      else Goto(s, t, GetRef(h.id, s.refs[h.id]))
    case GetRef(b, r) =>
      if s.refs[b] == r then Goto(s.(refs := s.refs[b := r + 1]), t, GetNext(b))
      else Goto(s, t, GetLoad)
    case GetNext(b) =>
      Goto(s, t, GetCas(b, s.next[b]))
    case GetCas(b, n) =>
      if s.head == Ref(b) then
        Goto(s.(head := n,
                list := if |s.list| > 0 then s.list[1..] else [],
                place := s.place[b := Taken(t)]), t, GetTake(b))
      else
        Goto(s, t, GetDrop(b, s.head))
    case GetTake(b) =>
      Goto(s.(refs := s.refs[b := s.refs[b] - 2],
              hands := s.hands[t := s.hands[t] + {b}],
              place := s.place[b := Hand(t)]), t, Idle)
    case GetDrop(b, h) =>
      var was := s.refs[b];
      var s1 := s.(refs := s.refs[b := was - 1]);
      if was == SHOULD_BE_ON_FREELIST + 1 then
        Goto(s1.(place := s.place[b := Pushing(t)]), t, PushLoad(b, Resume(h)))
      else
        Goto(s1, t, GetTest(h))
  }

  /** An event that is not enabled changes nothing. A caller may add, or give away, only a block it owns. */
  function Step(s: State, e: Event): State
    requires Sized(s)
  {
    match e
    case CallAdd(t, b) =>
      if t < |s.pcs| && s.pcs[t].Idle? && b in s.hands[t] && b < |s.place| then
        Goto(s.(hands := s.hands[t := s.hands[t] - {b}], place := s.place[b := Adding(t)]), t, AddMark(b))
      else s
    case CallGet(t) =>
      if t < |s.pcs| && s.pcs[t].Idle? then Goto(s, t, GetLoad) else s
    case Give(t, u, b) =>
      if t < |s.pcs| && u < |s.pcs| && t != u && b in s.hands[t] && b < |s.place| then
        s.(hands := s.hands[t := s.hands[t] - {b}][u := s.hands[u] + {b}], place := s.place[b := Hand(u)])
      else s
    case Go(t) =>
      if t >= |s.pcs| then s else if InPush(s.pcs[t]) then StepPush(s, t) else StepGet(s, t)
  }

  lemma GotoSized(s: State, s1: State, t: nat, pc: Pc)
    requires Sized(s) && t < |s.pcs|
    requires s1.pcs == s.pcs && |s1.hands| == |s.hands| && |s1.refs| == |s1.next| == |s1.place| == |s.refs|
    requires InRange(|s.refs|, s1.head) && PcInRange(|s.refs|, pc)
    requires forall b | 0 <= b < |s.refs| :: InRange(|s.refs|, s1.next[b])
    ensures Sized(Goto(s1, t, pc))
  {
  }

  lemma PushSized(s: State, t: nat)
    requires Sized(s) && t < |s.pcs| && InPush(s.pcs[t])
    ensures Sized(StepPush(s, t)) && |StepPush(s, t).pcs| == |s.pcs| && |StepPush(s, t).refs| == |s.refs|
  {
    var s' := StepPush(s, t);
    assert PcInRange(|s.refs|, s.pcs[t]);
    GotoSized(s, s'.(pcs := s.pcs), t, s'.pcs[t]);
    assert s' == Goto(s'.(pcs := s.pcs), t, s'.pcs[t]);
  }

  lemma GetSized(s: State, t: nat)
    requires Sized(s) && t < |s.pcs| && !InPush(s.pcs[t])
    ensures Sized(StepGet(s, t)) && |StepGet(s, t).pcs| == |s.pcs| && |StepGet(s, t).refs| == |s.refs|
  {
    var s' := StepGet(s, t);
    assert PcInRange(|s.refs|, s.pcs[t]);
    GotoSized(s, s'.(pcs := s.pcs), t, s'.pcs[t]);
    assert s' == Goto(s'.(pcs := s.pcs), t, s'.pcs[t]);
  }

  lemma StepSized(s: State, e: Event)
    requires Sized(s)
    ensures Sized(Step(s, e)) && |Step(s, e).pcs| == |s.pcs| && |Step(s, e).refs| == |s.refs|
  {
    if e.Go? && e.t < |s.pcs| {
      if InPush(s.pcs[e.t]) { PushSized(s, e.t); } else { GetSized(s, e.t); }
    }
  }

  /** The state after a whole trace of events. */
  ghost function Exec(s: State, trace: seq<Event>): (r: State)
    requires Sized(s)
    ensures Sized(r) && |r.pcs| == |s.pcs| && |r.refs| == |s.refs|
    decreases |trace|
  {
    if trace == [] then s
    else
      var last := |trace| - 1;
      var before := Exec(s, trace[..last]);
      StepSized(before, trace[last]);
      Step(before, trace[last])
  }

  // ---------- the invariant ----------

  /** Does this thread hold a counted reference to block b? */
  function Holds(b: nat): Pc -> int {
    (pc: Pc) => match pc
      case GetNext(c) => if c == b then 1 else 0
      case GetCas(c, _) => if c == b then 1 else 0
      case GetTake(c) => if c == b then 1 else 0
      case GetDrop(c, _) => if c == b then 1 else 0
      case _ => 0
  }

  ghost function Holders(s: State, b: nat): int {
    Sum(s.pcs, Holds(b))
  }

  predicate Marked(p: Place) { p.Limbo? || p.Pushing? }

  /** The reference the list itself holds, counted from publication until the popper gives it back. */
  function ListRef(p: Place): int { if p.Armed? || p.Listed? || p.Taken? then 1 else 0 }

  ghost predicate BlockInv(s: State, b: nat)
    requires Sized(s) && b < |s.refs|
  {
    var p := s.place[b];
    && s.refs[b] == (if Marked(p) then SHOULD_BE_ON_FREELIST else 0) + ListRef(p) + Holders(s, b)
    && (p.Limbo? ==> Holders(s, b) >= 1)
    && (p.Pushing? ==> Holders(s, b) == 0)
    && match p
       case Hand(t) => t < |s.pcs| && b in s.hands[t]
       case Adding(t) => t < |s.pcs| && s.pcs[t] == AddMark(b)
       case Limbo => true
       case Pushing(t) => t < |s.pcs| && (s.pcs[t].PushLoad? || s.pcs[t].PushNext? || s.pcs[t].PushRefs?) && s.pcs[t].b == b
       case Armed(t) => t < |s.pcs| && (s.pcs[t].PushCas? || s.pcs[t].PushUndo?) && s.pcs[t].b == b
       case Listed => b in s.list
       case Taken(t) => t < |s.pcs| && s.pcs[t] == GetTake(b)
  }

  predicate ThreadInv(s: State, t: nat)
    requires Sized(s) && t < |s.pcs|
  {
    && (forall b <- s.hands[t] :: b < |s.refs| && s.place[b] == Hand(t))
    && match s.pcs[t]
       case AddMark(b) => s.place[b] == Adding(t)
       case PushLoad(b, k) => s.place[b] == Pushing(t)
       case PushNext(b, h, k) => s.place[b] == Pushing(t)
       case PushRefs(b, h, k) => s.place[b] == Pushing(t) && s.next[b] == h
       case PushCas(b, h, k) => s.place[b] == Armed(t) && s.next[b] == h
       case PushUndo(b, h, k) => s.place[b] == Armed(t)
       case GetRef(b, r) => r != SHOULD_BE_ON_FREELIST
       case GetCas(b, n) => s.next[b] == n
       case GetTake(b) => s.place[b] == Taken(t)
       case _ => true
  }

  /** Following `next` from the head visits exactly the blocks of `list`, in order and without repetition. */
  predicate Chain(s: State)
    requires Sized(s)
  {
    && s.head == PtrTo(s.list, 0)
    && (forall i | 0 <= i < |s.list| :: s.list[i] < |s.refs| && s.place[s.list[i]] == Listed)
    && (forall i | 0 <= i < |s.list| :: s.next[s.list[i]] == PtrTo(s.list, i + 1))
    && (forall i, j | 0 <= i < j < |s.list| :: s.list[i] != s.list[j])
  }

  function PtrTo(list: seq<nat>, i: nat): Ptr {
    if i < |list| then Ref(list[i]) else Null
  }

  /** The reference count must not run into the mark: fewer threads than the count can hold. */
  ghost predicate Inv(s: State) {
    && Sized(s)
    && |s.pcs| + 2 < SHOULD_BE_ON_FREELIST
    && Chain(s)
    && (forall b | 0 <= b < |s.refs| :: BlockInv(s, b))
    && (forall t | 0 <= t < |s.pcs| :: ThreadInv(s, t))
  }

  lemma HoldersBounds(s: State, b: nat)
    ensures 0 <= Holders(s, b) <= |s.pcs|
    ensures forall t | 0 <= t < |s.pcs| :: Holds(b)(s.pcs[t]) <= Holders(s, b)
  {
    SumBounds(s.pcs, Holds(b), 1);
    forall t | 0 <= t < |s.pcs| ensures Holds(b)(s.pcs[t]) <= Holders(s, b) {
      SumAtLeast(s.pcs, t, Holds(b));
    }
  }

  // ---------- what one step leaves alone ----------

  /** The step changed no thread but t, no block but b, and t works on no other block. */
  predicate Local(s: State, s': State, t: nat, b: nat) {
    && Sized(s) && Sized(s')
    && t < |s.pcs| == |s'.pcs| && b < |s.refs|
    && |s'.refs| == |s.refs|
    && s'.pcs == s.pcs[t := s'.pcs[t]]
    && About(s.pcs[t], b) && About(s'.pcs[t], b)
    && (forall u | 0 <= u < |s.pcs| && u != t :: s'.hands[u] == s.hands[u])
    && s'.hands[t] - {b} == s.hands[t] - {b}
    && s'.refs == s.refs[b := s'.refs[b]]
    && s'.next == s.next[b := s'.next[b]]
    && s'.place == s.place[b := s'.place[b]]
  }

  predicate About(pc: Pc, b: nat) {
    match pc
    case Idle => true
    case GetLoad => true
    case GetTest(_) => true
    case _ => pc.b == b
  }

  function PlaceThread(p: Place): int {
    if p.Limbo? || p.Listed? then -1 else p.t
  }

  lemma HoldersLocal(s: State, s': State, t: nat, b: nat, c: nat)
    requires Local(s, s', t, b)
    ensures Holders(s', c) == Holders(s, c) - Holds(c)(s.pcs[t]) + Holds(c)(s'.pcs[t])
  {
    SumUpdate(s.pcs, t, s'.pcs[t], Holds(c));
  }

  lemma OtherBlock(s: State, s': State, t: nat, b: nat, c: nat)
    requires Local(s, s', t, b)
    requires c != b && c < |s.refs| && BlockInv(s, c)
    requires c in s'.list <==> c in s.list
    ensures BlockInv(s', c)
  {
    HoldersLocal(s, s', t, b, c);
    assert c in s.hands[t] <==> c in s'.hands[t] by {
      assert c in s.hands[t] - {b} <==> c in s'.hands[t] - {b};
    }
  }

  lemma OtherThread(s: State, s': State, t: nat, b: nat, u: nat)
    requires Local(s, s', t, b)
    requires u != t && u < |s.pcs| && ThreadInv(s, u)
    requires s'.place[b] == s.place[b] || PlaceThread(s.place[b]) != u
    requires s'.next[b] == s.next[b] || (PlaceThread(s.place[b]) != u && Holders(s, b) == 0)
    ensures ThreadInv(s', u)
  {
    HoldersBounds(s, b);
  }

  /** It is enough to look at the block and the thread that a step touches. */
  lemma LocalInv(s: State, s': State, t: nat, b: nat)
    requires Inv(s) && Local(s, s', t, b)
    requires forall c | 0 <= c < |s.refs| && c != b :: c in s'.list <==> c in s.list
    requires s'.place[b] == s.place[b] || PlaceThread(s.place[b]) in {-1, t as int}
    requires s'.next[b] == s.next[b] || (PlaceThread(s.place[b]) == t && Holders(s, b) == 0)
    requires Chain(s') && BlockInv(s', b) && ThreadInv(s', t)
    ensures Inv(s')
  {
    forall c | 0 <= c < |s.refs| && c != b ensures BlockInv(s', c) {
      OtherBlock(s, s', t, b, c);
    }
    forall u | 0 <= u < |s.pcs| && u != t ensures ThreadInv(s', u) {
      OtherThread(s, s', t, b, u);
    }
  }

  lemma InitInv(threads: nat, owner: seq<nat>)
    requires threads + 2 < SHOULD_BE_ON_FREELIST
    requires forall b | 0 <= b < |owner| :: owner[b] < threads
    ensures Inv(Init(threads, owner))
  {
    var s := Init(threads, owner);
    forall b: nat | b < |s.refs| ensures BlockInv(s, b) {
      SumBounds(s.pcs, Holds(b), 0);
    }
  }

  lemma ChainSame(s: State, s': State, b: nat)
    requires Sized(s) && Sized(s') && Chain(s)
    requires s'.head == s.head && s'.list == s.list && |s'.refs| == |s.refs| && b < |s.refs|
    requires s'.next == s.next[b := s'.next[b]] && s'.place == s.place[b := s'.place[b]]
    requires s.place[b] == Listed ==> s'.next[b] == s.next[b] && s'.place[b] == Listed
    ensures Chain(s')
  {
  }

  lemma ChainPush(s: State, s': State, b: nat)
    requires Sized(s) && Sized(s') && Chain(s)
    requires b < |s.refs| && s.place[b] != Listed && s.next[b] == s.head
    requires s'.head == Ref(b) && s'.list == [b] + s.list
    requires |s'.refs| == |s.refs| && s'.next == s.next && s'.place == s.place[b := Listed]
    ensures Chain(s')
  {
    forall i | 0 <= i < |s'.list| ensures s'.next[s'.list[i]] == PtrTo(s'.list, i + 1) {
      if i > 0 { assert s'.list[i] == s.list[i - 1]; }
    }
  }

  lemma ChainPop(s: State, s': State, b: nat)
    requires Sized(s) && Sized(s') && Chain(s)
    requires b < |s.refs| && s.head == Ref(b) && s'.head == s.next[b] && s'.list == s.list[1..]
    requires |s'.refs| == |s.refs| && s'.next == s.next && s'.place == s.place[b := s'.place[b]]
    ensures Chain(s') && s.place[b] == Listed
    ensures forall c {:trigger c in s'.list} :: c in s'.list <==> c in s.list && c != b
  {
    assert s.list[0] == b;
    assert s.list == [b] + s'.list;
    forall i | 0 <= i < |s'.list|
      ensures s'.list[i] < |s'.refs| && s'.place[s'.list[i]] == Listed && s'.next[s'.list[i]] == PtrTo(s'.list, i + 1)
    {
      assert s'.list[i] == s.list[i + 1];
    }
  }

  lemma AddMarkInv(s: State, t: nat)
    requires Inv(s) && t < |s.pcs| && (s.pcs[t].AddMark?)
    ensures Inv(StepPush(s, t))
  {
    var s' := StepPush(s, t);
    var b := s.pcs[t].b;
    PushSized(s, t);
    assert BlockInv(s, b) && ThreadInv(s, t);
    HoldersLocal(s, s', t, b, b);
    HoldersBounds(s, b);
    LocalInv(s, s', t, b);
  }

  lemma PushPrepareInv(s: State, t: nat)
    requires Inv(s) && t < |s.pcs| && (s.pcs[t].PushLoad? || s.pcs[t].PushNext? || s.pcs[t].PushRefs?)
    ensures Inv(StepPush(s, t))
  {
    var s' := StepPush(s, t);
    var b := s.pcs[t].b;
    PushSized(s, t);
    assert BlockInv(s, b) && ThreadInv(s, t);
    HoldersLocal(s, s', t, b, b);
    LocalInv(s, s', t, b);
  }

  lemma PushCasInv(s: State, t: nat)
    requires Inv(s) && t < |s.pcs| && (s.pcs[t].PushCas?)
    ensures Inv(StepPush(s, t))
  {
    var s' := StepPush(s, t);
    var b := s.pcs[t].b;
    PushSized(s, t);
    assert BlockInv(s, b) && ThreadInv(s, t);
    HoldersLocal(s, s', t, b, b);
    HoldersBounds(s, b);
    if s.head == s.pcs[t].head { ChainPush(s, s', b); } else { ChainSame(s, s', b); }
    LocalInv(s, s', t, b);
  }

  lemma PushUndoInv(s: State, t: nat)
    requires Inv(s) && t < |s.pcs| && (s.pcs[t].PushUndo?)
    ensures Inv(StepPush(s, t))
  {
    var s' := StepPush(s, t);
    var b := s.pcs[t].b;
    PushSized(s, t);
    assert BlockInv(s, b) && ThreadInv(s, t);
    HoldersLocal(s, s', t, b, b);
    HoldersBounds(s, b);
    LocalInv(s, s', t, b);
  }

  predicate Quiet(pc: Pc) { pc.Idle? || pc.GetLoad? || pc.GetTest? || pc.GetRef? }

  /** A step that moves a thread holding nothing, and touches no shared word. */
  lemma QuietInv(s: State, t: nat, pc: Pc)
    requires Inv(s) && t < |s.pcs| && Quiet(s.pcs[t]) && Quiet(pc)
    requires PcInRange(|s.refs|, pc) && (pc.GetRef? ==> pc.refs != SHOULD_BE_ON_FREELIST)
    ensures Inv(Goto(s, t, pc))
  {
    var s' := Goto(s, t, pc);
    GotoSized(s, s, t, pc);
    forall b: nat | b < |s.refs| ensures BlockInv(s', b) {
      assert BlockInv(s, b);
      SumUpdate(s.pcs, t, pc, Holds(b));
    }
    forall u | 0 <= u < |s.pcs| ensures ThreadInv(s', u) {
      assert ThreadInv(s, u);
    }
  }

  lemma NotPushing(s: State, t: nat, b: nat)
    requires Inv(s) && t < |s.pcs| && b < |s.refs| && s.pcs[t] == GetRef(b, s.refs[b])
    ensures !s.place[b].Pushing?
  {
    assert BlockInv(s, b) && ThreadInv(s, t);
  }

  lemma GetRefTaken(s: State, t: nat, b: nat)
    requires Inv(s) && t < |s.pcs| && b < |s.refs| && s.pcs[t] == GetRef(b, s.refs[b])
    ensures Inv(Goto(s.(refs := s.refs[b := s.refs[b] + 1]), t, GetNext(b)))
  {
    var s1 := s.(refs := s.refs[b := s.refs[b] + 1]);
    var s' := Goto(s1, t, GetNext(b));
    NotPushing(s, t, b);
    GotoSized(s, s1, t, GetNext(b));
    HoldersLocal(s, s', t, b, b);
    ChainSame(s, s', b);
    assert BlockInv(s', b) by { assert BlockInv(s, b); }
    assert ThreadInv(s', t) by { assert ThreadInv(s, t); }
    LocalInv(s, s', t, b);
  }

  lemma GetRefInv(s: State, t: nat)
    requires Inv(s) && t < |s.pcs| && s.pcs[t].GetRef?
    ensures Inv(StepGet(s, t))
  {
    var b, r := s.pcs[t].b, s.pcs[t].refs;
    assert PcInRange(|s.refs|, s.pcs[t]);
    if s.refs[b] != r {
      QuietInv(s, t, GetLoad);
    } else {
      GetRefTaken(s, t, b);
    }
  }

  lemma GetNextInv(s: State, t: nat)
    requires Inv(s) && t < |s.pcs| && s.pcs[t].GetNext?
    ensures Inv(StepGet(s, t))
  {
    var s' := StepGet(s, t);
    var b := s.pcs[t].b;
    GetSized(s, t);
    assert BlockInv(s, b) && ThreadInv(s, t);
    HoldersLocal(s, s', t, b, b);
    HoldersBounds(s, b);
    ChainSame(s, s', b);
    LocalInv(s, s', t, b);
  }

  lemma GetCasInv(s: State, t: nat)
    requires Inv(s) && t < |s.pcs| && (s.pcs[t].GetCas?)
    ensures Inv(StepGet(s, t))
  {
    var s' := StepGet(s, t);
    var b := s.pcs[t].b;
    GetSized(s, t);
    assert BlockInv(s, b) && ThreadInv(s, t);
    HoldersLocal(s, s', t, b, b);
    HoldersBounds(s, b);
    if s.head == Ref(b) { ChainPop(s, s', b); } else { ChainSame(s, s', b); }
    LocalInv(s, s', t, b);
  }

  lemma GetTakeInv(s: State, t: nat)
    requires Inv(s) && t < |s.pcs| && (s.pcs[t].GetTake?)
    ensures Inv(StepGet(s, t))
  {
    var s' := StepGet(s, t);
    var b := s.pcs[t].b;
    GetSized(s, t);
    assert BlockInv(s, b) && ThreadInv(s, t);
    HoldersLocal(s, s', t, b, b);
    HoldersBounds(s, b);
    LocalInv(s, s', t, b);
  }

  lemma GetDropInv(s: State, t: nat)
    requires Inv(s) && t < |s.pcs| && (s.pcs[t].GetDrop?)
    ensures Inv(StepGet(s, t))
  {
    var s' := StepGet(s, t);
    var b := s.pcs[t].b;
    GetSized(s, t);
    assert BlockInv(s, b) && ThreadInv(s, t);
    HoldersLocal(s, s', t, b, b);
    HoldersBounds(s, b);
    LocalInv(s, s', t, b);
  }

  lemma CallAddInv(s: State, t: nat, b: nat)
    requires Inv(s)
    ensures Inv(Step(s, CallAdd(t, b)))
  {
    var s' := Step(s, CallAdd(t, b));
    if s' != s {
      GotoSized(s, s'.(pcs := s.pcs), t, AddMark(b));
      assert s' == Goto(s'.(pcs := s.pcs), t, AddMark(b));
      assert BlockInv(s, b) && ThreadInv(s, t);
      HoldersLocal(s, s', t, b, b);
      ChainSame(s, s', b);
      LocalInv(s, s', t, b);
    }
  }

  lemma GiveInv(s: State, t: nat, u: nat, b: nat)
    requires Inv(s)
    ensures Inv(Step(s, Give(t, u, b)))
  {
    var s' := Step(s, Give(t, u, b));
    if s' != s {
      assert BlockInv(s, b) && ThreadInv(s, t) && ThreadInv(s, u);
      ChainSame(s, s', b);
      forall c | 0 <= c < |s.refs| ensures BlockInv(s', c) {
        assert BlockInv(s, c);
        assert Holders(s', c) == Holders(s, c);
      }
      forall v | 0 <= v < |s.pcs| ensures ThreadInv(s', v) {
        assert ThreadInv(s, v);
      }
    }
  }

  lemma StepInv(s: State, e: Event)
    requires Inv(s)
    ensures Inv(Step(s, e))
  {
    hide BlockInv, ThreadInv, Chain;
    match e
    case CallAdd(t, b) => CallAddInv(s, t, b);
    case Give(t, u, b) => GiveInv(s, t, u, b);
    case CallGet(t) =>
      if t < |s.pcs| && s.pcs[t].Idle? { QuietInv(s, t, GetLoad); }
    case Go(t) =>
      if t < |s.pcs| {
        match s.pcs[t]
        case Idle =>
        case AddMark(_) => AddMarkInv(s, t);
        case PushLoad(_, _) => PushPrepareInv(s, t);
        case PushNext(_, _, _) => PushPrepareInv(s, t);
        case PushRefs(_, _, _) => PushPrepareInv(s, t);
        case PushCas(_, _, _) => PushCasInv(s, t);
        case PushUndo(_, _, _) => PushUndoInv(s, t);
        case GetLoad => QuietInv(s, t, GetTest(s.head));
        case GetTest(h) =>
          if h.Null? { QuietInv(s, t, Idle); }
          else if s.refs[h.id] % SHOULD_BE_ON_FREELIST == 0 { QuietInv(s, t, GetLoad); }
          else { QuietInv(s, t, GetRef(h.id, s.refs[h.id])); }
        case GetRef(_, _) => GetRefInv(s, t);
        case GetNext(_) => GetNextInv(s, t);
        case GetCas(_, _) => GetCasInv(s, t);
        case GetTake(_) => GetTakeInv(s, t);
        case GetDrop(_, _) => GetDropInv(s, t);
      }
  }

  // ---------- what holds in every run ----------

  /** Enough bits for the count, and every block handed to an existing thread at the start. */
  ghost predicate Start(threads: nat, owner: seq<nat>) {
    && threads + 2 < SHOULD_BE_ON_FREELIST
    && forall b | 0 <= b < |owner| :: owner[b] < threads
  }

  ghost function Reached(threads: nat, owner: seq<nat>, trace: seq<Event>): (s: State)
    requires Start(threads, owner)
    ensures Sized(s) && |s.pcs| == threads && |s.refs| == |owner|
  {
    InitInv(threads, owner);
    Exec(Init(threads, owner), trace)
  }

  lemma {:induction false} RunInv(threads: nat, owner: seq<nat>, trace: seq<Event>)
    requires Start(threads, owner)
    ensures Inv(Reached(threads, owner, trace))
    ensures |Reached(threads, owner, trace).pcs| == threads
    ensures |Reached(threads, owner, trace).refs| == |owner|
    decreases |trace|
  {
    InitInv(threads, owner);
    if trace != [] {
      var before := trace[..|trace| - 1];
      RunInv(threads, owner, before);
      var s := Reached(threads, owner, before);
      StepInv(s, trace[|trace| - 1]);
      StepSized(s, trace[|trace| - 1]);
    }
  }

  /**
   In every interleaving: the list is an acyclic chain without repetition, no two
   callers own the same block, and no caller owns a block that is on the list.
   */
  lemma NoBlockTwice(threads: nat, owner: seq<nat>, trace: seq<Event>)
    requires Start(threads, owner)
    ensures var s := Reached(threads, owner, trace);
            && Chain(s)
            && (forall t, u | 0 <= t < u < threads :: s.hands[t] !! s.hands[u])
            && (forall t, i | 0 <= t < threads && 0 <= i < |s.list| :: s.list[i] !in s.hands[t])
  {
    RunInv(threads, owner, trace);
    var s := Reached(threads, owner, trace);
    forall t, u | 0 <= t < u < threads ensures s.hands[t] !! s.hands[u] {
      assert ThreadInv(s, t) && ThreadInv(s, u);
    }
    forall t, i | 0 <= t < threads && 0 <= i < |s.list| ensures s.list[i] !in s.hands[t] {
      assert ThreadInv(s, t);
    }
  }

  /**
   Whenever the CAS of `try_get` on the head is about to succeed, the `next` it
   installs is still the head's own `next`, and the block's mark is clear (the
   source asserts the latter); the same holds of the mark until the references
   are given back.
   */
  lemma PopIsSound(threads: nat, owner: seq<nat>, trace: seq<Event>, t: nat)
    requires Start(threads, owner) && t < threads
    ensures var s := Reached(threads, owner, trace);
            var pc := s.pcs[t];
            && (pc.GetCas? && s.head == Ref(pc.b) ==>
                  && s.next[pc.b] == pc.next
                  && 2 <= s.refs[pc.b] < SHOULD_BE_ON_FREELIST
                  && |s.list| > 0 && s.list[0] == pc.b
                  && Step(s, Go(t)).list == s.list[1..])
            && (pc.GetTake? ==> 2 <= s.refs[pc.b] < SHOULD_BE_ON_FREELIST && forall u | 0 <= u < threads :: pc.b !in s.hands[u])
  {
    RunInv(threads, owner, trace);
    var s := Reached(threads, owner, trace);
    var pc := s.pcs[t];
    assert ThreadInv(s, t);
    if pc.GetCas? || pc.GetTake? {
      assert PcInRange(|s.refs|, pc);
      assert BlockInv(s, pc.b);
      HoldersBounds(s, pc.b);
      assert Holds(pc.b)(pc) == 1;
    }
    if pc.GetTake? {
      forall u | 0 <= u < threads ensures pc.b !in s.hands[u] {
        assert ThreadInv(s, u);
      }
    }
  }

  /**
   No block is ever lost: when every thread is between calls, each block is on
   the list or in exactly one caller's hands.
   */
  lemma NoBlockLost(threads: nat, owner: seq<nat>, trace: seq<Event>, b: nat)
    requires Start(threads, owner) && b < |owner|
    requires forall t | 0 <= t < threads :: Reached(threads, owner, trace).pcs[t].Idle?
    ensures var s := Reached(threads, owner, trace);
            b in s.list || exists t :: 0 <= t < threads && b in s.hands[t]
  {
    RunInv(threads, owner, trace);
    var s := Reached(threads, owner, trace);
    assert BlockInv(s, b);
    SumBounds(s.pcs, Holds(b), 0);
  }

  // ---------- what a call achieves ----------

  lemma ExecMore(s: State, trace: seq<Event>, e: Event)
    requires Sized(s)
    ensures Exec(s, trace + [e]) == Step(Exec(s, trace), e)
  {
    assert (trace + [e])[..|trace|] == trace;
  }

  /** A thread that runs alone: a call and up to n operations (an idle thread does nothing). */
  function Alone(call: Event, t: nat, n: nat): seq<Event> {
    if n == 0 then [call] else Alone(call, t, n - 1) + [Go(t)]
  }

  lemma {:induction false} AloneRun(s: State, call: Event, t: nat, n: nat)
    requires Sized(s)
    ensures Sized(Step(s, call))
    ensures n == 0 ==> Exec(s, Alone(call, t, n)) == Step(s, call)
    ensures n > 0 ==> Exec(s, Alone(call, t, n)) == Step(Exec(s, Alone(call, t, n - 1)), Go(t))
  {
    hide Step;
    StepSized(s, call);
    if n == 0 {
      ExecMore(s, [], call);
      assert [] + [call] == [call];
    } else {
      ExecMore(s, Alone(call, t, n - 1), Go(t));
    }
  }

  /** With no call under way a listed block is referenced by the list alone, and a block in hand by nobody. */
  lemma AtRest(s: State, b: nat)
    requires Inv(s) && b < |s.refs| && forall t | 0 <= t < |s.pcs| :: s.pcs[t].Idle?
    ensures b in s.list ==> s.refs[b] == 1
    ensures forall t | 0 <= t < |s.pcs| && b in s.hands[t] :: s.refs[b] == 0
  {
    assert BlockInv(s, b);
    SumBounds(s.pcs, Holds(b), 0);
    forall t | 0 <= t < |s.pcs| && b in s.hands[t] ensures s.place[b] == Hand(t) { assert ThreadInv(s, t); }
  }

  lemma HandInRange(s: State, t: nat, b: nat)
    requires Inv(s) && t < |s.pcs| && b in s.hands[t]
    ensures b < |s.refs|
  {
    assert ThreadInv(s, t);
  }

  /**
   `try_get` run alone while no other call is under way: from a list that is not
   empty it takes the first block, and leaves the others; an empty list it leaves
   as it is, with nothing in hand.
   */
  lemma GetAlone(threads: nat, owner: seq<nat>, trace: seq<Event>, t: nat)
    requires Start(threads, owner) && t < threads
    requires forall u | 0 <= u < threads :: Reached(threads, owner, trace).pcs[u].Idle?
    ensures var s := Reached(threads, owner, trace); var r := Exec(s, Alone(CallGet(t), t, 6));
            && r.pcs == s.pcs && (s.list == [] ==> r == s)
            && (s.list != [] ==> r.hands == s.hands[t := s.hands[t] + {s.list[0]}] && r.list == s.list[1..])
  {
    hide Reached, BlockInv, ThreadInv, Exec;
    RunInv(threads, owner, trace);
    var s := Reached(threads, owner, trace);
    if s.list != [] {
      AtRest(s, s.list[0]);
      GetSteps(s, t);
    } else {
      GetNothing(s, t);
    }
  }

  /** One operation more. */
  lemma Then(s: State, call: Event, t: nat, n: nat, x: State)
    requires Sized(s) && Exec(s, Alone(call, t, n)) == x
    ensures Sized(x) && Exec(s, Alone(call, t, n + 1)) == Step(x, Go(t))
  {
    hide Step, Exec;
    AloneRun(s, call, t, n + 1);
  }

  lemma GetNothing(s: State, t: nat)
    requires Sized(s) && t < |s.pcs| && s.pcs[t].Idle? && s.head.Null?
    ensures Exec(s, Alone(CallGet(t), t, 6)) == s
  {
    hide Exec, StepPush;
    var call := CallGet(t);
    AloneRun(s, call, t, 0);
    Then(s, call, t, 0, Goto(s, t, GetLoad));
    assert Goto(Goto(s, t, GetLoad), t, GetTest(Null)) == Goto(s, t, GetTest(Null));
    Then(s, call, t, 1, Goto(s, t, GetTest(Null)));
    assert Goto(Goto(s, t, GetTest(Null)), t, Idle) == s;
    Then(s, call, t, 2, s);
    Then(s, call, t, 3, s);
    Then(s, call, t, 4, s);
    Then(s, call, t, 5, s);
  }

  /** The operations on a list whose first block only the list refers to: the block is referenced, then taken. */
  lemma GetSteps(s: State, t: nat)
    requires Sized(s) && t < |s.pcs| && s.pcs[t].Idle? && s.list != [] && s.head == Ref(s.list[0]) && s.refs[s.list[0]] == 1
    ensures var b := s.list[0]; var r := Exec(s, Alone(CallGet(t), t, 6));
            r.pcs == s.pcs && r.hands == s.hands[t := s.hands[t] + {b}] && r.list == s.list[1..]
  {
    hide Exec, StepPush, StepGet;
    var b, call := s.list[0], CallGet(t);
    AloneRun(s, call, t, 0);
    Then(s, call, t, 0, Goto(s, t, GetLoad));
    ReferenceSteps(s, t, b);
    Then(s, call, t, 1, Goto(s, t, GetTest(Ref(b))));
    Then(s, call, t, 2, Goto(s, t, GetRef(b, 1)));
    var held := s.(refs := s.refs[b := 2]);
    Then(s, call, t, 3, Goto(held, t, GetNext(b)));
    TakeSteps(s, held, t, b);
    Then(s, call, t, 4, Goto(held, t, GetCas(b, s.next[b])));
    Then(s, call, t, 5, Step(Goto(held, t, GetCas(b, s.next[b])), Go(t)));
  }

  lemma ReferenceSteps(s: State, t: nat, b: nat)
    requires Sized(s) && t < |s.pcs| && s.head == Ref(b) && s.refs[b] == 1
    ensures Sized(Goto(s, t, GetLoad)) && Step(Goto(s, t, GetLoad), Go(t)) == Goto(s, t, GetTest(Ref(b)))
    ensures Sized(Goto(s, t, GetTest(Ref(b)))) && Step(Goto(s, t, GetTest(Ref(b))), Go(t)) == Goto(s, t, GetRef(b, 1))
    ensures Sized(Goto(s, t, GetRef(b, 1)))
            && Step(Goto(s, t, GetRef(b, 1)), Go(t)) == Goto(s.(refs := s.refs[b := 2]), t, GetNext(b))
  {
    hide StepPush;
    assert s.pcs[t := GetLoad][t := GetTest(Ref(b))] == s.pcs[t := GetTest(Ref(b))];
    assert s.pcs[t := GetTest(Ref(b))][t := GetRef(b, 1)] == s.pcs[t := GetRef(b, 1)];
    assert s.pcs[t := GetRef(b, 1)][t := GetNext(b)] == s.pcs[t := GetNext(b)];
  }

  lemma TakeSteps(s: State, held: State, t: nat, b: nat)
    requires Sized(s) && t < |s.pcs| && s.pcs[t].Idle? && s.list != [] && b == s.list[0] && s.head == Ref(b)
    requires held == s.(refs := s.refs[b := 2])
    ensures Sized(Goto(held, t, GetNext(b))) && Step(Goto(held, t, GetNext(b)), Go(t)) == Goto(held, t, GetCas(b, s.next[b]))
    ensures Sized(Goto(held, t, GetCas(b, s.next[b])))
    ensures var x := Step(Goto(held, t, GetCas(b, s.next[b])), Go(t));
            Sized(x) && var r := Step(x, Go(t));
            r.pcs == s.pcs && r.hands == s.hands[t := s.hands[t] + {b}] && r.list == s.list[1..]
  {
    hide StepPush;
    assert s.pcs[t := GetNext(b)][t := GetCas(b, s.next[b])] == s.pcs[t := GetCas(b, s.next[b])];
    StepSized(Goto(held, t, GetCas(b, s.next[b])), Go(t));
    assert s.pcs[t := GetCas(b, s.next[b])][t := GetTake(b)] == s.pcs[t := GetTake(b)];
    assert s.pcs[t := GetTake(b)][t := Idle] == s.pcs;
  }

  /** `add` run alone while no other call is under way: the block comes first on the list. */
  lemma AddAlone(threads: nat, owner: seq<nat>, trace: seq<Event>, t: nat, b: nat)
    requires Start(threads, owner) && t < threads && b in Reached(threads, owner, trace).hands[t]
    requires forall u | 0 <= u < threads :: Reached(threads, owner, trace).pcs[u].Idle?
    ensures var s := Reached(threads, owner, trace); var r := Exec(s, Alone(CallAdd(t, b), t, 5));
            r.pcs == s.pcs && r.hands == s.hands[t := s.hands[t] - {b}] && r.list == [b] + s.list
  {
    hide Reached, BlockInv, ThreadInv, Exec;
    RunInv(threads, owner, trace);
    var s := Reached(threads, owner, trace);
    HandInRange(s, t, b);
    AtRest(s, b);
    AddSteps(s, t, b);
  }

  lemma AddSteps(s: State, t: nat, b: nat)
    requires Sized(s) && t < |s.pcs| && s.pcs[t].Idle? && b < |s.refs| && b in s.hands[t] && s.refs[b] == 0
    ensures var r := Exec(s, Alone(CallAdd(t, b), t, 5));
            r.pcs == s.pcs && r.hands == s.hands[t := s.hands[t] - {b}] && r.list == [b] + s.list
  {
    hide Exec, StepPush, StepGet, Step;
    var call := CallAdd(t, b);
    AloneRun(s, call, t, 0);
    AddCalled(s, t, b);
    Then(s, call, t, 0, Step(s, call));
    MarkSteps(Step(s, call), t, b);
    Then(s, call, t, 1, Step(Step(s, call), Go(t)));
    var x := Exec(s, Alone(call, t, 2));
    Then(s, call, t, 2, x);
    LinkSteps(x, t, b);
    Then(s, call, t, 3, Step(x, Go(t)));
    Then(s, call, t, 4, Step(Step(x, Go(t)), Go(t)));
    assert Exec(s, Alone(call, t, 5)).pcs == s.pcs;
  }

  lemma AddCalled(s: State, t: nat, b: nat)
    requires Sized(s) && t < |s.pcs| && s.pcs[t].Idle? && b < |s.refs| && b in s.hands[t]
    ensures var r := Step(s, CallAdd(t, b));
            Sized(r) && r.pcs == s.pcs[t := AddMark(b)] && r.hands == s.hands[t := s.hands[t] - {b}] && r.list == s.list && r.refs == s.refs
  {
    StepSized(s, CallAdd(t, b));
  }

  lemma MarkSteps(s: State, t: nat, b: nat)
    requires Sized(s) && t < |s.pcs| && s.pcs[t] == AddMark(b) && b < |s.refs| && s.refs[b] == 0
    ensures var x := Step(s, Go(t)); Sized(x) && var r := Step(x, Go(t));
            Sized(r) && r.pcs == s.pcs[t := PushNext(b, r.head, Return)] && r.hands == s.hands && r.list == s.list
  {
    hide StepGet;
    StepSized(s, Go(t));
    StepSized(Step(s, Go(t)), Go(t));
  }

  lemma LinkSteps(s: State, t: nat, b: nat)
    requires Sized(s) && t < |s.pcs| && s.pcs[t] == PushNext(b, s.head, Return) && b < |s.refs|
    ensures var x := Step(s, Go(t)); Sized(x) && var y := Step(x, Go(t)); Sized(y) && var r := Step(y, Go(t));
            r.pcs == s.pcs[t := Idle] && r.hands == s.hands && r.list == [b] + s.list
  {
    hide StepGet;
    var x := Step(s, Go(t));
    StepSized(s, Go(t));
    assert x.pcs == s.pcs[t := PushRefs(b, s.head, Return)] && x.head == s.head && x.hands == s.hands && x.list == s.list;
    var y := Step(x, Go(t));
    StepSized(x, Go(t));
    assert y.pcs == s.pcs[t := PushCas(b, s.head, Return)] && y.head == s.head && y.hands == s.hands && y.list == s.list;
  }

  // ---------- why a call ends with nothing ----------

  /** Thread t is inside a call of `try_get` and has loaded a null head. */
  predicate SawNull(pc: Pc) {
    match pc
    case GetTest(h) => h.Null?
    case GetDrop(_, h) => h.Null?
    case PushLoad(_, k) => k == Resume(Null)
    case PushNext(_, _, k) => k == Resume(Null)
    case PushRefs(_, _, k) => k == Resume(Null)
    case PushCas(_, _, k) => k == Resume(Null)
    case PushUndo(_, _, k) => k == Resume(Null)
    case _ => false
  }

  /** Inside `try_get`, at whatever depth. */
  predicate InGet(pc: Pc) {
    match pc
    case Idle => false
    case AddMark(_) => false
    case PushLoad(_, k) => k.Resume?
    case PushNext(_, _, k) => k.Resume?
    case PushRefs(_, _, k) => k.Resume?
    case PushCas(_, _, k) => k.Resume?
    case PushUndo(_, _, k) => k.Resume?
    case _ => true
  }

  /** A null head is only ever seen where the head is null. */
  lemma SeesNull(s: State, e: Event, t: nat)
    requires Sized(s) && t < |s.pcs| && InGet(s.pcs[t])
    ensures var pc := Step(s, e).pcs[t];
            && (InGet(pc) || pc.Idle?)
            && (InGet(pc) && SawNull(pc) ==> SawNull(s.pcs[t]) || s.head.Null?)
            && (pc.Idle? ==> e == Go(t) && (SawNull(s.pcs[t]) || (s.pcs[t].GetTake? && Step(s, e).hands[t] == s.hands[t] + {s.pcs[t].b})))
  {
    hide StepPush, StepGet;
    if e == Go(t) {
      if InPush(s.pcs[t]) { PushSeesNull(s, t); } else { GetSeesNull(s, t); }
    } else {
      OtherStep(s, e, t);
    }
  }

  lemma PushSeesNull(s: State, t: nat)
    requires Sized(s) && t < |s.pcs| && InGet(s.pcs[t]) && InPush(s.pcs[t])
    ensures var pc := StepPush(s, t).pcs[t]; InGet(pc) && (SawNull(pc) ==> SawNull(s.pcs[t]))
  {
  }

  lemma GetSeesNull(s: State, t: nat)
    requires Sized(s) && t < |s.pcs| && InGet(s.pcs[t]) && !InPush(s.pcs[t])
    ensures var pc := StepGet(s, t).pcs[t];
            && (InGet(pc) || pc.Idle?)
            && (InGet(pc) && SawNull(pc) ==> SawNull(s.pcs[t]) || s.head.Null?)
            && (pc.Idle? ==> SawNull(s.pcs[t]) || (s.pcs[t].GetTake? && StepGet(s, t).hands[t] == s.hands[t] + {s.pcs[t].b}))
  {
  }

  lemma OtherStep(s: State, e: Event, t: nat)
    requires Sized(s) && t < |s.pcs| && !s.pcs[t].Idle? && e != Go(t)
    ensures Step(s, e).pcs[t] == s.pcs[t]
  {
    hide Sized;
  }

  /** From `from` on, thread t is inside one call of `try_get`. */
  ghost predicate Getting(threads: nat, owner: seq<nat>, trace: seq<Event>, from: nat, t: nat)
    requires Start(threads, owner)
  {
    && t < threads && from < |trace| && trace[from] == CallGet(t)
    && Reached(threads, owner, trace[..from]).pcs[t].Idle?
    && forall k | from < k <= |trace| :: !Reached(threads, owner, trace[..k]).pcs[t].Idle?
  }

  /** The list was empty at a moment inside the call. */
  ghost predicate WasEmpty(threads: nat, owner: seq<nat>, trace: seq<Event>, from: nat)
    requires Start(threads, owner)
  {
    exists k :: from < k <= |trace| && Reached(threads, owner, trace[..k]).list == []
  }

  lemma ReachedMore(threads: nat, owner: seq<nat>, trace: seq<Event>, e: Event)
    requires Start(threads, owner)
    ensures Reached(threads, owner, trace + [e]) == Step(Reached(threads, owner, trace), e)
  {
    InitInv(threads, owner);
    ExecMore(Init(threads, owner), trace, e);
  }

  lemma WasEmptyLater(threads: nat, owner: seq<nat>, trace: seq<Event>, from: nat, e: Event)
    requires Start(threads, owner) && WasEmpty(threads, owner, trace, from)
    ensures WasEmpty(threads, owner, trace + [e], from)
  {
    hide Reached;
    var k :| from < k <= |trace| && Reached(threads, owner, trace[..k]).list == [];
    assert (trace + [e])[..k] == trace[..k];
  }

  lemma {:induction false} NullWasSeen(threads: nat, owner: seq<nat>, trace: seq<Event>, from: nat, t: nat)
    requires Start(threads, owner) && Getting(threads, owner, trace, from, t)
    ensures var pc := Reached(threads, owner, trace).pcs[t]; InGet(pc) && (SawNull(pc) ==> WasEmpty(threads, owner, trace, from))
    decreases |trace|
  {
    hide Reached, Step, InGet, SawNull;
    var before, e := trace[..|trace| - 1], trace[|trace| - 1];
    assert trace == before + [e] && trace[..|trace|] == trace;
    ReachedMore(threads, owner, before, e);
    var s := Reached(threads, owner, before);
    if |trace| == from + 1 {
      CallsGet(s, t);
    } else {
      assert before[..from] == trace[..from];
      assert forall k | from < k <= |before| :: before[..k] == trace[..k];
      NullWasSeen(threads, owner, before, from, t);
      SeesNull(s, e, t);
      RunInv(threads, owner, before);
      if SawNull(s.pcs[t]) {
        WasEmptyLater(threads, owner, before, from, e);
      } else if s.head.Null? {
        assert s.list == [];
        assert trace[..|before|] == before;
      }
    }
  }

  lemma CallsGet(s: State, t: nat)
    requires Sized(s) && t < |s.pcs| && s.pcs[t].Idle?
    ensures Step(s, CallGet(t)).pcs[t] == GetLoad && InGet(GetLoad) && !SawNull(GetLoad)
  {
  }

  /**
   In every interleaving: the step that ends a call of `try_get` either puts a block
   into the caller's hands, or the list was empty at a moment inside the call.
   */
  lemma NothingOnlyFromEmpty(threads: nat, owner: seq<nat>, trace: seq<Event>, from: nat, t: nat, e: Event)
    requires Start(threads, owner) && Getting(threads, owner, trace, from, t)
    requires Reached(threads, owner, trace + [e]).pcs[t].Idle?
    ensures var s := Reached(threads, owner, trace); var r := Reached(threads, owner, trace + [e]);
            || (exists b :: b !in s.hands[t] && r.hands[t] == s.hands[t] + {b})
            || WasEmpty(threads, owner, trace, from)
  {
    hide Reached, Step, SawNull, InGet;
    NullWasSeen(threads, owner, trace, from, t);
    ReachedMore(threads, owner, trace, e);
    var s := Reached(threads, owner, trace);
    SeesNull(s, e, t);
    RunInv(threads, owner, trace);
    if !SawNull(s.pcs[t]) {
      TakesNew(s, t);
    }
  }

  lemma TakesNew(s: State, t: nat)
    requires Inv(s) && t < |s.pcs| && s.pcs[t].GetTake?
    ensures s.pcs[t].b !in s.hands[t]
  {
    assert ThreadInv(s, t);
  }
}
