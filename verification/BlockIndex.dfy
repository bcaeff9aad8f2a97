/**
 One explicit producer of the concurrent queue with its consumers: blocks of
 elements in a circular list, and the circular block index through which a
 consumer finds the block of the index it has claimed. The producer reuses
 emptied blocks, inserts new ones, and doubles the index ring, while consumers
 look up, read and mark elements, one atomic operation a step, any interleaving.

 The claim itself is the counter protocol of DequeueCounters, run as it stands
 inside this machine.
 */
module BlockIndex {
  import opened RingArithmetic
  import opened Powers
  import C = DequeueCounters

  const BLOCK_SIZE: nat := 32

  datatype Entry = Entry(base: nat, block: nat)

  /** A published ring: `front` is the slot of the newest block, -1 before the first one. */
  datatype Header = Header(front: int, entries: seq<Entry>)

  datatype Block = Block(next: nat, empty: seq<bool>, elems: seq<int>)

  /** The ring's slot 0 belongs to run `off`; the ring describes the runs from lo up to hi (frozen when it is replaced). */
  datatype Span = Span(off: nat, lo: nat, hi: nat)

  /** The producer inside `enqueue(x)`: the operation it performs next. */
  datatype ProdPc =
    | ProdIdle
    | CheckNext(x: int)     // is the block after the tail block empty?
    | ReuseNext(x: int)     // make it the tail block and reset its flags
    | MakeRoom(x: int)      // double the index if it is full
    | NeedBlock(x: int)     // requisition a block and link it in
    | WriteBase(x: int)     // entry.base
    | WriteBlock(x: int)    // entry.block
    | WriteFront(x: int)    // publish the slot
    | WriteElem(x: int)     // construct the element
    | WriteTail(x: int)     // publish the element

  /** A consumer that has claimed an index: the operation it performs next. */
  datatype LookPc =
    | Before                                       // load blockIndex
    | LoadFront(h: nat)                            // load the header's front
    | LoadBase(h: nat, f: int, m: nat)             // load the base in that slot (m: its run, history)
    | LoadBlock(h: nat, f: int, base: nat, m: nat) // load the block of the computed slot
    | LoadElem(b: nat)                             // move the element out
    | SetEmpty(b: nat, v: int)                     // set the element's empty flag, return

  /**
   History fields, never read by a step: `hist[k]` is the block that holds the k-th
   run of BLOCK_SIZE indices, `items[i]` the element enqueued at index i, `out` what
   was delivered for each index, and `spans` describes the ring of each header.
   */
  datatype State = State(
    c: C.State,
    prod: ProdPc,
    tailBlock: int,       // -1 for none
    slotsUsed: nat,
    front: nat,           // next slot, the producer's own
    headers: seq<Header>, // the last one is published
    blocks: seq<Block>,
    look: seq<LookPc>,
    hist: seq<nat>,
    items: seq<int>,
    out: map<nat, int>,
    spans: seq<Span>)

  datatype Event =
    | Enqueue(x: int)
    | Produce                 // the producer's next operation
    | Requisition(b: nat)     // the pool hands over a block that is not in the circle
    | RequisitionFails
    | CallDequeue(t: nat)
    | Consume(t: nat)         // consumer t's next operation

  function Blank(size: nat): (r: seq<Entry>)
    ensures |r| == size
  {
    seq(size, _ => Entry(0, 0))
  }

  function Fresh(): Block {
    Block(0, seq(BLOCK_SIZE, _ => true), seq(BLOCK_SIZE, _ => 0))
  }

  function Init(threads: nat, blocks: nat, logSize: nat): State {
    State(C.Init(threads), ProdIdle, -1, 0, 0,
          [Header(-1, Blank(Pow2(logSize)))],
          seq(blocks, _ => Fresh()),
          seq(threads, _ => Before),
          [], [], map[], [Span(0, 0, 0)])
  }

  /** The position in a block's flag array for index i; the flags are stored in reverse. */
  function FlagAt(i: nat): (r: nat)
    ensures r < BLOCK_SIZE
  {
    BLOCK_SIZE - 1 - i % BLOCK_SIZE
  }

  function Current(s: State): nat
    requires |s.headers| > 0
  {
    |s.headers| - 1
  }

  /** The first `used` slots of a ring of twice the size, copied in order from the old one. */
  function Doubled(entries: seq<Entry>, front: nat, used: nat): (r: seq<Entry>)
    requires |entries| > 0
    ensures |r| == 2 * |entries|
  {
    seq(2 * |entries|, j requires 0 <= j =>
      if j < used then entries[Slot(front - used + j, |entries|)] else Entry(0, 0))
  }

  /** Table sizes that every step respects. */
  predicate Sized(s: State) {
    && |s.look| == |s.c.pcs|
    && |s.headers| == |s.spans| > 0
    && (forall h | 0 <= h < |s.headers| :: |s.headers[h].entries| > 0)
    && (forall b | 0 <= b < |s.blocks| :: |s.blocks[b].empty| == |s.blocks[b].elems| == BLOCK_SIZE && s.blocks[b].next < |s.blocks|)
    && -1 <= s.tailBlock < |s.blocks|
    && s.front < |s.headers[Current(s)].entries|
    && s.slotsUsed <= |s.hist|
  }

  predicate AllEmpty(b: Block) {
    forall j | 0 <= j < |b.empty| :: b.empty[j]
  }

  function Cleared(b: Block): Block {
    b.(empty := seq(BLOCK_SIZE, _ => false))
  }

  function StartEnqueue(s: State, x: int): State {
    s.(prod := if s.c.tail % BLOCK_SIZE == 0 then CheckNext(x) else WriteElem(x))
  }

  function CheckStep(s: State): State
    requires Sized(s) && s.prod.CheckNext?
  {
    var x := s.prod.x;
    if s.tailBlock >= 0 && AllEmpty(s.blocks[s.blocks[s.tailBlock].next])
    then s.(prod := ReuseNext(x)) else s.(prod := MakeRoom(x))
  }

  function ReuseStep(s: State): State
    requires Sized(s) && s.prod.ReuseNext?
  {
    if s.tailBlock < 0 then s else
      var b := s.blocks[s.tailBlock].next;
      var span := s.spans[Current(s)];
      s.(tailBlock := b, blocks := s.blocks[b := Cleared(s.blocks[b])], hist := s.hist + [b],
         spans := s.spans[Current(s) := span.(lo := span.lo + 1)], prod := WriteBase(s.prod.x))
  }

  function RoomStep(s: State): State
    requires Sized(s) && s.prod.MakeRoom?
  {
    var cur := Current(s);
    var ring := s.headers[cur].entries;
    if s.slotsUsed != |ring| then s.(prod := NeedBlock(s.prod.x))
    else
      s.(headers := s.headers + [Header(s.slotsUsed - 1, Doubled(ring, s.front, s.slotsUsed))],
         front := s.slotsUsed,
         spans := s.spans + [Span(|s.hist| - s.slotsUsed, |s.hist| - s.slotsUsed, |s.hist|)],
         prod := NeedBlock(s.prod.x))
  }

  predicate Spare(s: State, b: nat)
    requires Sized(s)
  {
    b < |s.blocks| && b !in s.hist[|s.hist| - s.slotsUsed..]
  }

  function LinkStep(s: State, b: nat): State
    requires Sized(s) && s.prod.NeedBlock? && Spare(s, b)
  {
    var linked :=
      if s.tailBlock < 0 then s.blocks[b := Cleared(s.blocks[b]).(next := b)]
      else
        var t := s.blocks[s.tailBlock];
        s.blocks[b := Cleared(s.blocks[b]).(next := t.next)][s.tailBlock := t.(next := b)];
    s.(blocks := linked, tailBlock := b, slotsUsed := s.slotsUsed + 1, hist := s.hist + [b], prod := WriteBase(s.prod.x))
  }

  function SetHeader(s: State, h: Header): State
    requires Sized(s)
  {
    s.(headers := s.headers[Current(s) := h])
  }

  function WriteIndexStep(s: State): State
    requires Sized(s) && (s.prod.WriteBase? || s.prod.WriteBlock? || s.prod.WriteFront?)
  {
    var h := s.headers[Current(s)];
    var e := h.entries[s.front];
    match s.prod
    case WriteBase(x) =>
      SetHeader(s, h.(entries := h.entries[s.front := e.(base := s.c.tail)])).(prod := WriteBlock(x))
    case WriteBlock(x) =>
      SetHeader(s, h.(entries := h.entries[s.front := e.(block := if s.tailBlock < 0 then 0 else s.tailBlock)])).(prod := WriteFront(x))
    case WriteFront(x) =>
      var span := s.spans[Current(s)];
      SetHeader(s, h.(front := s.front)).(front := Slot(s.front + 1, |h.entries|),
        spans := s.spans[Current(s) := span.(hi := span.hi + 1)], prod := WriteElem(x))
  }

  function WriteElemStep(s: State): State
    requires Sized(s) && s.prod.WriteElem?
  {
    if s.tailBlock < 0 then s else
      var b := s.blocks[s.tailBlock];
      s.(blocks := s.blocks[s.tailBlock := b.(elems := b.elems[s.c.tail % BLOCK_SIZE := s.prod.x])],
         prod := WriteTail(s.prod.x))
  }

  function WriteTailStep(s: State): State
    requires Sized(s) && s.prod.WriteTail?
  {
    s.(c := C.Step(s.c, C.Enqueue), items := s.items + [s.prod.x], prod := ProdIdle)
  }

  function ProduceStep(s: State): State
    requires Sized(s)
  {
    match s.prod
    case ProdIdle => s
    case CheckNext(_) => CheckStep(s)
    case ReuseNext(_) => ReuseStep(s)
    case MakeRoom(_) => RoomStep(s)
    case NeedBlock(_) => s
    case WriteBase(_) => WriteIndexStep(s)
    case WriteBlock(_) => WriteIndexStep(s)
    case WriteFront(_) => WriteIndexStep(s)
    case WriteElem(_) => WriteElemStep(s)
    case WriteTail(_) => WriteTailStep(s)
  }

  function Look(s: State, t: nat, pc: LookPc): State
    requires t < |s.look|
  {
    s.(look := s.look[t := pc])
  }

  /** The slot of index i in a ring whose slot f holds the block based at `base`. */
  function LookupSlot(i: nat, f: int, base: nat, size: nat): (r: nat)
    requires size > 0
    ensures r < size
  {
    var blockBase := i - i % BLOCK_SIZE;
    // the source divides a signed difference of two multiples of BLOCK_SIZE, so the division is exact
    var offset := (blockBase - base) / BLOCK_SIZE;
    Slot(f + offset, size)
  }

  function LookStep(s: State, t: nat): State
    requires Sized(s) && t < |s.look| && s.c.pcs[t].Claimed?
  {
    var i := s.c.pcs[t].index;
    match s.look[t]
    case Before => Look(s, t, LoadFront(Current(s)))
    case LoadFront(h) =>
      if h >= |s.headers| then s else
        Look(s, t, LoadBase(h, s.headers[h].front, if s.spans[h].hi > 0 then s.spans[h].hi - 1 else 0))
    case LoadBase(h, f, m) =>
      if h >= |s.headers| || !(0 <= f < |s.headers[h].entries|) then s else
        Look(s, t, LoadBlock(h, f, s.headers[h].entries[f].base, m))
    case LoadBlock(h, f, base, m) =>
      if h >= |s.headers| then s else
        Look(s, t, LoadElem(s.headers[h].entries[LookupSlot(i, f, base, |s.headers[h].entries|)].block))
    case LoadElem(b) =>
      if b >= |s.blocks| then s else Look(s, t, SetEmpty(b, s.blocks[b].elems[i % BLOCK_SIZE]))
    case SetEmpty(b, v) =>
      if b >= |s.blocks| then s else
        Look(s, t, Before).(
          blocks := s.blocks[b := s.blocks[b].(empty := s.blocks[b].empty[FlagAt(i) := true])],
          out := s.out[i := v],
          c := C.Step(s.c, C.Go(t)))
  }

  function Step(s: State, e: Event): State
    requires Sized(s)
  {
    match e
    case Enqueue(x) => if s.prod.ProdIdle? then StartEnqueue(s, x) else s
    case Produce => ProduceStep(s)
    case Requisition(b) => if s.prod.NeedBlock? && Spare(s, b) then LinkStep(s, b) else s
    case RequisitionFails => if s.prod.NeedBlock? then s.(prod := ProdIdle) else s
    case CallDequeue(t) => s.(c := C.Step(s.c, C.CallDequeue(t)))
    case Consume(t) =>
      if t >= |s.look| then s
      else if s.c.pcs[t].Claimed? then LookStep(s, t)
      else s.(c := C.Step(s.c, C.Go(t)))
  }

  // ---------- the invariant ----------

  /** Runs whose index entry has been published. */
  function Published(s: State): int {
    |s.hist| - (if s.prod.WriteBase? || s.prod.WriteBlock? || s.prod.WriteFront? then 1 else 0)
  }

  /** How many runs of indices have been given a block: n runs for a given tail, by what the producer is doing. */
  predicate Runs(prod: ProdPc, n: nat, tail: nat) {
    match prod
    case ProdIdle => (n - 1) * BLOCK_SIZE < tail <= n * BLOCK_SIZE
    case CheckNext(_) => tail == n * BLOCK_SIZE
    case ReuseNext(_) => tail == n * BLOCK_SIZE && n > 0
    case MakeRoom(_) => tail == n * BLOCK_SIZE
    case NeedBlock(_) => tail == n * BLOCK_SIZE
    case WriteBase(_) => tail == (n - 1) * BLOCK_SIZE
    case WriteBlock(_) => tail == (n - 1) * BLOCK_SIZE
    case WriteFront(_) => tail == (n - 1) * BLOCK_SIZE
    case WriteElem(_) => (n - 1) * BLOCK_SIZE <= tail < n * BLOCK_SIZE
    case WriteTail(_) => (n - 1) * BLOCK_SIZE <= tail < n * BLOCK_SIZE
  }

  /** The circular list runs through the blocks of the runs from lo on, the oldest after the newest. */
  predicate Circle(hist: seq<nat>, lo: int, tailBlock: int, blocks: seq<Block>) {
    var n := |hist|;
    && 0 <= lo <= n
    && (forall k | 0 <= k < n :: hist[k] < |blocks|)
    && (if n == 0 then tailBlock == -1
        else lo < n && tailBlock == hist[n - 1] && blocks[hist[n - 1]].next == hist[lo])
    && (forall k {:trigger blocks[hist[k]]} | lo <= k < n - 1 :: blocks[hist[k]].next == hist[k + 1])
    && (forall j, k | lo <= j < k < n :: hist[j] != hist[k])
  }

  /** A ring maps each run of its span to its base and block, and its front is the slot of the last of them. */
  predicate Ring(h: Header, span: Span, hist: seq<nat>) {
    var z := |h.entries|;
    && z > 0
    && span.off <= span.lo <= span.hi <= |hist|
    && span.hi - span.lo <= z
    && (span.off < span.hi ==> h.front == Slot(span.hi - 1 - span.off, z))
    && (forall k | span.lo <= k < span.hi :: h.entries[Slot(k - span.off, z)] == Entry(k * BLOCK_SIZE, hist[k]))
  }

  predicate AtSlot(front: nat, ring: seq<Entry>, pos: int) {
    |ring| > 0 && front == Slot(pos, |ring|)
  }

  /** The entry the producer is in the middle of writing. */
  predicate Partial(prod: ProdPc, front: nat, ring: seq<Entry>, tail: nat, tailBlock: int) {
    && front < |ring|
    && (prod.WriteBlock? ==> ring[front].base == tail)
    && (prod.WriteFront? ==> tailBlock >= 0 && ring[front] == Entry(tail, tailBlock))
  }

  /** The flags of the block of run k say exactly which of its elements have been delivered. */
  predicate BlockFlags(b: Block, k: nat, out: map<nat, int>) {
    forall j | 0 <= j < |b.empty| <= BLOCK_SIZE :: b.empty[j] == (k * BLOCK_SIZE + (BLOCK_SIZE - 1 - j) in out)
  }

  /** The block of run k holds the elements of its run. */
  predicate BlockElems(b: Block, k: nat, items: seq<int>) {
    forall j | 0 <= j < |b.elems| && k * BLOCK_SIZE + j < |items| :: b.elems[j] == items[k * BLOCK_SIZE + j]
  }

  predicate Live(hist: seq<nat>, lo: nat, blocks: seq<Block>, items: seq<int>, out: map<nat, int>) {
    forall k {:trigger blocks[hist[k]]} | lo <= k < |hist| && hist[k] < |blocks| ::
      BlockFlags(blocks[hist[k]], k, out) && BlockElems(blocks[hist[k]], k, items)
  }

  /** Delivered indices carry their own element, are never in a consumer's hands, and include every index below `from`. */
  predicate Out(c: C.State, items: seq<int>, out: map<nat, int>, from: int) {
    && (forall i <- out :: i < c.head && i < |items| && out[i] == items[i])
    && (forall t | 0 <= t < |c.pcs| && c.pcs[t].Claimed? :: c.pcs[t].index !in out)
    && (forall i: nat | i < |c.claimants| && i !in out ::
          c.claimants[i] < |c.pcs| && c.pcs[c.claimants[i]] == C.Claimed(i))
    && (forall i: nat | i < from :: i in out)
  }

  /** What a consumer of index i has read so far is right, and stays right. */
  predicate Looking(pc: LookPc, i: nat, headers: seq<Header>, spans: seq<Span>, hist: seq<nat>, items: seq<int>) {
    var k := i / BLOCK_SIZE;
    match pc
    case Before => true
    case LoadFront(h) => h < |headers| && h < |spans| && spans[h].lo <= k < spans[h].hi
    case LoadBase(h, f, m) => h < |headers| && h < |spans| && LooksAt(headers[h], spans[h], f, m, k)
    case LoadBlock(h, f, base, m) =>
      h < |headers| && h < |spans| && LooksAt(headers[h], spans[h], f, m, k) && base == m * BLOCK_SIZE
    case LoadElem(b) => k < |hist| && b == hist[k]
    case SetEmpty(b, v) => k < |hist| && b == hist[k] && i < |items| && v == items[i]
  }

  predicate LooksAt(h: Header, span: Span, f: int, m: nat, k: nat) {
    span.lo <= k <= m < span.hi && |h.entries| > 0 && f == Slot(m - span.off, |h.entries|)
  }

  predicate LookInv(look: LookPc, pc: C.Pc, headers: seq<Header>, spans: seq<Span>, hist: seq<nat>, items: seq<int>) {
    if pc.Claimed? then Looking(look, pc.index, headers, spans, hist, items) else look.Before?
  }

  predicate Rings(headers: seq<Header>, spans: seq<Span>, hist: seq<nat>) {
    |headers| == |spans| && forall h | 0 <= h < |headers| :: Ring(headers[h], spans[h], hist)
  }

  predicate Looks(c: C.State, look: seq<LookPc>, headers: seq<Header>, spans: seq<Span>, hist: seq<nat>, items: seq<int>) {
    |look| == |c.pcs| && forall t | 0 <= t < |look| :: LookInv(look[t], c.pcs[t], headers, spans, hist, items)
  }

  /** Everything enqueued, counting the element already written but not yet published. */
  function Written(s: State): seq<int> {
    if s.prod.WriteTail? then s.items + [s.prod.x] else s.items
  }

  function Oldest(s: State): int { |s.hist| - s.slotsUsed }

  predicate IndexInv(s: State)
    requires Sized(s)
  {
    var cur := Current(s);
    && s.spans[cur].lo == Oldest(s) && s.spans[cur].hi == Published(s)
    && Rings(s.headers, s.spans, s.hist)
    && AtSlot(s.front, s.headers[cur].entries, s.spans[cur].hi - s.spans[cur].off)
    && Partial(s.prod, s.front, s.headers[cur].entries, s.c.tail, s.tailBlock)
    && s.slotsUsed <= |s.headers[cur].entries| - (if s.prod.NeedBlock? then 1 else 0)
  }

  predicate Inv(s: State) {
    && C.Claims(s.c)
    && Sized(s)
    && |s.items| == s.c.tail
    && Runs(s.prod, |s.hist|, s.c.tail)
    && Circle(s.hist, Oldest(s), s.tailBlock, s.blocks)
    && IndexInv(s)
    && Live(s.hist, Oldest(s), s.blocks, Written(s), s.out)
    && Out(s.c, s.items, s.out, Oldest(s) * BLOCK_SIZE + (if s.prod.ReuseNext? then BLOCK_SIZE else 0))
    && Looks(s.c, s.look, s.headers, s.spans, s.hist, s.items)
  }

  // ---------- every step keeps the invariant ----------

  lemma InitInv(threads: nat, blocks: nat, logSize: nat)
    ensures Inv(Init(threads, blocks, logSize))
  {
  }

  /** Control moves of the producer that write nothing. */
  lemma ProdOnlyInv(s: State, pc: ProdPc)
    requires Inv(s)
    requires s.prod.ProdIdle? || s.prod.CheckNext? || s.prod.MakeRoom? || s.prod.NeedBlock?
    requires pc.ProdIdle? || pc.CheckNext? || pc.ReuseNext? || pc.MakeRoom? || pc.NeedBlock? || pc.WriteElem?
    requires Runs(pc, |s.hist|, s.c.tail)
    requires pc.NeedBlock? ==> s.slotsUsed < |s.headers[Current(s)].entries|
    requires pc.ReuseNext? ==> forall i: nat | i < Oldest(s) * BLOCK_SIZE + BLOCK_SIZE :: i in s.out
    ensures Inv(s.(prod := pc))
  {
    hide Circle, Rings, Looks, Live, C.Claims, AtSlot;
  }

  lemma StartEnqueueInv(s: State, x: int)
    requires Inv(s) && s.prod.ProdIdle?
    ensures Inv(StartEnqueue(s, x))
  {
    ProdOnlyInv(s, StartEnqueue(s, x).prod);
  }

  lemma CheckInv(s: State)
    requires Inv(s) && s.prod.CheckNext?
    ensures Inv(CheckStep(s))
  {
    var s' := CheckStep(s);
    if s'.prod.ReuseNext? {
      var lo := Oldest(s);
      forall i: nat | lo * BLOCK_SIZE <= i < lo * BLOCK_SIZE + BLOCK_SIZE ensures i in s.out {
        var j := i - lo * BLOCK_SIZE;
        assert BlockFlags(s.blocks[s.hist[lo]], lo, s.out);
        assert s.blocks[s.hist[lo]].empty[BLOCK_SIZE - 1 - j];
      }
    }
    ProdOnlyInv(s, s'.prod);
  }

  lemma RingExtend(h: Header, span: Span, hist: seq<nat>, b: nat)
    requires Ring(h, span, hist)
    ensures Ring(h, span, hist + [b])
  {
  }

  lemma LookExtend(look: LookPc, pc: C.Pc, headers: seq<Header>, spans: seq<Span>, hist: seq<nat>, b: nat, items: seq<int>)
    requires LookInv(look, pc, headers, spans, hist, items)
    ensures LookInv(look, pc, headers, spans, hist + [b], items)
  {
  }

  /** A consumer's claimed index is not delivered yet, so its run is not older than those of which everything is. */
  lemma ClaimedFrom(c: C.State, items: seq<int>, out: map<nat, int>, lo: nat, t: nat)
    requires Out(c, items, out, lo * BLOCK_SIZE) && t < |c.pcs| && c.pcs[t].Claimed?
    ensures lo <= c.pcs[t].index / BLOCK_SIZE
  {
  }

  lemma CircleReuse(hist: seq<nat>, lo: int, tailBlock: int, blocks: seq<Block>, blocks': seq<Block>)
    requires Circle(hist, lo, tailBlock, blocks) && |hist| > 0
    requires |blocks'| == |blocks| && forall b | 0 <= b < |blocks| :: blocks'[b].next == blocks[b].next
    ensures Circle(hist + [hist[lo]], lo + 1, hist[lo], blocks')
    ensures 0 <= tailBlock < |blocks| && blocks[tailBlock].next == hist[lo]
  {
    var hist' := hist + [hist[lo]];
    forall j, k | lo + 1 <= j < k < |hist'| ensures hist'[j] != hist'[k] {
      if k == |hist| { assert hist[lo] != hist[j]; }
    }
  }

  lemma LiveReuse(hist: seq<nat>, lo: nat, blocks: seq<Block>, items: seq<int>, out: map<nat, int>)
    requires Live(hist, lo, blocks, items, out) && lo < |hist| && hist[lo] < |blocks|
    requires forall k | lo < k < |hist| :: hist[k] != hist[lo]
    requires |items| <= |hist| * BLOCK_SIZE && forall i <- out :: i < |items|
    ensures Live(hist + [hist[lo]], lo + 1, blocks[hist[lo] := Cleared(blocks[hist[lo]])], items, out)
  {
  }

  lemma RingsExtend(headers: seq<Header>, spans: seq<Span>, hist: seq<nat>, b: nat)
    requires Rings(headers, spans, hist)
    ensures Rings(headers, spans, hist + [b])
  {
    forall h | 0 <= h < |headers| ensures Ring(headers[h], spans[h], hist + [b]) {
      RingExtend(headers[h], spans[h], hist, b);
    }
  }

  lemma RingsDrop(headers: seq<Header>, spans: seq<Span>, hist: seq<nat>, h: nat)
    requires Rings(headers, spans, hist) && h < |headers| && spans[h].lo < spans[h].hi
    ensures Rings(headers, spans[h := spans[h].(lo := spans[h].lo + 1)], hist)
  {
  }

  lemma LooksExtend(c: C.State, look: seq<LookPc>, headers: seq<Header>, spans: seq<Span>, hist: seq<nat>, b: nat, items: seq<int>)
    requires Looks(c, look, headers, spans, hist, items)
    ensures Looks(c, look, headers, spans, hist + [b], items)
  {
    forall t | 0 <= t < |look| ensures LookInv(look[t], c.pcs[t], headers, spans, hist + [b], items) {
      LookExtend(look[t], c.pcs[t], headers, spans, hist, b, items);
    }
  }

  /** Dropping the oldest run from a ring is harmless once every element of the run has been delivered. */
  lemma LooksDrop(s: State, h: nat)
    requires Sized(s) && Looks(s.c, s.look, s.headers, s.spans, s.hist, s.items)
    requires h < |s.spans| && Out(s.c, s.items, s.out, (s.spans[h].lo + 1) * BLOCK_SIZE)
    ensures Looks(s.c, s.look, s.headers, s.spans[h := s.spans[h].(lo := s.spans[h].lo + 1)], s.hist, s.items)
  {
    var spans := s.spans[h := s.spans[h].(lo := s.spans[h].lo + 1)];
    forall t | 0 <= t < |s.look| ensures LookInv(s.look[t], s.c.pcs[t], s.headers, spans, s.hist, s.items) {
      assert LookInv(s.look[t], s.c.pcs[t], s.headers, s.spans, s.hist, s.items);
      if s.c.pcs[t].Claimed? { ClaimedFrom(s.c, s.items, s.out, s.spans[h].lo + 1, t); }
    }
  }

  lemma OutBelow(c: C.State, items: seq<int>, out: map<nat, int>, from: int)
    requires Out(c, items, out, from)
    ensures forall i <- out :: i < |items|
    ensures forall f {:trigger Out(c, items, out, f)} :: f <= from ==> Out(c, items, out, f)
  {
  }

  lemma CircleParts(hist: seq<nat>, lo: int, tailBlock: int, blocks: seq<Block>)
    requires Circle(hist, lo, tailBlock, blocks)
    ensures 0 <= lo <= |hist| && tailBlock < |blocks|
    ensures if |hist| == 0 then tailBlock == -1 else lo < |hist| && tailBlock == hist[|hist| - 1]
    ensures forall k | lo < k < |hist| :: hist[k] != hist[lo]
    ensures forall k | 0 <= k < |hist| :: hist[k] < |blocks|
  {
  }

  lemma ReuseInv(s: State)
    requires Inv(s) && s.prod.ReuseNext?
    ensures Inv(ReuseStep(s))
  {
    hide Looks, Live, Rings, C.Claims, AtSlot, Circle, Out;
    var s' := ReuseStep(s);
    CircleParts(s.hist, Oldest(s), s.tailBlock, s.blocks);
    CircleReuse(s.hist, Oldest(s), s.tailBlock, s.blocks, s'.blocks);
    var b := s.hist[Oldest(s)];
    OutBelow(s.c, s.items, s.out, (Oldest(s) + 1) * BLOCK_SIZE);
    LiveReuse(s.hist, Oldest(s), s.blocks, s.items, s.out);
    RingsExtend(s.headers, s.spans, s.hist, b);
    RingsDrop(s.headers, s.spans, s.hist + [b], Current(s));
    LooksDrop(s, Current(s));
    LooksExtend(s.c, s.look, s.headers, s'.spans, s.hist, b, s.items);
  }

  lemma DoubledSlot(entries: seq<Entry>, span: Span, front: nat, used: nat, k: int)
    requires |entries| > 0 && 0 < used == |entries| == span.hi - span.lo
    requires AtSlot(front, entries, span.hi - span.off)
    requires span.lo <= k < span.hi
    ensures Slot(k - span.lo, 2 * |entries|) == k - span.lo
    ensures Doubled(entries, front, used)[k - span.lo] == entries[Slot(k - span.off, |entries|)]
  {
    SlotShift(span.hi - span.off, k - span.hi, |entries|);
  }

  /** The doubled ring describes the same runs as the full one it replaces. */
  lemma DoubledRing(h: Header, span: Span, front: nat, used: nat, hist: seq<nat>)
    requires Ring(h, span, hist) && 0 < used == |h.entries| == span.hi - span.lo
    requires AtSlot(front, h.entries, span.hi - span.off)
    ensures Ring(Header(used - 1, Doubled(h.entries, front, used)), Span(span.lo, span.lo, span.hi), hist)
    ensures AtSlot(used, Doubled(h.entries, front, used), span.hi - span.lo)
  {
    forall k | span.lo <= k < span.hi
      ensures Doubled(h.entries, front, used)[Slot(k - span.lo, 2 * |h.entries|)] == Entry(k * BLOCK_SIZE, hist[k])
    {
      DoubledSlot(h.entries, span, front, used, k);
    }
  }

  lemma LooksNewHeader(s: State, h: Header, span: Span)
    requires Sized(s) && Looks(s.c, s.look, s.headers, s.spans, s.hist, s.items)
    ensures Looks(s.c, s.look, s.headers + [h], s.spans + [span], s.hist, s.items)
  {
  }

  lemma RoomInv(s: State)
    requires Inv(s) && s.prod.MakeRoom?
    ensures Inv(RoomStep(s))
  {
    hide Circle, Looks, Live, C.Claims, AtSlot, Ring, Out, Doubled;
    var cur := Current(s);
    if s.slotsUsed != |s.headers[cur].entries| {
      ProdOnlyInv(s, NeedBlock(s.prod.x));
    } else {
      var s' := RoomStep(s);
      assert Ring(s.headers[cur], s.spans[cur], s.hist);
      DoubledRing(s.headers[cur], s.spans[cur], s.front, s.slotsUsed, s.hist);
      LooksNewHeader(s, s'.headers[cur + 1], s'.spans[cur + 1]);
      assert Rings(s'.headers, s'.spans, s'.hist);
      assert IndexInv(s');
    }
  }

  lemma CircleLink(hist: seq<nat>, lo: int, tailBlock: int, blocks: seq<Block>, b: nat, blocks': seq<Block>)
    requires Circle(hist, lo, tailBlock, blocks)
    requires b < |blocks| == |blocks'| && b !in hist[lo..]
    requires forall c | 0 <= c < |blocks| && c != b && c != tailBlock :: blocks'[c].next == blocks[c].next
    requires blocks'[b].next == if tailBlock < 0 then b else blocks[tailBlock].next
    requires tailBlock >= 0 ==> blocks'[tailBlock].next == b
    ensures Circle(hist + [b], lo, b, blocks')
  {
    var n := |hist|;
    var hist' := hist + [b];
    assert forall k | lo <= k < n :: hist[k] != b by {
      assert forall k | lo <= k < n :: hist[lo..][k - lo] == hist[k];
    }
    forall k | lo <= k < n ensures blocks'[hist'[k]].next == hist'[k + 1] {
      if k < n - 1 { assert blocks[hist[k]].next == hist[k + 1] && hist[k] != hist[n - 1]; }
    }
  }

  lemma LiveLink(hist: seq<nat>, lo: nat, blocks: seq<Block>, items: seq<int>, out: map<nat, int>, b: nat, blocks': seq<Block>)
    requires Live(hist, lo, blocks, items, out)
    requires b < |blocks| == |blocks'| && lo <= |hist| && b !in hist[lo..]
    requires forall c | 0 <= c < |blocks| && c != b :: blocks'[c].empty == blocks[c].empty && blocks'[c].elems == blocks[c].elems
    requires forall j | 0 <= j < |blocks'[b].empty| :: !blocks'[b].empty[j]
    requires |items| <= |hist| * BLOCK_SIZE && forall i <- out :: i < |items|
    ensures Live(hist + [b], lo, blocks', items, out)
  {
    assert forall k | lo <= k < |hist| :: hist[lo..][k - lo] == hist[k];
  }

  lemma LinkBlocks(s: State, b: nat)
    requires Inv(s) && s.prod.NeedBlock? && Spare(s, b)
    ensures var s' := LinkStep(s, b);
            && Circle(s'.hist, Oldest(s), s'.tailBlock, s'.blocks) && Live(s'.hist, Oldest(s), s'.blocks, s.items, s.out)
            && b < |s.blocks|
  {
    hide Looks, Live, Rings, C.Claims, AtSlot, Circle, Out, IndexInv;
    var s' := LinkStep(s, b);
    CircleParts(s.hist, Oldest(s), s.tailBlock, s.blocks);
    CircleLink(s.hist, Oldest(s), s.tailBlock, s.blocks, b, s'.blocks);
    OutBelow(s.c, s.items, s.out, Oldest(s) * BLOCK_SIZE);
    LiveLink(s.hist, Oldest(s), s.blocks, s.items, s.out, b, s'.blocks);
  }

  lemma LinkInv(s: State, b: nat)
    requires Inv(s) && s.prod.NeedBlock? && Spare(s, b)
    ensures Inv(LinkStep(s, b))
  {
    hide Looks, Live, Rings, C.Claims, AtSlot, Circle, Out, Spare;
    CircleParts(s.hist, Oldest(s), s.tailBlock, s.blocks);
    LinkBlocks(s, b);
    RingsExtend(s.headers, s.spans, s.hist, b);
    LooksExtend(s.c, s.look, s.headers, s.spans, s.hist, b, s.items);
  }

  /** Writing into the slot after the front disturbs none of the runs the ring describes. */
  lemma RingsWrite(headers: seq<Header>, spans: seq<Span>, hist: seq<nat>, h: nat, front: nat, e: Entry)
    requires Rings(headers, spans, hist) && h < |headers|
    requires AtSlot(front, headers[h].entries, spans[h].hi - spans[h].off)
    requires spans[h].hi - spans[h].lo < |headers[h].entries|
    ensures Rings(headers[h := headers[h].(entries := headers[h].entries[front := e])], spans, hist)
  {
    var span, ring := spans[h], headers[h].entries;
    assert Ring(headers[h], span, hist);
    forall k | span.lo <= k < span.hi
      ensures ring[front := e][Slot(k - span.off, |ring|)] == Entry(k * BLOCK_SIZE, hist[k])
    {
      SlotDistinct(k - span.off, span.hi - span.off, |ring|);
    }
  }

  /** Publishing the slot makes the ring describe one run more. */
  lemma RingsPublish(headers: seq<Header>, spans: seq<Span>, hist: seq<nat>, h: nat, front: nat)
    requires Rings(headers, spans, hist) && h < |headers| && spans[h].hi < |hist|
    requires AtSlot(front, headers[h].entries, spans[h].hi - spans[h].off)
    requires spans[h].hi - spans[h].lo < |headers[h].entries|
    requires headers[h].entries[front] == Entry(spans[h].hi * BLOCK_SIZE, hist[spans[h].hi])
    ensures Rings(headers[h := headers[h].(front := front)], spans[h := spans[h].(hi := spans[h].hi + 1)], hist)
    ensures AtSlot(Slot(front + 1, |headers[h].entries|), headers[h].entries, spans[h].hi + 1 - spans[h].off)
  {
    assert Ring(headers[h], spans[h], hist);
    SlotShift(spans[h].hi - spans[h].off, 1, |headers[h].entries|);
  }

  lemma LooksWrite(c: C.State, look: seq<LookPc>, headers: seq<Header>, spans: seq<Span>, hist: seq<nat>, items: seq<int>,
                   h: nat, header: Header, hi: nat)
    requires Looks(c, look, headers, spans, hist, items) && h < |headers| && h < |spans|
    requires |header.entries| == |headers[h].entries| && spans[h].hi <= hi
    ensures Looks(c, look, headers[h := header], spans[h := spans[h].(hi := hi)], hist, items)
  {
    forall t | 0 <= t < |look|
      ensures LookInv(look[t], c.pcs[t], headers[h := header], spans[h := spans[h].(hi := hi)], hist, items)
    {
      assert LookInv(look[t], c.pcs[t], headers, spans, hist, items);
    }
  }

  lemma WriteIndexInv(s: State)
    requires Inv(s) && (s.prod.WriteBase? || s.prod.WriteBlock? || s.prod.WriteFront?)
    ensures Inv(WriteIndexStep(s))
  {
    hide Looks, Live, Rings, C.Claims, Circle, Out;
    var s' := WriteIndexStep(s);
    var cur := Current(s);
    var h, h' := s.headers[cur], s'.headers[cur];
    CircleParts(s.hist, Oldest(s), s.tailBlock, s.blocks);
    LooksWrite(s.c, s.look, s.headers, s.spans, s.hist, s.items, cur, h', s'.spans[cur].hi);
    assert s.spans[cur := s.spans[cur].(hi := s'.spans[cur].hi)] == s'.spans;
    if s.prod.WriteFront? {
      RingsPublish(s.headers, s.spans, s.hist, cur, s.front);
    } else {
      RingsWrite(s.headers, s.spans, s.hist, cur, s.front, h'.entries[s.front]);
    }
  }

  lemma LiveWrite(hist: seq<nat>, lo: nat, tailBlock: int, blocks: seq<Block>, items: seq<int>, out: map<nat, int>, x: int)
    requires Live(hist, lo, blocks, items, out) && Circle(hist, lo, tailBlock, blocks) && |hist| > 0
    requires (|hist| - 1) * BLOCK_SIZE <= |items| < |hist| * BLOCK_SIZE
    requires forall b | 0 <= b < |blocks| :: |blocks[b].elems| == BLOCK_SIZE
    ensures var b := blocks[tailBlock];
            Live(hist, lo, blocks[tailBlock := b.(elems := b.elems[|items| % BLOCK_SIZE := x])], items + [x], out)
  {
    var b := blocks[tailBlock];
    var blocks' := blocks[tailBlock := b.(elems := b.elems[|items| % BLOCK_SIZE := x])];
    forall k {:trigger blocks'[hist[k]]} | lo <= k < |hist|
      ensures BlockFlags(blocks'[hist[k]], k, out) && BlockElems(blocks'[hist[k]], k, items + [x])
    {
      assert BlockFlags(blocks[hist[k]], k, out) && BlockElems(blocks[hist[k]], k, items);
      forall j | 0 <= j < |blocks'[hist[k]].elems| && k * BLOCK_SIZE + j < |items| + 1
        ensures blocks'[hist[k]].elems[j] == (items + [x])[k * BLOCK_SIZE + j]
      {
        if k * BLOCK_SIZE + j < |items| {
          assert blocks[hist[k]].elems[j] == items[k * BLOCK_SIZE + j];
        }
        if k == |hist| - 1 {
          assert |items| == k * BLOCK_SIZE + |items| % BLOCK_SIZE;
        } else {
          assert hist[k] != hist[|hist| - 1];
        }
      }
    }
  }

  lemma CircleElems(hist: seq<nat>, lo: int, tailBlock: int, blocks: seq<Block>, blocks': seq<Block>)
    requires Circle(hist, lo, tailBlock, blocks)
    requires |blocks'| == |blocks| && forall b | 0 <= b < |blocks| :: blocks'[b].next == blocks[b].next
    ensures Circle(hist, lo, tailBlock, blocks')
  {
  }

  lemma WriteElemInv(s: State)
    requires Inv(s) && s.prod.WriteElem?
    ensures Inv(WriteElemStep(s))
  {
    hide Looks, Live, Rings, C.Claims, Circle, Out, AtSlot;
    var s' := WriteElemStep(s);
    CircleParts(s.hist, Oldest(s), s.tailBlock, s.blocks);
    CircleElems(s.hist, Oldest(s), s.tailBlock, s.blocks, s'.blocks);
    LiveWrite(s.hist, Oldest(s), s.tailBlock, s.blocks, s.items, s.out, s.prod.x);
  }

  lemma LooksTail(c: C.State, look: seq<LookPc>, headers: seq<Header>, spans: seq<Span>, hist: seq<nat>, items: seq<int>, x: int)
    requires Looks(c, look, headers, spans, hist, items)
    ensures Looks(C.Step(c, C.Enqueue), look, headers, spans, hist, items + [x])
  {
    forall t | 0 <= t < |look| ensures LookInv(look[t], c.pcs[t], headers, spans, hist, items + [x]) {
      assert LookInv(look[t], c.pcs[t], headers, spans, hist, items);
    }
  }

  lemma OutTail(c: C.State, items: seq<int>, out: map<nat, int>, from: int, x: int)
    requires Out(c, items, out, from) && C.Claims(c)
    ensures Out(C.Step(c, C.Enqueue), items + [x], out, from) && C.Claims(C.Step(c, C.Enqueue))
  {
  }

  lemma IndexTail(s: State)
    requires Sized(s) && IndexInv(s) && s.prod.WriteTail?
    ensures var s' := WriteTailStep(s); Sized(s') && IndexInv(s')
  {
    hide Rings, AtSlot;
  }

  lemma WriteTailInv(s: State)
    requires Inv(s) && s.prod.WriteTail?
    ensures Inv(WriteTailStep(s))
  {
    hide Looks, Live, Rings, Circle, AtSlot, Out, C.Claims, IndexInv;
    var s' := WriteTailStep(s);
    assert Written(s') == Written(s);
    IndexTail(s);
    OutTail(s.c, s.items, s.out, Oldest(s) * BLOCK_SIZE, s.prod.x);
    LooksTail(s.c, s.look, s.headers, s.spans, s.hist, s.items, s.prod.x);
  }

  // ---------- the consumers ----------

  lemma LiveFlag(hist: seq<nat>, lo: nat, tailBlock: int, blocks: seq<Block>, items: seq<int>, out: map<nat, int>, i: nat, v: int)
    requires Live(hist, lo, blocks, items, out) && Circle(hist, lo, tailBlock, blocks)
    requires lo <= i / BLOCK_SIZE < |hist|
    requires forall b | 0 <= b < |blocks| :: |blocks[b].empty| == BLOCK_SIZE
    ensures var b := hist[i / BLOCK_SIZE];
            Live(hist, lo, blocks[b := blocks[b].(empty := blocks[b].empty[FlagAt(i) := true])], items, out[i := v])
  {
    var b := hist[i / BLOCK_SIZE];
    var blocks' := blocks[b := blocks[b].(empty := blocks[b].empty[FlagAt(i) := true])];
    forall k {:trigger blocks'[hist[k]]} | lo <= k < |hist|
      ensures BlockFlags(blocks'[hist[k]], k, out[i := v]) && BlockElems(blocks'[hist[k]], k, items)
    {
      assert BlockFlags(blocks[hist[k]], k, out) && BlockElems(blocks[hist[k]], k, items);
    }
  }

  /** Handing over element i, which consumer t had claimed. */
  lemma OutDeliver(c: C.State, items: seq<int>, out: map<nat, int>, from: int, t: nat)
    requires Out(c, items, out, from) && C.Claims(c) && |items| == c.tail
    requires t < |c.pcs| && c.pcs[t].Claimed?
    ensures var i := c.pcs[t].index;
            Out(C.Step(c, C.Go(t)), items, out[i := items[i]], from) && C.Claims(C.Step(c, C.Go(t)))
  {
  }

  /** A step of the counter protocol by a consumer that holds no element. */
  lemma OutCount(c: C.State, items: seq<int>, out: map<nat, int>, from: int, e: C.Event)
    requires Out(c, items, out, from) && C.Claims(c)
    requires e.CallDequeue? || (e.Go? && e.t < |c.pcs| && !c.pcs[e.t].Claimed?)
    ensures Out(C.Step(c, e), items, out, from)
  {
    hide C.Step;
    ClaimStep(c, e);
  }

  /** What such a step does to the claims. */
  lemma ClaimStep(c: C.State, e: C.Event)
    requires e.CallDequeue? || (e.Go? && e.t < |c.pcs| && !c.pcs[e.t].Claimed?)
    ensures var c' := C.Step(c, e); |c'.pcs| == |c.pcs|
    ensures var c' := C.Step(c, e);
            if e.Go? && c.pcs[e.t].BumpHead? then
              c'.head == c.head + 1 && c'.claimants == c.claimants + [e.t] && c'.pcs == c.pcs[e.t := C.Claimed(c.head)]
            else
              && c'.head == c.head && c'.claimants == c.claimants
              && forall u | 0 <= u < |c.pcs| && (c.pcs[u].Claimed? || c'.pcs[u].Claimed?) :: c'.pcs[u] == c.pcs[u]
  {
  }

  lemma LooksCount(c: C.State, e: C.Event, look: seq<LookPc>, headers: seq<Header>, spans: seq<Span>, hist: seq<nat>, items: seq<int>)
    requires Looks(c, look, headers, spans, hist, items)
    requires e.CallDequeue? || (e.Go? && e.t < |c.pcs| && !c.pcs[e.t].Claimed?)
    ensures Looks(C.Step(c, e), look, headers, spans, hist, items)
  {
    var c' := C.Step(c, e);
    forall t | 0 <= t < |look| ensures LookInv(look[t], c'.pcs[t], headers, spans, hist, items) {
      assert LookInv(look[t], c.pcs[t], headers, spans, hist, items);
    }
  }

  lemma CountFrame(c: C.State, e: C.Event)
    requires e.CallDequeue? || e.Go?
    ensures C.Step(c, e).tail == c.tail && |C.Step(c, e).pcs| == |c.pcs|
  {
  }

  lemma CountInv(s: State, e: C.Event)
    requires Inv(s) && C.Claims(C.Step(s.c, e))
    requires e.CallDequeue? || (e.Go? && e.t < |s.c.pcs| && !s.c.pcs[e.t].Claimed?)
    ensures Inv(s.(c := C.Step(s.c, e)))
  {
    hide Looks, Live, Rings, C.Claims, AtSlot, Circle, Out, C.Step;
    CountFrame(s.c, e);
    OutCount(s.c, s.items, s.out, Oldest(s) * BLOCK_SIZE + (if s.prod.ReuseNext? then BLOCK_SIZE else 0), e);
    LooksCount(s.c, e, s.look, s.headers, s.spans, s.hist, s.items);
  }

  /** The claimed index belongs to a run that is still in the circle and whose entry is published. */
  lemma ClaimedRun(s: State, t: nat)
    requires Inv(s) && t < |s.look| && s.c.pcs[t].Claimed?
    ensures Oldest(s) <= s.c.pcs[t].index / BLOCK_SIZE < Published(s)
    ensures s.c.pcs[t].index < s.c.head <= |s.items| && s.c.pcs[t].index !in s.out
  {
    hide Looks, Live, Rings, AtSlot, Circle;
    OutBelow(s.c, s.items, s.out, Oldest(s) * BLOCK_SIZE + (if s.prod.ReuseNext? then BLOCK_SIZE else 0));
    ClaimedFrom(s.c, s.items, s.out, Oldest(s), t);
  }

  /** The slot a consumer computes, from whichever published run m it saw at the front, is the slot of its own run. */
  lemma LookupFinds(h: Header, span: Span, hist: seq<nat>, i: nat, f: int, m: nat)
    requires Ring(h, span, hist) && LooksAt(h, span, f, m, i / BLOCK_SIZE)
    ensures 0 <= f < |h.entries|
    ensures h.entries[LookupSlot(i, f, m * BLOCK_SIZE, |h.entries|)]
         == Entry(i / BLOCK_SIZE * BLOCK_SIZE, hist[i / BLOCK_SIZE])
  {
    var k := i / BLOCK_SIZE;
    assert i - i % BLOCK_SIZE == k * BLOCK_SIZE;
    assert (k * BLOCK_SIZE - m * BLOCK_SIZE) / BLOCK_SIZE == k - m;
    SlotShift(m - span.off, k - m, |h.entries|);
    assert h.entries[Slot(k - span.off, |h.entries|)] == Entry(k * BLOCK_SIZE, hist[k]);
  }

  lemma FrontRead(h: Header, span: Span, hist: seq<nat>, k: nat)
    requires Ring(h, span, hist) && span.lo <= k < span.hi
    ensures LooksAt(h, span, h.front, span.hi - 1, k)
  {
  }

  lemma BaseRead(h: Header, span: Span, hist: seq<nat>, f: int, m: nat, k: nat)
    requires Ring(h, span, hist) && LooksAt(h, span, f, m, k)
    ensures h.entries[f].base == m * BLOCK_SIZE && k < |hist|
  {
    assert h.entries[Slot(m - span.off, |h.entries|)] == Entry(m * BLOCK_SIZE, hist[m]);
  }

  lemma ElemRead(hist: seq<nat>, lo: nat, blocks: seq<Block>, items: seq<int>, out: map<nat, int>, i: nat)
    requires Live(hist, lo, blocks, items, out) && i < |items|
    requires lo <= i / BLOCK_SIZE < |hist| && hist[i / BLOCK_SIZE] < |blocks|
    requires |blocks[hist[i / BLOCK_SIZE]].elems| == BLOCK_SIZE
    ensures blocks[hist[i / BLOCK_SIZE]].elems[i % BLOCK_SIZE] == items[i]
  {
    var k := i / BLOCK_SIZE;
    assert BlockElems(blocks[hist[k]], k, items);
    assert i == k * BLOCK_SIZE + i % BLOCK_SIZE;
  }

  /** Each read of a lookup is right. */
  lemma ReadLook(s: State, t: nat)
    requires Inv(s) && t < |s.look| && s.c.pcs[t].Claimed? && !s.look[t].SetEmpty?
    ensures var s' := LookStep(s, t);
            s' == Look(s, t, s'.look[t]) && Looking(s'.look[t], s.c.pcs[t].index, s.headers, s.spans, s.hist, s.items)
  {
    hide C.Claims, AtSlot, Out, Ring, LooksAt, Circle, Live;
    var i := s.c.pcs[t].index;
    var k := i / BLOCK_SIZE;
    ClaimedRun(s, t);
    assert LookInv(s.look[t], s.c.pcs[t], s.headers, s.spans, s.hist, s.items);
    match s.look[t]
    case Before =>
    case LoadFront(h) => FrontRead(s.headers[h], s.spans[h], s.hist, k);
    case LoadBase(h, f, m) => BaseRead(s.headers[h], s.spans[h], s.hist, f, m, k);
    case LoadBlock(h, f, base, m) =>
      BaseRead(s.headers[h], s.spans[h], s.hist, f, m, k);
      LookupFinds(s.headers[h], s.spans[h], s.hist, i, f, m);
    case LoadElem(b) =>
      CircleParts(s.hist, Oldest(s), s.tailBlock, s.blocks);
      ElemRead(s.hist, Oldest(s), s.blocks, Written(s), s.out, i);
  }

  lemma FlagClear(hist: seq<nat>, lo: nat, blocks: seq<Block>, items: seq<int>, out: map<nat, int>, i: nat)
    requires Live(hist, lo, blocks, items, out) && i !in out
    requires lo <= i / BLOCK_SIZE < |hist| && hist[i / BLOCK_SIZE] < |blocks|
    requires |blocks[hist[i / BLOCK_SIZE]].empty| == BLOCK_SIZE
    ensures !blocks[hist[i / BLOCK_SIZE]].empty[FlagAt(i)]
  {
    var k := i / BLOCK_SIZE;
    assert BlockFlags(blocks[hist[k]], k, out);
    assert i == k * BLOCK_SIZE + (BLOCK_SIZE - 1 - FlagAt(i));
  }

  /** The last operation of a dequeue: the value read is the element of the index, and its flag was still clear. */
  lemma SetEmptyInv(s: State, t: nat)
    requires Inv(s) && t < |s.look| && s.c.pcs[t].Claimed? && s.look[t].SetEmpty?
    ensures Inv(LookStep(s, t))
    ensures var i, b, v := s.c.pcs[t].index, s.look[t].b, s.look[t].v;
            b < |s.blocks| && !s.blocks[b].empty[FlagAt(i)] && i < |s.items| && v == s.items[i]
  {
    hide C.Claims, AtSlot, Out, Rings, Circle, Live;
    var s' := LookStep(s, t);
    var i, b := s.c.pcs[t].index, s.look[t].b;
    assert LookInv(s.look[t], s.c.pcs[t], s.headers, s.spans, s.hist, s.items);
    ClaimedRun(s, t);
    CircleParts(s.hist, Oldest(s), s.tailBlock, s.blocks);
    LiveFlag(s.hist, Oldest(s), s.tailBlock, s.blocks, Written(s), s.out, i, s.items[i]);
    FlagClear(s.hist, Oldest(s), s.blocks, Written(s), s.out, i);
    CircleElems(s.hist, Oldest(s), s.tailBlock, s.blocks, s'.blocks);
    OutDeliver(s.c, s.items, s.out, Oldest(s) * BLOCK_SIZE + (if s.prod.ReuseNext? then BLOCK_SIZE else 0), t);
    CountFrame(s.c, C.Go(t));
  }

  lemma ReadInv(s: State, t: nat)
    requires Inv(s) && t < |s.look| && s.c.pcs[t].Claimed? && !s.look[t].SetEmpty?
    ensures Inv(LookStep(s, t))
  {
    hide C.Claims, AtSlot, Out, Rings, Circle, Live, LookStep, Looking;
    ReadLook(s, t);
  }

  lemma ProduceInv(s: State)
    requires Inv(s)
    ensures Inv(ProduceStep(s))
  {
    hide Inv;
    match s.prod
    case ProdIdle =>
    case CheckNext(_) => CheckInv(s);
    case ReuseNext(_) => ReuseInv(s);
    case MakeRoom(_) => RoomInv(s);
    case NeedBlock(_) =>
    case WriteBase(_) => WriteIndexInv(s);
    case WriteBlock(_) => WriteIndexInv(s);
    case WriteFront(_) => WriteIndexInv(s);
    case WriteElem(_) => WriteElemInv(s);
    case WriteTail(_) => WriteTailInv(s);
  }

  lemma RequisitionFailsInv(s: State)
    requires Inv(s) && s.prod.NeedBlock?
    ensures Inv(s.(prod := ProdIdle))
  {
    hide Circle, Rings, Looks, Live, C.Claims, AtSlot, Out;
    ProdOnlyInv(s, ProdIdle);
  }

  /** Which step of the counter protocol an event is, if any. */
  function CounterSteps(s: State, e: Event): seq<C.Event> {
    match e
    case CallDequeue(t) => [C.CallDequeue(t)]
    case Consume(t) =>
      if t >= |s.look| || t >= |s.c.pcs| then []
      else if s.c.pcs[t].Claimed? && !s.look[t].SetEmpty? then []
      else [C.Go(t)]
    case Produce => if s.prod.WriteTail? then [C.Enqueue] else []
    case _ => []
  }

  /** Every event is at most one step of the counter protocol. */
  lemma Counts(s: State, e: Event)
    requires Sized(s)
    ensures var s' := Step(s, e);
            var cs := CounterSteps(s, e);
            s'.c == s.c || (|cs| == 1 && s'.c == C.Step(s.c, cs[0]))
  {
  }

  lemma StepInv(s: State, e: Event)
    requires Inv(s) && C.Inv(s.c)
    ensures Inv(Step(s, e)) && C.Inv(Step(s, e).c)
  {
    hide Inv, C.Inv, C.Claims;
    assert Sized(s) by { InvSized(s); }
    Counts(s, e);
    var cs := CounterSteps(s, e);
    if |cs| == 1 {
      C.StepInv(s.c, cs[0]);
      C.ClaimsInv(C.Step(s.c, cs[0]));
    }
    match e
    case Enqueue(x) => if s.prod.ProdIdle? { StartEnqueueInv(s, x); }
    case Produce => ProduceInv(s);
    case Requisition(b) => if s.prod.NeedBlock? && Spare(s, b) { LinkInv(s, b); }
    case RequisitionFails => if s.prod.NeedBlock? { RequisitionFailsInv(s); }
    case CallDequeue(t) => CountInv(s, C.CallDequeue(t));
    case Consume(t) =>
      if t < |s.look| {
        if !s.c.pcs[t].Claimed? { CountInv(s, C.Go(t)); }
        else if s.look[t].SetEmpty? { SetEmptyInv(s, t); }
        else { ReadInv(s, t); }
      }
  }

  lemma InvSized(s: State)
    requires Inv(s)
    ensures Sized(s)
  {
  }

  /** The state after a whole trace of events. */
  ghost function Reached(threads: nat, blocks: nat, logSize: nat, trace: seq<Event>): (r: State)
    ensures Inv(r) && C.Inv(r.c)
    decreases |trace|
  {
    if trace == [] then
      InitInv(threads, blocks, logSize);
      C.InitInv(threads);
      Init(threads, blocks, logSize)
    else
      var before := Reached(threads, blocks, logSize, trace[..|trace| - 1]);
      StepInv(before, trace[|trace| - 1]);
      Step(before, trace[|trace| - 1])
  }

  // ---------- what holds in every run ----------

  /** The arithmetic of the lookup leads from index i through the current ring to the block that holds its element, not yet marked empty. */
  predicate FindsElement(s: State, i: nat)
    requires |s.headers| > 0 && i < |s.items|
  {
    var h := s.headers[Current(s)];
    && 0 <= h.front < |h.entries|
    && var e := h.entries[LookupSlot(i, h.front, h.entries[h.front].base, |h.entries|)];
       && i / BLOCK_SIZE < |s.hist|
       && e == Entry(i - i % BLOCK_SIZE, s.hist[i / BLOCK_SIZE])
       && e.block < |s.blocks|
       && var b := s.blocks[e.block];
          && |b.elems| == |b.empty| == BLOCK_SIZE
          && b.elems[i % BLOCK_SIZE] == s.items[i]
          && !b.empty[FlagAt(i)]
  }

  lemma UndeliveredLookup(s: State, i: nat)
    requires Inv(s) && i < |s.items| && i !in s.out
    ensures FindsElement(s, i)
  {
    hide Looks, Live, C.Claims, AtSlot, Circle, Out, LooksAt, Ring, LookupSlot;
    var cur, k := Current(s), i / BLOCK_SIZE;
    var span := s.spans[cur];
    OutUndelivered(s.c, s.items, s.out, Oldest(s) * BLOCK_SIZE + (if s.prod.ReuseNext? then BLOCK_SIZE else 0), i);
    FrontRead(s.headers[cur], span, s.hist, k);
    BaseRead(s.headers[cur], span, s.hist, s.headers[cur].front, span.hi - 1, k);
    LookupFinds(s.headers[cur], span, s.hist, i, s.headers[cur].front, span.hi - 1);
    CircleParts(s.hist, Oldest(s), s.tailBlock, s.blocks);
    ElemRead(s.hist, Oldest(s), s.blocks, Written(s), s.out, i);
    FlagClear(s.hist, Oldest(s), s.blocks, Written(s), s.out, i);
  }

  /** In every reachable state every published index that has not been delivered is found through the current ring. */
  lemma LookupFindsElement(threads: nat, blocks: nat, logSize: nat, trace: seq<Event>)
    ensures var s := Reached(threads, blocks, logSize, trace);
            |s.headers| > 0 && forall i: nat | i < |s.items| && i !in s.out :: FindsElement(s, i)
  {
    hide FindsElement;
    var s := Reached(threads, blocks, logSize, trace);
    forall i: nat | i < |s.items| && i !in s.out ensures FindsElement(s, i) {
      UndeliveredLookup(s, i);
    }
  }

  lemma OutUndelivered(c: C.State, items: seq<int>, out: map<nat, int>, from: int, i: nat)
    requires Out(c, items, out, from) && i !in out
    ensures from <= i
  {
  }

  /**
   In every reachable state what has been delivered for an index is the element
   enqueued there; a consumer that holds an index finds it undelivered, and an index
   below the head that is undelivered is in the hands of its claimant. Once no
   consumer is inside `dequeue`, exactly the indices below the head have been
   delivered: nothing lost, nothing delivered twice.
   */
  lemma DeliversTheQueue(threads: nat, blocks: nat, logSize: nat, trace: seq<Event>)
    ensures var s := Reached(threads, blocks, logSize, trace);
            && s.c.head <= |s.items|
            && (forall i <- s.out :: i < s.c.head && s.out[i] == s.items[i])
            && (forall t | 0 <= t < |s.c.pcs| && s.c.pcs[t].Claimed? :: s.c.pcs[t].index !in s.out)
            && (forall i: nat | i < s.c.head && i !in s.out ::
                  i < |s.c.claimants| && s.c.claimants[i] < |s.c.pcs| && s.c.pcs[s.c.claimants[i]] == C.Claimed(i))
            && ((forall t | 0 <= t < |s.c.pcs| :: s.c.pcs[t].Idle?) ==> forall i: nat :: i in s.out <==> i < s.c.head)
  {
    var s := Reached(threads, blocks, logSize, trace);
    hide Looks, Live, Rings, AtSlot, Circle;
    assert Out(s.c, s.items, s.out, Oldest(s) * BLOCK_SIZE + (if s.prod.ReuseNext? then BLOCK_SIZE else 0));
    assert C.Claims(s.c);
  }

  /** The value consumer t is about to return is the element of the index it claimed, and the flag it sets is clear. */
  predicate ReturnsRight(s: State, t: nat)
    requires Sized(s) && t < |s.look| && s.c.pcs[t].Claimed? && s.look[t].SetEmpty?
  {
    var i, b := s.c.pcs[t].index, s.look[t].b;
    && i < |s.items| && s.look[t].v == s.items[i]
    && b < |s.blocks| && !s.blocks[b].empty[FlagAt(i)]
  }

  /** Whatever the interleaving, a dequeue returns the element of the index it claimed; the source's own assertion on the flag holds. */
  lemma ReturnsItsElement(threads: nat, blocks: nat, logSize: nat, trace: seq<Event>)
    ensures var s := Reached(threads, blocks, logSize, trace);
            Sized(s) && forall t: nat | t < |s.look| && s.c.pcs[t].Claimed? && s.look[t].SetEmpty? :: ReturnsRight(s, t)
  {
    var s := Reached(threads, blocks, logSize, trace);
    InvSized(s);
    forall t: nat | t < |s.look| && s.c.pcs[t].Claimed? && s.look[t].SetEmpty? ensures ReturnsRight(s, t) {
      SetEmptyInv(s, t);
    }
  }

  /** `new_block_index`: the used slots of the full ring, oldest first, at the start of a ring of twice the size. */
  method NewBlockIndex(entries: array<Entry>, front: nat, used: nat) returns (newEntries: array<Entry>, newFront: nat)
    requires entries.Length > 0 && front < entries.Length
    requires used == 0 || used == entries.Length
    ensures fresh(newEntries)
    ensures newEntries.Length == 2 * entries.Length && newFront == used
    ensures newEntries[..] == Doubled(entries[..], front, used)
  {
    newEntries := new Entry[2 * entries.Length](_ => Entry(0, 0));
    var j := 0;
    if used != 0 {
      var i := Slot(front - used, entries.Length);
      while true
        invariant 0 <= j < used
        invariant i == Slot(front - used + j, entries.Length)
        invariant forall m | 0 <= m < j :: newEntries[m] == entries[Slot(front - used + m, entries.Length)]
        invariant forall m | j <= m < newEntries.Length :: newEntries[m] == Entry(0, 0)
        decreases used - j
      {
        newEntries[j] := entries[i];
        SlotShift(front - used + j, 1, entries.Length);
        j := j + 1;
        i := Slot(i + 1, entries.Length);
        SlotTurn(front - used, entries.Length);
        if i == front { break; }
      }
      if j < used { SlotDistinct(front - used + j, front, entries.Length); }
    }
    newFront := j;
  }
}
