/**
 The two stable priority queues of the thread pool: one keeps a deque per score in
 an ordered map, the other in an array indexed by score. Both are proved to be the
 same queue: highest score first, arrival order within a score.
 */
module PriorityQueues {

  datatype Item = Item(score: int, task: int)

  /** The outcome of an operation that fails on an empty queue (a logic_error in the source). */
  datatype Option = None | Some(item: Item)

  // ---------- the queue both implement ----------

  /** Of items in arrival order, the one to go next: the earliest among those with the highest score. */
  function Next(held: seq<Item>): (n: nat)
    requires held != []
    ensures n < |held|
  {
    if |held| == 1 then 0
    else
      var n := Next(held[1..]) + 1;
      if held[n].score > held[0].score then n else 0
  }

  /** Item n has the highest score, and is the earliest with it. */
  predicate Best(held: seq<Item>, n: nat) {
    && n < |held|
    && (forall j | 0 <= j < |held| :: held[j].score <= held[n].score)
    && (forall j | 0 <= j < n :: held[j].score < held[n].score)
  }

  /** These two properties determine the item to go next. */
  lemma {:induction false} NextIsBest(held: seq<Item>)
    requires held != []
    ensures Best(held, Next(held)) && forall n: nat | Best(held, n) :: n == Next(held)
    decreases |held|
  {
    if |held| > 1 {
      var t := held[1..];
      NextIsBest(t);
      assert forall j | 1 <= j < |held| :: held[j] == t[j - 1];
    }
  }

  function Popped(held: seq<Item>): seq<Item>
    requires held != []
  {
    held[..Next(held)] + held[Next(held) + 1..]
  }

  /** The items with one score, in order. */
  function Of(held: seq<Item>, score: int): (r: seq<Item>)
    ensures forall x <- r :: x.score == score
  {
    if held == [] then []
    else Of(held[..|held| - 1], score) + if held[|held| - 1].score == score then [held[|held| - 1]] else []
  }

  lemma {:induction false} OfJoined(a: seq<Item>, b: seq<Item>, score: int)
    ensures Of(a + b, score) == Of(a, score) + Of(b, score)
    decreases |b|
  {
    if b == [] {
      assert a + b == a;
    } else {
      assert (a + b)[..|a + b| - 1] == a + b[..|b| - 1];
      OfJoined(a, b[..|b| - 1], score);
    }
  }

  lemma {:induction false} OfNone(held: seq<Item>, score: int)
    requires forall j | 0 <= j < |held| :: held[j].score != score
    ensures Of(held, score) == []
    decreases |held|
  {
    if held != [] { OfNone(held[..|held| - 1], score); }
  }

  lemma {:induction false} OfEmpty(held: seq<Item>, score: int)
    requires Of(held, score) == []
    ensures forall j | 0 <= j < |held| :: held[j].score != score
    decreases |held|
  {
    if held != [] { OfEmpty(held[..|held| - 1], score); }
  }

  lemma OneOf(x: Item, score: int)
    ensures Of([x], score) == if x.score == score then [x] else []
  {
    assert [x][..0] == [];
  }

  /** The next item is the first of the highest score's items, and popping takes it from there only. */
  lemma PoppedParts(held: seq<Item>, score: int)
    requires held != []
    ensures var best := held[Next(held)];
            if score == best.score then Of(held, score) == [best] + Of(Popped(held), score)
            else Of(Popped(held), score) == Of(held, score)
  {
    hide Of, Next;
    var n := Next(held);
    NextIsBest(held);
    var a, b := held[..n], held[n + 1..];
    Around(held, n);
    OfJoined(a + [held[n]], b, score);
    OfJoined(a, [held[n]], score);
    OfJoined(a, b, score);
    OneOf(held[n], score);
    if score == held[n].score { OfNone(a, score); }
  }

  lemma Around(held: seq<Item>, n: nat)
    requires n < |held|
    ensures held == held[..n] + [held[n]] + held[n + 1..]
  {
  }

  // ---------- operations and their outcomes ----------

  datatype Op = Emplace(item: Item) | Top | Pop | Size | Empty

  datatype Outcome = Done | Front(item: Item) | Count(n: nat) | Is(b: bool) | Failed

  function After(held: seq<Item>, op: Op): seq<Item> {
    match op
    case Emplace(x) => held + [x]
    case Pop => if held == [] then held else Popped(held)
    case _ => held
  }

  function Answer(held: seq<Item>, op: Op): Outcome {
    match op
    case Emplace(_) => Done
    case Top => if held == [] then Failed else Front(held[Next(held)])
    case Pop => if held == [] then Failed else Done
    case Size => Count(|held|)
    case Empty => Is(held == [])
  }

  function Answers(held: seq<Item>, ops: seq<Op>): seq<Outcome>
    decreases |ops|
  {
    if ops == [] then [] else [Answer(held, ops[0])] + Answers(After(held, ops[0]), ops[1..])
  }

  /** The items in the order in which they leave. */
  function Drained(held: seq<Item>): seq<Item>
    decreases |held|
  {
    if held == [] then [] else [held[Next(held)]] + Drained(Popped(held))
  }

  lemma {:induction false} DrainedIsPermuted(held: seq<Item>)
    ensures multiset(Drained(held)) == multiset(held)
    decreases |held|
  {
    hide Next;
    if held != [] {
      DrainedIsPermuted(Popped(held));
      Around(held, Next(held));
    }
  }

  lemma {:induction false} DrainedKeepsOrder(held: seq<Item>, score: int)
    ensures Of(Drained(held), score) == Of(held, score)
    decreases |held|
  {
    hide Next, Of;
    if held != [] {
      var best := held[Next(held)];
      DrainedKeepsOrder(Popped(held), score);
      OfJoined([best], Drained(Popped(held)), score);
      OneOf(best, score);
      PoppedParts(held, score);
    } else {
      OfNone(held, score);
    }
  }

  predicate Descending(s: seq<Item>) { forall i, j | 0 <= i < j < |s| :: s[j].score <= s[i].score }

  lemma {:induction false} DrainedDescends(held: seq<Item>)
    ensures Descending(Drained(held))
    decreases |held|
  {
    hide Next;
    if held != [] {
      var best, d := held[Next(held)], Drained(Popped(held));
      DrainedDescends(Popped(held));
      NextIsBest(held);
      forall i | 0 <= i < |d| ensures d[i].score <= best.score {
        DrainedFrom(held, d[i]);
      }
    }
  }

  lemma DrainedFrom(held: seq<Item>, x: Item)
    requires held != [] && x in Drained(Popped(held))
    ensures x in held
  {
    hide Drained, Next;
    DrainedIsPermuted(Popped(held));
    assert x in multiset(Popped(held));
  }

  /** Draining sorts by score, highest first, and keeps the arrival order within each score: nothing is lost or added. */
  lemma DrainedIsStablySorted(held: seq<Item>)
    ensures Descending(Drained(held))
    ensures forall score: int :: Of(Drained(held), score) == Of(held, score)
    ensures multiset(Drained(held)) == multiset(held)
  {
    hide Of, Drained, Next;
    DrainedDescends(held);
    DrainedIsPermuted(held);
    forall score: int ensures Of(Drained(held), score) == Of(held, score) { DrainedKeepsOrder(held, score); }
  }

  // ---------- a deque per score in an ordered map ----------

  class StablePriorityQueue {
    var size: nat
    var queue: map<int, seq<Item>>
    ghost var held: seq<Item>

    /** Each score present has its items in arrival order; no deque is empty; the counter is exact. */
    ghost predicate Valid()
      reads this
    {
      && size == |held|
      && (forall s: int :: s in queue <==> Of(held, s) != [])
      && (forall s: int | s in queue :: queue[s] == Of(held, s))
    }

    constructor ()
      ensures Valid() && held == []
    {
      size, queue, held := 0, map[], [];
    }

    /** `m_sorted_queue.begin()`: the highest score present. */
    method Begin() returns (s: int)
      requires Valid() && held != []
      ensures s in queue && s == held[Next(held)].score && queue[s] == [held[Next(held)]] + Of(Popped(held), s)
    {
      var best := held[Next(held)];
      NextIsBest(held);
      PoppedParts(held, best.score);
      forall t | t in queue ensures t <= best.score {
        if forall j | 0 <= j < |held| :: held[j].score != t { OfNone(held, t); }
      }
      s :| s in queue && forall t <- queue :: t <= s;
    }

    lemma NoneHeld()
      requires Valid()
      ensures queue == map[] <==> held == []
    {
      if held != [] {
        if Of(held, held[0].score) == [] { OfEmpty(held, held[0].score); }
        assert held[0].score in queue;
      } else {
        assert forall s: int :: s !in queue;
      }
    }

    method Top() returns (r: Option)
      requires Valid()
      ensures r == if held == [] then None else Some(held[Next(held)])
    {
      NoneHeld();
      if queue == map[] {
        return None;
      }
      var s := Begin();
      r := Some(queue[s][0]);
    }

    /** False stands for the exception on an empty queue. */
    method Pop() returns (ok: bool)
      requires Valid()
      modifies this
      ensures Valid() && ok == (old(held) != [])
      ensures held == if old(held) == [] then [] else Popped(old(held))
    {
      hide Of, Next;
      NoneHeld();
      if queue == map[] {
        return false;
      }
      var s := Begin();
      queue := queue[s := queue[s][1..]];
      if queue[s] == [] {
        queue := queue - {s};
      }
      forall t: int ensures t != s ==> Of(Popped(held), t) == Of(held, t) {
        PoppedParts(held, t);
      }
      size := size - 1;
      held := Popped(held);
      ok := true;
    }

    method Emplace(item: Item)
      requires Valid()
      modifies this
      ensures Valid() && held == old(held) + [item]
    {
      if item.score in queue {
        queue := queue[item.score := queue[item.score] + [item]];
      } else {
        queue := queue[item.score := [item]];
      }
      forall t: int ensures Of(held + [item], t) == Of(held, t) + (if item.score == t then [item] else []) {
        OfJoined(held, [item], t);
        OneOf(item, t);
      }
      size := size + 1;
      held := held + [item];
    }
  }

  // ---------- a deque per score in an array ----------

  class StaticStablePriorityQueue {
    var size: nat
    const queue: array<seq<Item>>
    ghost var held: seq<Item>

    ghost predicate Valid()
      reads this, queue
    {
      && size == |held|
      && (forall j | 0 <= j < |held| :: 0 <= held[j].score < queue.Length)
      && (forall s | 0 <= s < queue.Length :: queue[s] == Of(held, s))
    }

    /** `Size` is the template parameter. */
    constructor (n: nat)
      ensures Valid() && held == [] && queue.Length == n && fresh(queue)
    {
      size, held := 0, [];
      queue := new seq<Item>[n](_ => []);
    }

    /** The loop from the highest score down: the first deque that is not empty, or -1. */
    method Highest() returns (s: int)
      requires Valid()
      ensures held == [] ==> s == -1
      ensures held != [] ==> 0 <= s < queue.Length && s == held[Next(held)].score && queue[s] == [held[Next(held)]] + Of(Popped(held), s)
    {
      if held != [] {
        NextIsBest(held);
        PoppedParts(held, held[Next(held)].score);
      }
      s := queue.Length - 1;
      while s >= 0
        invariant -1 <= s < queue.Length
        invariant forall t | s < t < queue.Length :: queue[t] == []
        invariant held != [] ==> held[Next(held)].score <= s
      {
        if queue[s] != [] {
          if held != [] && held[Next(held)].score < s { OfNone(held, s); }
          return;
        }
        s := s - 1;
      }
    }

    method Top() returns (r: Option)
      requires Valid()
      ensures r == if held == [] then None else Some(held[Next(held)])
    {
      var s := Highest();
      r := if s < 0 then None else Some(queue[s][0]);
    }

    method Pop() returns (ok: bool)
      requires Valid()
      modifies this, queue
      ensures Valid() && ok == (old(held) != [])
      ensures held == if old(held) == [] then [] else Popped(old(held))
    {
      var s := Highest();
      if s < 0 {
        return false;
      }
      hide Of, Next;
      forall t: int ensures t != s ==> Of(Popped(held), t) == Of(held, t) {
        PoppedParts(held, t);
      }
      queue[s] := queue[s][1..];
      size := size - 1;
      held := Popped(held);
      ok := true;
    }

    method Emplace(item: Item)
      requires Valid() && 0 <= item.score < queue.Length
      modifies this, queue
      ensures Valid() && held == old(held) + [item]
    {
      forall t: int ensures Of(held + [item], t) == Of(held, t) + (if item.score == t then [item] else []) {
        OfJoined(held, [item], t);
        OneOf(item, t);
      }
      queue[item.score] := queue[item.score] + [item];
      size := size + 1;
      held := held + [item];
    }
  }

  // ---------- the same queue ----------

  /** One operation on the map queue. */
  method DoMap(q: StablePriorityQueue, op: Op) returns (r: Outcome)
    requires q.Valid()
    modifies q
    ensures q.Valid() && q.held == After(old(q.held), op) && r == Answer(old(q.held), op)
  {
    match op
    case Emplace(x) => q.Emplace(x); r := Done;
    case Top => var t := q.Top(); r := if t.None? then Failed else Front(t.item);
    case Pop => var ok := q.Pop(); r := if ok then Done else Failed;
    case Size => r := Count(q.size);
    case Empty => r := Is(q.size == 0);
  }

  /** One operation on the array queue. */
  method DoArray(q: StaticStablePriorityQueue, op: Op) returns (r: Outcome)
    requires q.Valid() && (op.Emplace? ==> 0 <= op.item.score < q.queue.Length)
    modifies q, q.queue
    ensures q.Valid() && q.held == After(old(q.held), op) && r == Answer(old(q.held), op)
  {
    match op
    case Emplace(x) => q.Emplace(x); r := Done;
    case Top => var t := q.Top(); r := if t.None? then Failed else Front(t.item);
    case Pop => var ok := q.Pop(); r := if ok then Done else Failed;
    case Size => r := Count(q.size);
    case Empty => r := Is(q.size == 0);
  }

  /** Over any operations with scores below n the two queues give the same answers, those of the plain queue. */
  method SameAnswers(n: nat, ops: seq<Op>) returns (a: seq<Outcome>, b: seq<Outcome>)
    requires forall i | 0 <= i < |ops| :: ops[i].Emplace? ==> 0 <= ops[i].item.score < n
    ensures a == b == Answers([], ops)
  {
    hide Answer, After, Of, Next, StablePriorityQueue.Valid, StaticStablePriorityQueue.Valid;
    var p := new StablePriorityQueue();
    var q := new StaticStablePriorityQueue(n);
    a, b := [], [];
    var i := 0;
    assert ops[0..] == ops;
    while i < |ops|
      invariant 0 <= i <= |ops| && p.Valid() && q.Valid() && p.held == q.held && q.queue.Length == n
      invariant fresh(p) && fresh(q) && fresh(q.queue)
      invariant a == b && a + Answers(p.held, ops[i..]) == Answers([], ops)
    {
      ghost var held := p.held;
      var x := DoMap(p, ops[i]);
      var y := DoArray(q, ops[i]);
      assert ops[i..][1..] == ops[i + 1..];
      assert a + Answers(held, ops[i..]) == (a + [x]) + Answers(After(held, ops[i]), ops[i + 1..]);
      a, b := a + [x], b + [y];
      i := i + 1;
    }
    assert ops[i..] == [];
  }
}
