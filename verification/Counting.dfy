/**
 Sums over the threads of a step machine. A machine keeps one entry per thread
 in a sequence; a step rewrites one entry; what a step does to a count over all
 threads is then the difference made by that one entry.
 */
module Counting {

  function Sum<T>(ts: seq<T>, f: T -> int): int {
    if |ts| == 0 then 0 else Sum(ts[..|ts| - 1], f) + f(ts[|ts| - 1])
  }

  lemma {:induction false} SumUpdate<T>(ts: seq<T>, i: nat, v: T, f: T -> int)
    requires i < |ts|
    ensures Sum(ts[i := v], f) == Sum(ts, f) - f(ts[i]) + f(v)
  {
    var last := |ts| - 1;
    if i == last {
      assert ts[i := v][..last] == ts[..last];
    } else {
      assert ts[i := v][..last] == ts[..last][i := v];
      SumUpdate(ts[..last], i, v, f);
    }
  }

  /** A sum of natural terms is at least each of its terms. */
  lemma {:induction false} SumAtLeast<T>(ts: seq<T>, i: nat, f: T -> int)
    requires i < |ts|
    requires forall t <- ts :: 0 <= f(t)
    ensures f(ts[i]) <= Sum(ts, f)
  {
    var last := |ts| - 1;
    SumBounds(ts[..last], f, 0);
    if i < last {
      SumAtLeast(ts[..last], i, f);
    }
  }

  /** Terms between 0 and c add up to something between 0 and c times their number. */
  lemma {:induction false} SumBounds<T>(ts: seq<T>, f: T -> int, c: nat)
    requires forall t <- ts :: 0 <= f(t)
    ensures 0 <= Sum(ts, f)
    ensures (forall t <- ts :: f(t) <= c) ==> Sum(ts, f) <= c * |ts|
    ensures (forall t <- ts :: f(t) == 0) ==> Sum(ts, f) == 0
  {
    if |ts| > 0 {
      SumBounds(ts[..|ts| - 1], f, c);
    }
  }
}
