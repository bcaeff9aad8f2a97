/** Positions in a circular table whose size is a power of two. */
module RingArithmetic {

  /**
   `i & (size - 1)` for a power of two `size`, on the unbounded index the machine
   word stands for: go round the table until inside it.
   */
  function Slot(i: int, size: nat): (r: nat)
    requires size > 0
    ensures r < size
    decreases if i < 0 then size - i else i
  {
    if i < 0 then Slot(i + size, size) else if i < size then i else Slot(i - size, size)
  }

  /** A whole turn leads back to the same slot. */
  lemma SlotTurn(i: int, size: nat)
    requires size > 0
    ensures Slot(i + size, size) == Slot(i, size)
  {
  }

  /** Two indices less than one turn apart have different slots. */
  lemma {:induction false} SlotDistinct(a: int, b: int, size: nat)
    requires size > 0 && a < b < a + size
    ensures Slot(a, size) != Slot(b, size)
    decreases if a < 0 then size - a else a
  {
    if a < 0 {
      SlotTurn(a, size);
      SlotTurn(b, size);
      SlotDistinct(a + size, b + size, size);
    } else if a >= size {
      SlotTurn(b - size, size);
      SlotDistinct(a - size, b - size, size);
    }
  }

  /** Moving d slots on from the slot of a gives the slot of a + d. */
  lemma {:induction false} SlotShift(a: int, d: int, size: nat)
    requires size > 0
    ensures Slot(Slot(a, size) + d, size) == Slot(a + d, size)
    decreases if a < 0 then size - a else a
  {
    if a < 0 {
      SlotTurn(a + d, size);
      SlotShift(a + size, d, size);
    } else if a >= size {
      SlotTurn(a - size + d, size);
      SlotShift(a - size, d, size);
    }
  }
}
