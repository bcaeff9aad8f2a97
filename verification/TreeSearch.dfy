/**
 Searching by key, and the height of a balanced tree.
 */
module TreeSearch {
  import opened TreeShapes
  import opened Powers

  /** The node the key comparisons lead to. */
  ghost function Hit(t: Shape, v: int): Node? {
    if t.Leaf? then null
    else if t.node.value == v then t.node
    else if t.node.value > v then Hit(t.left, v)
    else Hit(t.right, v)
  }

  lemma SortedParts(t: Shape)
    requires t.Tree? && Sorted(Inorder(t))
    ensures Sorted(Inorder(t.left)) && Sorted(Inorder(t.right))
    ensures forall n <- Inorder(t.left) :: n.value <= t.node.value
    ensures forall n <- Inorder(t.right) :: t.node.value <= n.value
  {
    var s, a, b := Inorder(t), Inorder(t.left), Inorder(t.right);
    assert forall i | 0 <= i < |a| :: s[i] == a[i];
    assert forall i | 0 <= i < |b| :: s[|a| + 1 + i] == b[i];
    assert s[|a|] == t.node;
  }

  /** Search finds a node with the key whenever there is one, even among equal keys on both sides. */
  lemma {:induction false} HitExists(t: Shape, v: int)
    requires Sorted(Inorder(t))
    ensures Hit(t, v) != null ==> Hit(t, v) in Inorder(t) && Hit(t, v).value == v
    ensures Hit(t, v) == null ==> forall n <- Inorder(t) :: n.value != v
  {
    if t.Tree? {
      SortedParts(t);
      HitExists(t.left, v);
      HitExists(t.right, v);
    }
  }

  lemma HitNode(t: Shape, v: int)
    requires Sorted(Inorder(t))
    ensures Hit(t, v) != null ==> Hit(t, v) in Nodes(t)
  {
    HitExists(t, v);
    if Hit(t, v) != null { InorderNodes(t, Hit(t, v)); }
  }

  /** The number of nodes on the longest way down. */
  function Height(t: Shape): nat {
    if t.Leaf? then 0 else 1 + if Height(t.left) > Height(t.right) then Height(t.left) else Height(t.right)
  }

  lemma {:induction false} HeightBound(t: Shape, h: int)
    requires Balanced(t, h)
    ensures 0 <= h && Height(t) <= 2 * h + (if ColorOf(t) == Red then 1 else 0)
    ensures Pow2(h) <= |Inorder(t)| + 1
  {
    if t.Tree? {
      var h' := if t.color == Red then h else h - 1;
      HeightBound(t.left, h');
      HeightBound(t.right, h');
    }
  }

  lemma Doubled(x: int, y: int)
    ensures (2 * x) * y == 2 * (x * y)
  {
  }

  lemma {:induction false} PowSum(a: nat, b: nat)
    ensures Pow2(a + b) == Pow2(a) * Pow2(b)
  {
    if a > 0 {
      PowSum(a - 1, b);
      Doubled(Pow2(a - 1), Pow2(b));
    }
  }

  lemma {:induction false} PowMonotone(a: nat, b: nat)
    requires a <= b
    ensures Pow2(a) <= Pow2(b)
  {
    if a < b { PowMonotone(a, b - 1); }
  }

  lemma PowSquare(h: nat, k: nat)
    requires k <= 2 * h
    ensures Pow2(k) <= Pow2(h) * Pow2(h)
  {
    PowMonotone(k, h + h);
    PowSum(h, h);
  }

  lemma SquareMonotone(a: nat, b: nat)
    requires a <= b
    ensures a * a <= b * b
  {
  }

  /** A valid tree of n nodes is at most 2 log2(n + 1) high. */
  lemma LogarithmicHeight(t: Shape, h: int)
    requires Balanced(t, h) && ColorOf(t) == Black
    ensures Pow2(Height(t)) <= (|Inorder(t)| + 1) * (|Inorder(t)| + 1)
  {
    HeightBound(t, h);
    PowSquare(h, Height(t));
    SquareMonotone(Pow2(h), |Inorder(t)| + 1);
  }
}
