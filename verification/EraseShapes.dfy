/**
 What each case of `erase_fixup` does to the tree around a subtree that is one
 black node short: value-level lemmas, one per case, that the heap code's loop
 relies on.
 */
module EraseShapes {
  import opened TreeShapes
  import opened InsertShapes

  /** The focus lacks one black node: its surroundings want black height h + 1. */
  predicate Deficit(t: Shape, c: Path, h: int) {
    Short(t, h) && Fits(c, h + 1, Black) && BlackTop(c)
  }

  /** Painting the focus black makes the whole tree valid. */
  predicate Mended(t: Shape, c: Path, h: int) {
    Balanced(Recolored(t, Black), h) && Fits(c, h, Black) && BlackTop(c)
  }

  /** The loop is left at a red node or at the root. */
  lemma Settled(t: Shape, c: Path, h: int)
    requires Deficit(t, c, h) && (ColorOf(t) == Red || c.Top?)
    ensures Mended(t, c, if ColorOf(t) == Red then h + 1 else h)
  {
  }

  /** A missing or black focus below the root: what the loop reads around it. */
  lemma Near(m: Memory, root: Node?, t: Shape, c: Path, h: int)
    requires At(m, root, t, c) && Deficit(t, c, h) && ColorOf(t) == Black && !c.Top?
    ensures var s := Sibling(c);
            && s.Tree? && (s.color == Red ==> c.color == Black && s.left.Tree? && s.right.Tree?)
            && c.node in m && m[c.node].parent == Above(c.up) && m[c.node].color == c.color
            && (m[c.node].left == Ptr(t) <==> c.LeftOf?)
            && s.node == (if c.LeftOf? then m[c.node].right else m[c.node].left)
            && s.node in m && m[s.node] == Cell(c.node, Ptr(s.left), Ptr(s.right), s.color)
            && (s.left.Tree? ==> s.left.node in m && m[s.left.node].color == s.left.color)
            && (s.right.Tree? ==> s.right.node in m && m[s.right.node].color == s.right.color)
  {
    var s := Sibling(c);
    BalancedHeight(t, h);
    assert Balanced(s, h + 1);
    if s.color == Red {
      BalancedHeight(s.left, h + 1);
      BalancedHeight(s.right, h + 1);
    }
    Site(m, root, t, c);
    assert Rep(m, s, c.node) && Rep(m, s.left, s.node) && Rep(m, s.right, s.node);
    MoveUp(m, root, t, c);
    Site(m, root, Joined(t, c), c.up);
    RootInNodes(t);
    RootInNodes(s);
  }

  lemma {:induction false} FitsBlack(c: Path, h: int)
    requires Fits(c, h, Red)
    ensures Fits(c, h, Black)
  {
  }

  /** How far the loop still has to go: up the path, an extra turn for a red sibling or an inner red nephew. */
  function Distance(t: Shape, c: Path): nat {
    if ColorOf(t) == Red || c.Top? then 0 else Depth(c) + if c.color == Red then 0 else 1
  }

  ghost function Turns(c: Path): nat {
    if c.Top? then 0 else
    var s := Sibling(c);
    if ColorOf(s) == Red then 2
    else if s.Tree? && ColorOf(if c.LeftOf? then s.right else s.left) == Black then 1
    else 0
  }

  // ---------- case 1: a red sibling ----------

  /** The surroundings of the focus after parent and red sibling have swapped colours and places. */
  ghost function SwappedUp(c: Path): Path
    requires !c.Top? && Sibling(c).Tree?
  {
    match c
    case LeftOf(p, _, s, up) => LeftOf(p, Red, s.left, LeftOf(s.node, Black, s.right, up))
    case RightOf(s, p, _, up) => RightOf(s.right, p, Red, RightOf(s.left, s.node, Black, up))
  }

  /** The parent's subtree just before its rotation. */
  ghost function SwappedColours(t: Shape, c: Path): Shape
    requires !c.Top? && Sibling(c).Tree?
  {
    match c
    case LeftOf(p, _, s, up) => Tree(t, p, Red, s.(color := Black))
    case RightOf(s, p, _, up) => Tree(s.(color := Black), p, Red, t)
  }

  lemma SwapPaint(m: Memory, root: Node?, t: Shape, c: Path)
    requires At(m, root, t, c) && !c.Top? && Sibling(c).Tree?
    ensures At(Painted(Painted(m, Sibling(c).node, Black), c.node, Red), root, SwappedColours(t, c), c.up)
  {
    hide At;
    MoveUp(m, root, t, c);
    var j, s := Joined(t, c), Sibling(c);
    var m1 := Painted(m, s.node, Black);
    if c.LeftOf? {
      PaintRight(m, root, j, c.up, Black);
      PaintRoot(m1, root, j.(right := s.(color := Black)), c.up, Red);
    } else {
      PaintLeft(m, root, j, c.up, Black);
      PaintRoot(m1, root, j.(left := s.(color := Black)), c.up, Red);
    }
  }

  lemma SwapCase(m: Memory, root: Node?, t: Shape, c: Path, h: int, r: Shape)
    requires Deficit(t, c, h) && ColorOf(t) == Black && !c.Top? && ColorOf(Sibling(c)) == Red
    requires r == if c.LeftOf? then RotateLeft(SwappedColours(t, c)) else RotateRight(SwappedColours(t, c))
    requires At(m, root, r, c.up)
    ensures var k := SwappedUp(c);
            && At(m, root, t, k) && Deficit(t, k, h) && All(t, k) == All(t, c)
            && Above(k) == c.node && Distance(t, k) == Distance(t, c) && Turns(k) < Turns(c)
  {
    hide At;
    var s, k := Sibling(c), SwappedUp(c);
    BalancedHeight(t, h);
    BalancedHeight(s.left, h + 1);
    BalancedHeight(s.right, h + 1);
    AllJoined(t, k);
    AllJoined(Joined(t, k), k.up);
    AllJoined(t, c);
    assert Joined(Joined(t, k), k.up) == r;
    if c.LeftOf? {
      RotateLeftInorder(SwappedColours(t, c));
      MoveLeft(m, root, r, c.up);
      MoveLeft(m, root, r.left, k.up);
    } else {
      RotateRightInorder(SwappedColours(t, c));
      MoveRight(m, root, r, c.up);
      MoveRight(m, root, r.right, k.up);
    }
    assert c.color == Black && Balanced(s.left, h + 1) && Balanced(s.right, h + 1) && Fits(c.up, h + 2, Black);
    assert Fits(k.up, h + 1, Red) && BlackTop(k.up);
    assert Depth(k) == 1 + Depth(k.up) == 2 + Depth(c.up);
  }

  // ---------- case 2: no red nephew ----------

  ghost function HandedUp(t: Shape, c: Path): Shape
    requires !c.Top?
  {
    match c
    case LeftOf(p, k, s, _) => Tree(t, p, k, Recolored(s, Red))
    case RightOf(s, p, k, _) => Tree(Recolored(s, Red), p, k, t)
  }

  lemma HandUpCase(m: Memory, root: Node?, t: Shape, c: Path, h: int) returns (h': int)
    requires At(m, root, t, c) && Deficit(t, c, h) && ColorOf(t) == Black && !c.Top?
    requires Sibling(c).Tree? && Sibling(c).color == Black
    requires ColorOf(Sibling(c).left) == Black && ColorOf(Sibling(c).right) == Black
    ensures At(Painted(m, Sibling(c).node, Red), root, HandedUp(t, c), c.up)
    ensures Deficit(HandedUp(t, c), c.up, h') && All(HandedUp(t, c), c.up) == All(t, c)
    ensures Distance(HandedUp(t, c), c.up) < Distance(t, c) && Ptr(HandedUp(t, c)) == c.node
  {
    hide At;
    var s := Sibling(c);
    MoveUp(m, root, t, c);
    if c.LeftOf? {
      PaintRight(m, root, Joined(t, c), c.up, Red);
    } else {
      PaintLeft(m, root, Joined(t, c), c.up, Red);
    }
    AllJoined(t, c);
    assert Inorder(Recolored(s, Red)) == Inorder(s);
    assert Balanced(Recolored(s, Red), h);
    if c.color == Red {
      h' := h;
      FitsBlack(c.up, h + 1);
    } else {
      h' := h + 1;
    }
  }

  // ---------- case 3: only the inner nephew is red ----------

  /** The sibling just before its rotation: red, its inner child black. */
  ghost function InnerRaised(c: Path): Shape
    requires !c.Top? && Sibling(c).Tree?
  {
    var s := Sibling(c);
    if c.LeftOf? then s.(color := Red, left := Recolored(s.left, Black))
    else s.(color := Red, right := Recolored(s.right, Black))
  }

  /** The surroundings of the sibling. */
  ghost function Opposite(t: Shape, c: Path): Path
    requires !c.Top?
  {
    match c
    case LeftOf(p, k, _, up) => RightOf(t, p, k, up)
    case RightOf(_, p, k, up) => LeftOf(p, k, t, up)
  }

  ghost function WithSibling(c: Path, s: Shape): Path
    requires !c.Top?
  {
    match c
    case LeftOf(p, k, _, up) => LeftOf(p, k, s, up)
    case RightOf(_, p, k, up) => RightOf(s, p, k, up)
  }

  lemma Across(m: Memory, root: Node?, t: Shape, c: Path, s: Shape)
    requires !c.Top?
    ensures At(m, root, s, Opposite(t, c)) <==> At(m, root, t, WithSibling(c, s))
  {
    if At(m, root, s, Opposite(t, c)) {
      MoveUp(m, root, s, Opposite(t, c));
      if c.LeftOf? {
        MoveLeft(m, root, Joined(s, Opposite(t, c)), c.up);
      } else {
        MoveRight(m, root, Joined(s, Opposite(t, c)), c.up);
      }
    }
    if At(m, root, t, WithSibling(c, s)) {
      MoveUp(m, root, t, WithSibling(c, s));
      if c.LeftOf? {
        MoveRight(m, root, Joined(t, WithSibling(c, s)), c.up);
      } else {
        MoveLeft(m, root, Joined(t, WithSibling(c, s)), c.up);
      }
    }
  }

  ghost function InnerNephew(c: Path): Shape
    requires !c.Top? && Sibling(c).Tree?
  {
    if c.LeftOf? then Sibling(c).left else Sibling(c).right
  }

  ghost function OuterNephew(c: Path): Shape
    requires !c.Top? && Sibling(c).Tree?
  {
    if c.LeftOf? then Sibling(c).right else Sibling(c).left
  }

  lemma InnerPaint(m: Memory, root: Node?, t: Shape, c: Path)
    requires At(m, root, t, c) && !c.Top? && Sibling(c).Tree? && InnerNephew(c).Tree?
    ensures At(Painted(Painted(m, InnerNephew(c).node, Black), Sibling(c).node, Red), root, InnerRaised(c), Opposite(t, c))
  {
    hide At;
    var s := Sibling(c);
    assert WithSibling(c, s) == c;
    Across(m, root, t, c, s);
    if c.LeftOf? {
      PaintLeft(m, root, s, Opposite(t, c), Black);
      PaintRoot(Painted(m, s.left.node, Black), root, s.(left := Recolored(s.left, Black)), Opposite(t, c), Red);
    } else {
      PaintRight(m, root, s, Opposite(t, c), Black);
      PaintRoot(Painted(m, s.right.node, Black), root, s.(right := Recolored(s.right, Black)), Opposite(t, c), Red);
    }
  }

  lemma InnerNephewCase(m: Memory, root: Node?, t: Shape, c: Path, h: int, r: Shape)
    requires Deficit(t, c, h) && ColorOf(t) == Black && !c.Top? && Sibling(c).Tree? && Sibling(c).color == Black
    requires ColorOf(InnerNephew(c)) == Red && ColorOf(OuterNephew(c)) == Black
    requires r == if c.LeftOf? then RotateRight(InnerRaised(c)) else RotateLeft(InnerRaised(c))
    requires At(m, root, r, Opposite(t, c))
    ensures var k := WithSibling(c, r);
            && At(m, root, t, k) && Deficit(t, k, h) && All(t, k) == All(t, c)
            && Distance(t, k) == Distance(t, c) && Turns(k) < Turns(c)
  {
    hide At;
    var s, q, k := Sibling(c), InnerRaised(c), WithSibling(c, r);
    Across(m, root, t, c, r);
    assert Inorder(q) == Inorder(s) by {
      assert Inorder(Recolored(s.left, Black)) == Inorder(s.left) && Inorder(Recolored(s.right, Black)) == Inorder(s.right);
    }
    if c.LeftOf? { RotateRightInorder(q); } else { RotateLeftInorder(q); }
    var inner, outer := InnerNephew(c), OuterNephew(c);
    assert Balanced(s, h + 1) && Balanced(inner, h) && Balanced(outer, h);
    assert Balanced(inner.left, h) && Balanced(inner.right, h);
    assert Balanced(if c.LeftOf? then r.right else r.left, h);
  }

  // ---------- case 4: the outer nephew is red ----------

  /** The parent's subtree just before its rotation. */
  ghost function Lent(t: Shape, c: Path): Shape
    requires !c.Top? && Sibling(c).Tree?
  {
    match c
    case LeftOf(p, k, s, _) => Tree(t, p, Black, s.(color := k, right := Recolored(s.right, Black)))
    case RightOf(s, p, k, _) => Tree(s.(color := k, left := Recolored(s.left, Black)), p, Black, t)
  }

  /** The surroundings of the focus once the sibling's black node has been borrowed. */
  ghost function Borrowed(c: Path): Path
    requires !c.Top? && Sibling(c).Tree?
  {
    match c
    case LeftOf(p, k, s, up) => LeftOf(p, Black, s.left, LeftOf(s.node, k, Recolored(s.right, Black), up))
    case RightOf(s, p, k, up) => RightOf(s.right, p, Black, RightOf(Recolored(s.left, Black), s.node, k, up))
  }

  lemma LendPaint(m: Memory, root: Node?, t: Shape, c: Path)
    requires At(m, root, t, c) && !c.Top? && Sibling(c).Tree? && OuterNephew(c).Tree?
    ensures At(Painted(Painted(Painted(m, Sibling(c).node, c.color), c.node, Black), OuterNephew(c).node, Black),
               root, Lent(t, c), c.up)
  {
    hide At;
    MoveUp(m, root, t, c);
    var j, s, k := Joined(t, c), Sibling(c), c.color;
    var m1 := Painted(m, s.node, k);
    var m2 := Painted(m1, c.node, Black);
    if c.LeftOf? {
      PaintRight(m, root, j, c.up, k);
      var j1 := j.(right := s.(color := k));
      PaintRoot(m1, root, j1, c.up, Black);
      var j2 := j1.(color := Black);
      MoveRight(m2, root, j2, c.up);
      PaintRight(m2, root, j2.right, RightOf(t, c.node, Black, c.up), Black);
      MoveUp(Painted(m2, s.right.node, Black), root, j2.right.(right := s.right.(color := Black)), RightOf(t, c.node, Black, c.up));
    } else {
      PaintLeft(m, root, j, c.up, k);
      var j1 := j.(left := s.(color := k));
      PaintRoot(m1, root, j1, c.up, Black);
      var j2 := j1.(color := Black);
      MoveLeft(m2, root, j2, c.up);
      PaintLeft(m2, root, j2.left, LeftOf(c.node, Black, t, c.up), Black);
      MoveUp(Painted(m2, s.left.node, Black), root, j2.left.(left := s.left.(color := Black)), LeftOf(c.node, Black, t, c.up));
    }
  }

  lemma BorrowCase(m: Memory, root: Node?, t: Shape, c: Path, h: int, r: Shape)
    requires Deficit(t, c, h) && ColorOf(t) == Black && !c.Top? && Sibling(c).Tree? && Sibling(c).color == Black
    requires ColorOf(OuterNephew(c)) == Red
    requires r == if c.LeftOf? then RotateLeft(Lent(t, c)) else RotateRight(Lent(t, c))
    requires At(m, root, r, c.up)
    ensures At(m, root, t, Borrowed(c)) && Mended(t, Borrowed(c), h) && All(t, Borrowed(c)) == All(t, c)
  {
    hide At;
    var s, k, q := Sibling(c), Borrowed(c), Lent(t, c);
    AllJoined(t, k);
    AllJoined(Joined(t, k), k.up);
    AllJoined(t, c);
    assert Joined(Joined(t, k), k.up) == r;
    assert Inorder(q) == Inorder(Joined(t, c)) by {
      assert Inorder(Recolored(s.left, Black)) == Inorder(s.left) && Inorder(Recolored(s.right, Black)) == Inorder(s.right);
      var s' := if c.LeftOf? then q.right else q.left;
      assert Inorder(s') == Inorder(s);
    }
    if c.LeftOf? {
      RotateLeftInorder(q);
      MoveLeft(m, root, r, c.up);
      MoveLeft(m, root, r.left, k.up);
    } else {
      RotateRightInorder(q);
      MoveRight(m, root, r, c.up);
      MoveRight(m, root, r.right, k.up);
    }
    assert Recolored(t, Black) == t;
    var outer := OuterNephew(c);
    assert Balanced(s, h + 1) && Balanced(InnerNephew(c), h) && Balanced(outer, h);
    assert Balanced(Recolored(outer, Black), h + 1);
    assert Fits(k.up, h + 1, Black) && BlackTop(k.up);
  }

  /** Painting the focus black ends the repair. */
  lemma Mend(m: Memory, root: Node?, t: Shape, c: Path, h: int) returns (s: Shape, hs: int)
    requires At(m, root, t, c) && Mended(t, c, h)
    ensures At(if t.Tree? then Painted(m, t.node, Black) else m, root, s, Top)
    ensures Balanced(s, hs) && ColorOf(s) == Black && Inorder(s) == All(t, c)
  {
    hide At;
    var t' := Recolored(t, Black);
    if t.Tree? { PaintRoot(m, root, t, c, Black); }
    assert Inorder(t') == Inorder(t);
    s, hs := CloseUp(if t.Tree? then Painted(m, t.node, Black) else m, root, t', c, h);
  }
}
