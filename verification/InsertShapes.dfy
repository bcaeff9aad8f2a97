/**
 What each case of `insert_fixup` does to the tree around the offending red node:
 value-level lemmas, one per case, that the heap code's loop relies on.
 */
module InsertShapes {
  import opened TreeShapes

  /**
   The focus is the only possible offence: a red node whose subtree is balanced,
   in surroundings that would take a black node.
   */
  predicate RedSpot(t: Shape, c: Path, h: int) {
    ColorOf(t) == Red && Balanced(t, h) && Fits(c, h, Black) && BlackTop(c)
  }

  /** The offence is real: the parent is red too. */
  predicate Clash(c: Path) { !c.Top? && c.color == Red }

  /** The focus is the inner grandchild of its grandparent. */
  predicate Inner(c: Path) {
    !c.Top? && ((c.LeftOf? && c.up.RightOf?) || (c.RightOf? && c.up.LeftOf?))
  }

  ghost function Sibling(c: Path): Shape
    requires !c.Top?
  {
    if c.LeftOf? then c.right else c.left
  }

  /** A red parent is not the root, and the grandparent is black: the pointers and colours the loop looks at. */
  lemma Kin(m: Memory, root: Node?, t: Shape, c: Path, h: int)
    requires At(m, root, t, c) && RedSpot(t, c, h)
    ensures t.node in m && m[t.node].parent == Above(c) && m[t.node].left != t.node
    ensures !c.Top? ==> c.node in m && m[c.node].color == c.color
    ensures Clash(c) ==>
              && !c.up.Top? && c.up.color == Black
              && m[c.node].parent == c.up.node && c.up.node in m
              && (m[c.up.node].left == c.node <==> c.up.LeftOf?)
              && (m[c.node].left == t.node <==> c.LeftOf?)
              && (m[c.node].right == t.node <==> c.RightOf?)
              && Ptr(Sibling(c.up)) == (if c.up.LeftOf? then m[c.up.node].right else m[c.up.node].left)
              && (Sibling(c.up).Tree? ==> Sibling(c.up).node in m && m[Sibling(c.up).node].color == Sibling(c.up).color)
  {
    Site(m, root, t, c);
    RootInNodes(t.left);
    if Clash(c) {
      assert Fits(c.up, h, Red);
      MoveUp(m, root, t, c);
      Site(m, root, Joined(t, c), c.up);
      if c.LeftOf? { RootInNodes(c.right); }
      RootInNodes(Sibling(c.up));
    }
  }

  function FlipColours(m: Memory, u: Node, p: Node, g: Node): Memory {
    Painted(Painted(Painted(m, u, Black), p, Black), g, Red)
  }

  /** Case 1, a red uncle: after the recolouring the offence has moved to the grandparent. */
  lemma FlipCase(m: Memory, root: Node?, t: Shape, c: Path, h: int) returns (t': Shape)
    requires At(m, root, t, c) && RedSpot(t, c, h) && Clash(c)
    requires !c.up.Top? && ColorOf(Sibling(c.up)) == Red
    ensures t'.Tree? && t'.node == c.up.node
    ensures At(FlipColours(m, Sibling(c.up).node, c.node, c.up.node), root, t', c.up.up)
    ensures RedSpot(t', c.up.up, h + 1) && All(t', c.up.up) == All(t, c) && Depth(c.up.up) < Depth(c)
  {
    hide At, Nodes, PathNodes;
    var u, p := Sibling(c.up), Joined(t, c);
    var g := Joined(p, c.up);
    MoveUp(m, root, t, c);
    MoveUp(m, root, p, c.up);
    AllJoined(t, c);
    AllJoined(p, c.up);
    var m1 := Painted(m, u.node, Black);
    var m2 := Painted(m1, p.node, Black);
    if c.up.LeftOf? {
      PaintRight(m, root, g, c.up.up, Black);
      var g1 := g.(right := u.(color := Black));
      PaintLeft(m1, root, g1, c.up.up, Black);
      var g2 := g1.(left := p.(color := Black));
      PaintRoot(m2, root, g2, c.up.up, Red);
      t' := g2.(color := Red);
    } else {
      PaintLeft(m, root, g, c.up.up, Black);
      var g1 := g.(left := u.(color := Black));
      PaintRight(m1, root, g1, c.up.up, Black);
      var g2 := g1.(right := p.(color := Black));
      PaintRoot(m2, root, g2, c.up.up, Red);
      t' := g2.(color := Red);
    }
    assert Fits(c.up, h, Red) && BlackTop(c.up);
    assert Balanced(p.(color := Black), h + 1) && Balanced(u.(color := Black), h + 1);
    assert Inorder(p.(color := Black)) == Inorder(p) && Inorder(u.(color := Black)) == Inorder(u);
  }

  /** Case 2, the parent after it has been rotated outwards: the old parent is now the focus, on the outside. */
  lemma InnerCase(m: Memory, root: Node?, t: Shape, c: Path, h: int, r: Shape) returns (t': Shape, c': Path)
    requires RedSpot(t, c, h) && Clash(c) && Inner(c) && t.Tree?
    requires r == if c.RightOf? then RotateLeft(Joined(t, c)) else RotateRight(Joined(t, c))
    requires At(m, root, r, c.up)
    ensures t'.Tree? && t'.node == c.node && Clash(c') && c'.node == t.node && c'.up == c.up && !Inner(c')
    ensures At(m, root, t', c') && RedSpot(t', c', h) && All(t', c') == All(t, c) && Depth(c') == Depth(c)
  {
    hide At, Nodes, PathNodes;
    AllJoined(t, c);
    if c.RightOf? {
      RotateLeftInorder(Joined(t, c));
      MoveLeft(m, root, r, c.up);
      t', c' := r.left, LeftOf(r.node, r.color, r.right, c.up);
    } else {
      RotateRightInorder(Joined(t, c));
      MoveRight(m, root, r, c.up);
      t', c' := r.right, RightOf(r.left, r.node, r.color, c.up);
    }
    AllJoined(t', c');
    assert Joined(t', c') == r;
  }

  /** The grandparent's subtree in case 3 once the parent is black and the grandparent red. */
  ghost function OuterPainted(t: Shape, c: Path): Shape
    requires Clash(c) && !c.up.Top?
  {
    Recolored(Joined(Recolored(Joined(t, c), Black), c.up), Red)
  }

  lemma OuterPaint(m: Memory, root: Node?, t: Shape, c: Path, h: int)
    requires At(m, root, t, c) && RedSpot(t, c, h) && Clash(c) && !c.up.Top? && !Inner(c)
    ensures At(Painted(Painted(m, c.node, Black), c.up.node, Red), root, OuterPainted(t, c), c.up.up)
    ensures var g := OuterPainted(t, c);
            g.Tree? && g.node == c.up.node && (if c.up.LeftOf? then g.left.Tree? else g.right.Tree?)
  {
    hide At, Nodes, PathNodes;
    var p := Joined(t, c);
    var g := Joined(p, c.up);
    MoveUp(m, root, t, c);
    MoveUp(m, root, p, c.up);
    var m1 := Painted(m, p.node, Black);
    if c.up.LeftOf? {
      PaintLeft(m, root, g, c.up.up, Black);
      PaintRoot(m1, root, g.(left := p.(color := Black)), c.up.up, Red);
    } else {
      PaintRight(m, root, g, c.up.up, Black);
      PaintRoot(m1, root, g.(right := p.(color := Black)), c.up.up, Red);
    }
  }

  /** Case 3, after the rotation of the grandparent: the focus has a black parent, nothing is left to repair. */
  lemma OuterCase(m: Memory, root: Node?, t: Shape, c: Path, h: int, r: Shape) returns (c': Path)
    requires RedSpot(t, c, h) && Clash(c) && !c.up.Top? && !Inner(c) && ColorOf(Sibling(c.up)) == Black
    requires r == if c.up.LeftOf? then RotateRight(OuterPainted(t, c)) else RotateLeft(OuterPainted(t, c))
    requires At(m, root, r, c.up.up)
    ensures !c'.Top? && c'.node == c.node && c'.up == c.up.up && !Clash(c')
    ensures At(m, root, t, c') && RedSpot(t, c', h) && All(t, c') == All(t, c) && Depth(c') < Depth(c)
  {
    hide At, Nodes, PathNodes;
    var p := Joined(t, c);
    var g := Joined(p, c.up);
    AllJoined(t, c);
    AllJoined(p, c.up);
    assert Fits(c.up, h, Red) && BlackTop(c.up);
    assert Inorder(OuterPainted(t, c)) == Inorder(g);
    if c.up.LeftOf? {
      RotateRightInorder(OuterPainted(t, c));
      MoveLeft(m, root, r, c.up.up);
      c' := LeftOf(r.node, r.color, r.right, c.up.up);
    } else {
      RotateLeftInorder(OuterPainted(t, c));
      MoveRight(m, root, r, c.up.up);
      c' := RightOf(r.left, r.node, r.color, c.up.up);
    }
    AllJoined(t, c');
    assert Joined(t, c') == r;
  }

  /** Nothing left to repair but perhaps a red root. */
  lemma Finish(m: Memory, root: Node?, t: Shape, c: Path, h: int) returns (s: Shape, hs: int)
    requires At(m, root, t, c) && RedSpot(t, c, h) && !Clash(c)
    ensures s.Tree? && root == s.node && root in m && At(Painted(m, root, Black), root, s.(color := Black), Top)
    ensures Balanced(s.(color := Black), hs) && Inorder(s.(color := Black)) == All(t, c)
  {
    hide At, Nodes, PathNodes;
    var hs0: int;
    s, hs0 := CloseUp(m, root, t, c, h);
    hs := if ColorOf(s) == Red then hs0 + 1 else hs0;
    Site(m, root, s, Top);
    CloseUpTree(t, c, s);
    PaintRoot(m, root, s, Top, Black);
  }

  lemma CloseUpTree(t: Shape, c: Path, s: Shape)
    requires Inorder(s) == All(t, c) && t.Tree?
    ensures s.Tree?
  {
  }

  /** The place where a key v belongs: everything before is not greater, everything after is greater. */
  ghost predicate Gap(t: Shape, c: Path, h: int, v: int) {
    && Balanced(t, h) && Fits(c, h, ColorOf(t)) && BlackTop(c) && (c.Top? ==> ColorOf(t) == Black)
    && Sorted(All(t, c))
    && (forall n <- Before(c) :: n.value <= v)
    && (forall n <- After(c) :: v < n.value)
    && (c.LeftOf? ==> v < c.node.value)
    && (c.RightOf? ==> c.node.value <= v)
  }

  lemma DescendGap(t: Shape, c: Path, h: int, v: int)
    requires Gap(t, c, h, v) && t.Tree?
    ensures var h' := if t.color == Red then h else h - 1;
            var l, r := LeftOf(t.node, t.color, t.right, c), RightOf(t.left, t.node, t.color, c);
            && (v < t.node.value ==> Gap(t.left, l, h', v))
            && (t.node.value <= v ==> Gap(t.right, r, h', v))
            && All(t.left, l) == All(t.right, r) == All(t, c)
  {
    DescendOrder(t, c, v);
    AllJoined(t.left, LeftOf(t.node, t.color, t.right, c));
    AllJoined(t.right, RightOf(t.left, t.node, t.color, c));
  }

  lemma FillGap(c: Path, h: int, n: Node)
    requires Gap(Leaf, c, h, n.value)
    ensures RedSpot(Tree(Leaf, n, Red, Leaf), c, h)
    ensures All(Tree(Leaf, n, Red, Leaf), c) == Inserted(All(Leaf, c), n)
    ensures Sorted(All(Tree(Leaf, n, Red, Leaf), c))
  {
    assert All(Leaf, c) == Before(c) + After(c);
    assert All(Tree(Leaf, n, Red, Leaf), c) == Before(c) + [n] + After(c);
    InsertedAt(Before(c), After(c), n);
  }

  lemma WholeGap(t: Shape, h: int, v: int)
    requires Balanced(t, h) && ColorOf(t) == Black && Sorted(Inorder(t))
    ensures Gap(t, Top, h, v) && All(t, Top) == Inorder(t)
  {
  }

  lemma GapSide(t: Shape, c: Path, h: int, v: int)
    requires Gap(t, c, h, v)
    ensures (c.LeftOf? ==> v < c.node.value) && (c.RightOf? ==> c.node.value <= v)
  {
  }
}
