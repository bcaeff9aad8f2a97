/**
 The red-black tree with parent pointers: rotations, insertion and erasure with
 their fix-up loops, on nodes linked in the heap.

 The ghost parameters of the methods name the place in the tree they work at; the
 contracts say what the tree is afterwards, as a shape held by the memory. What the
 fix-up loops do to a shape is in InsertShapes and EraseShapes; the loops here do
 the same on the linked nodes.
 */
module RedBlackTree {
  import opened TreeShapes
  import opened InsertShapes
  import opened EraseShapes
  import opened RemovalShapes
  import opened TreeSearch
  import opened Powers

  class RBTree {
    var root: Node?
    ghost var nodes: set<Node>
    ghost var shape: Shape

    ghost function Mem(): Memory
      reads this, nodes
    {
      map n <- nodes :: View(n)
    }

    /**
     The five invariants: consistent links and parent pointers, black root, no
     red-red edge, equal black height, and non-strict search order.
     */
    ghost predicate Valid()
      reads this, nodes
    {
      && At(Mem(), root, shape, Top)
      && (exists h :: Balanced(shape, h))
      && ColorOf(shape) == Black
      && Sorted(Contents())
    }

    /** The nodes of the tree in order. */
    ghost function Contents(): seq<Node>
      reads this
    {
      Inorder(shape)
    }

    constructor ()
      ensures Valid() && Contents() == []
    {
      root, nodes, shape := null, {}, Leaf;
      new;
      assert Balanced(shape, 0);
    }

    method LeftRevolve(x: Node)
      requires CanRevolveLeft(Mem(), root, x)
      modifies `root, nodes
      ensures LeftRotated(old(Mem()), Mem(), x, old(x.right))
      ensures root == if old(x.parent) == null then old(x.right) else old(root)
    {
      ghost var m := Mem();
      assert m[x] == View(x);
      var y := x.right;
      assert m[y] == View(y);
      x.right := y.left;
      if y.left != null {
        y.left.parent := x;
      }
      y.parent := x.parent;
      if x.parent == null {
        root := y;
      } else if x == x.parent.left {
        x.parent.left := y;
      } else if x == x.parent.right {
        x.parent.right := y;
      }
      y.left := x;
      x.parent := y;
      forall n <- m ensures View(n) == LeftRotatedCell(m, x, y, n) {
        assert n !in {x, y, m[y].left, m[x].parent} ==> View(n) == old(View(n));
      }
    }

    method RightRevolve(y: Node)
      requires CanRevolveRight(Mem(), root, y)
      modifies `root, nodes
      ensures RightRotated(old(Mem()), Mem(), y, old(y.left))
      ensures root == if old(y.parent) == null then old(y.left) else old(root)
    {
      ghost var m := Mem();
      assert m[y] == View(y);
      var x := y.left;
      assert m[x] == View(x);
      y.left := x.right;
      if x.right != null {
        x.right.parent := y;
      }
      x.parent := y.parent;
      if y.parent == null {
        root := x;
      } else if y == y.parent.left {
        y.parent.left := x;
      } else if y == y.parent.right {
        y.parent.right := x;
      }
      x.right := y;
      y.parent := x;
      forall n <- m ensures View(n) == RightRotatedCell(m, y, x, n) {
        assert n !in {y, x, m[x].right, m[y].parent} ==> View(n) == old(View(n));
      }
    }

    /** `left_revolve` at the root of the subtree t in surroundings c. */
    method LeftRevolveAt(x: Node, ghost t: Shape, ghost c: Path)
      requires At(Mem(), root, t, c) && t.Tree? && t.node == x && t.right.Tree?
      modifies `root, nodes
      ensures At(Mem(), root, RotateLeft(t), c)
    {
      hide At, LeftRotated;
      ghost var m, r := Mem(), root;
      LeftRotationSite(m, root, t, c);
      assert m[x] == View(x);
      LeftRevolve(x);
      LeftRotation(m, Mem(), r, t, c);
    }

    method RightRevolveAt(y: Node, ghost t: Shape, ghost c: Path)
      requires At(Mem(), root, t, c) && t.Tree? && t.node == y && t.left.Tree?
      modifies `root, nodes
      ensures At(Mem(), root, RotateRight(t), c)
    {
      hide At, RightRotated;
      ghost var m, r := Mem(), root;
      RightRotationSite(m, root, t, c);
      assert m[y] == View(y);
      RightRevolve(y);
      RightRotation(m, Mem(), r, t, c);
    }

    /** `set_red`, `set_black`, and the plain colour assignment. */
    method SetColor(n: Node, k: Color)
      requires n in nodes
      modifies n`color
      ensures Mem() == Painted(old(Mem()), n, k)
    {
      n.color := k;
    }

    /** Case 1 of the insertion fix-up: uncle and parent black, grandparent red. */
    method Recolor3(u: Node, p: Node, g: Node)
      requires {u, p, g} <= nodes
      modifies u`color, p`color, g`color
      ensures Mem() == FlipColours(old(Mem()), u, p, g)
    {
      SetColor(u, Black);
      SetColor(p, Black);
      SetColor(g, Red);
    }

    /** Case 3 on the left of the grandparent: parent black, grandparent red, rotate the grandparent. */
    method RaiseLeft(p: Node, g: Node, ghost f: Shape, ghost k: Path, ghost b: int) returns (ghost k': Path)
      requires At(Mem(), root, f, k) && RedSpot(f, k, b) && Clash(k) && k.LeftOf? && k.up.LeftOf?
      requires p == k.node && g == k.up.node && ColorOf(Sibling(k.up)) == Black
      modifies `root, nodes
      ensures !k'.Top? && k'.node == p && !Clash(k')
      ensures At(Mem(), root, f, k') && RedSpot(f, k', b) && All(f, k') == All(f, k) && Depth(k') < Depth(k)
    {
      hide At, RedSpot, All, Depth, OuterPainted, RotateRight;
      Kin(Mem(), root, f, k, b);
      OuterPaint(Mem(), root, f, k, b);
      SetColor(p, Black);
      SetColor(g, Red);
      RightRevolveAt(g, OuterPainted(f, k), k.up.up);
      k' := OuterCase(Mem(), root, f, k, b, RotateRight(OuterPainted(f, k)));
    }

    /** Case 3 on the right of the grandparent: parent black, grandparent red, rotate the grandparent. */
    method RaiseRight(p: Node, g: Node, ghost f: Shape, ghost k: Path, ghost b: int) returns (ghost k': Path)
      requires At(Mem(), root, f, k) && RedSpot(f, k, b) && Clash(k) && k.RightOf? && k.up.RightOf?
      requires p == k.node && g == k.up.node && ColorOf(Sibling(k.up)) == Black
      modifies `root, nodes
      ensures !k'.Top? && k'.node == p && !Clash(k')
      ensures At(Mem(), root, f, k') && RedSpot(f, k', b) && All(f, k') == All(f, k) && Depth(k') < Depth(k)
    {
      hide At, RedSpot, All, Depth, OuterPainted, RotateLeft;
      Kin(Mem(), root, f, k, b);
      OuterPaint(Mem(), root, f, k, b);
      SetColor(p, Black);
      SetColor(g, Red);
      LeftRevolveAt(g, OuterPainted(f, k), k.up.up);
      k' := OuterCase(Mem(), root, f, k, b, RotateLeft(OuterPainted(f, k)));
    }

    /**
     From a red node in an otherwise valid tree to a valid tree with the same
     in-order sequence.
     */
    method InsertFixup(start: Node, ghost t: Shape, ghost c: Path, ghost h: int) returns (ghost s: Shape, ghost hs: int)
      requires At(Mem(), root, t, c) && t.Tree? && t.node == start && RedSpot(t, c, h)
      modifies `root, nodes
      ensures At(Mem(), root, s, Top) && Balanced(s, hs) && ColorOf(s) == Black
      ensures Inorder(s) == All(t, c)
    {
      hide At, Nodes, PathNodes, RedSpot, All, Inorder, Depth, OuterPainted, FlipColours, Recolored, RotateLeft, RotateRight;
      var node := start;
      ghost var f, k, b := t, c, h;
      while node.parent != null && node.parent.color == Red
        invariant f.Tree? && f.node == node
        invariant At(Mem(), root, f, k) && RedSpot(f, k, b) && All(f, k) == All(t, c)
        decreases Depth(k), if Inner(k) then 1 else 0
      {
        Kin(Mem(), root, f, k, b);
        ghost var m := Mem();
        var p := node.parent;
        var g := p.parent;
        if p == g.left {
          var u := g.right;
          if u != null && u.color == Red {
            // case 1
            Recolor3(u, p, g);
            node := g;
            f := FlipCase(m, root, f, k, b);
            k, b := k.up.up, b + 1;
            continue;
          }
          // case 2
          if p.right == node {
            MoveUp(m, root, f, k);
            LeftRevolveAt(p, Joined(f, k), k.up);
            node := p;
            f, k := InnerCase(Mem(), root, f, k, b, RotateLeft(Joined(f, k)));
            Kin(Mem(), root, f, k, b);
          }
          // case 3; after case 2 the node is p itself and the loop comes back here
          if p.left == node {
            k := RaiseLeft(p, g, f, k, b);
          }
        } else {
          var u := g.left;
          if u != null && u.color == Red {
            // case 1
            Recolor3(u, p, g);
            node := g;
            f := FlipCase(m, root, f, k, b);
            k, b := k.up.up, b + 1;
            continue;
          }
          // case 2
          if p.left == node {
            MoveUp(m, root, f, k);
            RightRevolveAt(p, Joined(f, k), k.up);
            p, node := node, p;
            f, k := InnerCase(Mem(), root, f, k, b, RotateRight(Joined(f, k)));
          }
          // case 3
          k := RaiseRight(p, g, f, k, b);
        }
      }
      Kin(Mem(), root, f, k, b);
      s, hs := Finish(Mem(), root, f, k, b);
      s := s.(color := Black);
      SetColor(root, Black);
    }

    /** The linking step of insertion: the new red node takes the empty place under y. */
    method Link(node: Node, y: Node?, ghost k: Path, ghost b: int)
      requires At(Mem(), root, Leaf, k) && Gap(Leaf, k, b, node.value) && y == Above(k)
      requires node !in nodes && node.left == null && node.right == null
      modifies `root, `nodes, nodes, node
      ensures nodes == old(nodes) + {node} && At(Mem(), root, Tree(Leaf, node, Red, Leaf), k)
    {
      hide At, Gap;
      ghost var m, r := Mem(), root;
      Site(m, root, Leaf, k);
      GapSide(Leaf, k, b, node.value);
      node.parent := y;
      if y != null {
        assert y in m && m[y] == View(y);
        if node.value < y.value {
          y.left := node;
        } else {
          y.right := node;
        }
      } else {
        root := node;
      }
      node.color := Red;
      nodes := nodes + {node};
      forall x <- m ensures View(x) == if x == Above(k) then Refilled(k, m[x], node) else m[x] {
        assert x != y ==> View(x) == old(View(x));
      }
      AddLeaf(m, Mem(), r, root, k, node);
    }

    /**
     Adds a node directly behind every node whose key is not greater: equal keys
     stay in arrival order.
     */
    method Insert(node: Node)
      requires Valid() && node !in nodes && node.left == null && node.right == null
      modifies this, nodes, node
      ensures Valid() && nodes == old(nodes) + {node}
      ensures Contents() == Inserted(old(Contents()), node)
    {
      hide At, Balanced, Gap, Inserted, Sorted, Before, After, Inorder, RedSpot;
      ghost var h :| Balanced(shape, h);
      ghost var f, k, b := shape, Top, h;
      var y: Node? := null;
      var x := root;
      WholeGap(shape, h, node.value);
      Site(Mem(), root, f, k);
      while x != null
        invariant nodes == old(nodes) && shape == old(shape) && node.left == null && node.right == null
        invariant At(Mem(), root, f, k) && Gap(f, k, b, node.value) && All(f, k) == Inorder(shape)
        invariant x == Ptr(f) && y == Above(k)
        decreases f
      {
        Site(Mem(), root, f, k);
        assert View(x) == Mem()[x];
        DescendGap(f, k, b, node.value);
        y := x;
        b := if f.color == Red then b else b - 1;
        if node.value < x.value {
          MoveLeft(Mem(), root, f, k);
          x := x.left;
          f, k := f.left, LeftOf(f.node, f.color, f.right, k);
        } else {
          MoveRight(Mem(), root, f, k);
          x := x.right;
          f, k := f.right, RightOf(f.left, f.node, f.color, k);
        }
      }
      FillGap(k, b, node);
      Link(node, y, k, b);
      ghost var s, hs := InsertFixup(node, Tree(Leaf, node, Red, Leaf), k, b);
      ghost var m := Mem();
      shape := s;
      assert Mem() == m;
    }

    method InsertValue(t: int) returns (node: Node)
      requires Valid()
      modifies this, nodes
      ensures Valid() && fresh(node) && node.value == t && nodes == old(nodes) + {node}
      ensures Contents() == Inserted(old(Contents()), node)
    {
      node := new Node(t);
      Insert(node);
    }

    // ---------- erasure ----------

    /** Case 1 of the erasure fix-up, focus on the left: a red sibling becomes the parent of the parent. */
    method SwapLeft(parent: Node, s: Node, ghost f: Shape, ghost k: Path, ghost b: int)
      requires At(Mem(), root, f, k) && Deficit(f, k, b) && ColorOf(f) == Black
      requires k.LeftOf? && k.node == parent && k.right.Tree? && k.right.node == s && k.right.color == Red
      modifies `root, nodes
      ensures var k' := SwappedUp(k);
              && At(Mem(), root, f, k') && Deficit(f, k', b) && All(f, k') == All(f, k) && Above(k') == parent
              && Distance(f, k') == Distance(f, k) && Turns(k') < Turns(k)
    {
      hide At, Deficit, All, SwappedUp, RotateLeft;
      Near(Mem(), root, f, k, b);
      SwapPaint(Mem(), root, f, k);
      SetColor(s, Black);
      SetColor(parent, Red);
      LeftRevolveAt(parent, SwappedColours(f, k), k.up);
      SwapCase(Mem(), root, f, k, b, RotateLeft(SwappedColours(f, k)));
    }

    method SwapRight(parent: Node, s: Node, ghost f: Shape, ghost k: Path, ghost b: int)
      requires At(Mem(), root, f, k) && Deficit(f, k, b) && ColorOf(f) == Black
      requires k.RightOf? && k.node == parent && k.left.Tree? && k.left.node == s && k.left.color == Red
      modifies `root, nodes
      ensures var k' := SwappedUp(k);
              && At(Mem(), root, f, k') && Deficit(f, k', b) && All(f, k') == All(f, k) && Above(k') == parent
              && Distance(f, k') == Distance(f, k) && Turns(k') < Turns(k)
    {
      hide At, Deficit, All, SwappedUp, RotateRight;
      Near(Mem(), root, f, k, b);
      SwapPaint(Mem(), root, f, k);
      SetColor(s, Black);
      SetColor(parent, Red);
      RightRevolveAt(parent, SwappedColours(f, k), k.up);
      SwapCase(Mem(), root, f, k, b, RotateRight(SwappedColours(f, k)));
    }

    /** Case 2: a black sibling without red children turns red, and the parent's subtree is one black node short. */
    method HandUp(parent: Node, s: Node, ghost f: Shape, ghost k: Path, ghost b: int) returns (ghost b': int)
      requires At(Mem(), root, f, k) && Deficit(f, k, b) && ColorOf(f) == Black && !k.Top? && k.node == parent
      requires Sibling(k).Tree? && Sibling(k).node == s && Sibling(k).color == Black
      requires ColorOf(Sibling(k).left) == Black && ColorOf(Sibling(k).right) == Black
      modifies nodes
      ensures At(Mem(), root, HandedUp(f, k), k.up) && Deficit(HandedUp(f, k), k.up, b')
      ensures All(HandedUp(f, k), k.up) == All(f, k) && Distance(HandedUp(f, k), k.up) < Distance(f, k)
      ensures Ptr(HandedUp(f, k)) == parent && parent.parent == Above(k.up)
    {
      hide At, Deficit, All, HandedUp;
      Near(Mem(), root, f, k, b);
      b' := HandUpCase(Mem(), root, f, k, b);
      assert View(parent) == Mem()[parent];
      SetColor(s, Red);
    }

    /** Case 3, focus on the left: the red inner nephew becomes the sibling. */
    method TurnInnerLeft(s: Node, ghost f: Shape, ghost k: Path, ghost b: int) returns (ghost k': Path)
      requires At(Mem(), root, f, k) && Deficit(f, k, b) && ColorOf(f) == Black
      requires k.LeftOf? && k.right.Tree? && k.right.node == s && k.right.color == Black
      requires ColorOf(k.right.left) == Red && ColorOf(k.right.right) == Black
      modifies `root, nodes
      ensures At(Mem(), root, f, k') && Deficit(f, k', b) && All(f, k') == All(f, k) && k'.LeftOf? && k'.node == k.node
      ensures Distance(f, k') == Distance(f, k) && Turns(k') < Turns(k)
    {
      hide At, Deficit, All, RotateRight;
      Near(Mem(), root, f, k, b);
      InnerPaint(Mem(), root, f, k);
      assert View(s) == Mem()[s];
      SetColor(s.left, Black);
      SetColor(s, Red);
      RightRevolveAt(s, InnerRaised(k), Opposite(f, k));
      InnerNephewCase(Mem(), root, f, k, b, RotateRight(InnerRaised(k)));
      k' := WithSibling(k, RotateRight(InnerRaised(k)));
    }

    method TurnInnerRight(s: Node, ghost f: Shape, ghost k: Path, ghost b: int) returns (ghost k': Path)
      requires At(Mem(), root, f, k) && Deficit(f, k, b) && ColorOf(f) == Black
      requires k.RightOf? && k.left.Tree? && k.left.node == s && k.left.color == Black
      requires ColorOf(k.left.right) == Red && ColorOf(k.left.left) == Black
      modifies `root, nodes
      ensures At(Mem(), root, f, k') && Deficit(f, k', b) && All(f, k') == All(f, k) && k'.RightOf? && k'.node == k.node
      ensures Distance(f, k') == Distance(f, k) && Turns(k') < Turns(k)
    {
      hide At, Deficit, All, RotateLeft;
      Near(Mem(), root, f, k, b);
      InnerPaint(Mem(), root, f, k);
      assert View(s) == Mem()[s];
      SetColor(s.right, Black);
      SetColor(s, Red);
      LeftRevolveAt(s, InnerRaised(k), Opposite(f, k));
      InnerNephewCase(Mem(), root, f, k, b, RotateLeft(InnerRaised(k)));
      k' := WithSibling(k, RotateLeft(InnerRaised(k)));
    }

    /** Case 4, focus on the left: the red outer nephew pays for the missing black node. */
    method BorrowLeft(parent: Node, s: Node, ghost f: Shape, ghost k: Path, ghost b: int)
      requires At(Mem(), root, f, k) && Deficit(f, k, b) && ColorOf(f) == Black
      requires k.LeftOf? && k.node == parent && k.right.Tree? && k.right.node == s && k.right.color == Black
      requires ColorOf(k.right.right) == Red
      modifies `root, nodes
      ensures At(Mem(), root, f, Borrowed(k)) && Mended(f, Borrowed(k), b) && All(f, Borrowed(k)) == All(f, k)
    {
      hide At, Deficit, All, RotateLeft, Mended, Borrowed;
      Near(Mem(), root, f, k, b);
      LendPaint(Mem(), root, f, k);
      assert View(s) == Mem()[s] && View(parent) == Mem()[parent];
      SetColor(s, parent.color);
      SetColor(parent, Black);
      SetColor(s.right, Black);
      LeftRevolveAt(parent, Lent(f, k), k.up);
      BorrowCase(Mem(), root, f, k, b, RotateLeft(Lent(f, k)));
    }

    method BorrowRight(parent: Node, s: Node, ghost f: Shape, ghost k: Path, ghost b: int)
      requires At(Mem(), root, f, k) && Deficit(f, k, b) && ColorOf(f) == Black
      requires k.RightOf? && k.node == parent && k.left.Tree? && k.left.node == s && k.left.color == Black
      requires ColorOf(k.left.left) == Red
      modifies `root, nodes
      ensures At(Mem(), root, f, Borrowed(k)) && Mended(f, Borrowed(k), b) && All(f, Borrowed(k)) == All(f, k)
    {
      hide At, Deficit, All, RotateRight, Mended, Borrowed;
      Near(Mem(), root, f, k, b);
      LendPaint(Mem(), root, f, k);
      assert View(s) == Mem()[s] && View(parent) == Mem()[parent];
      SetColor(s, parent.color);
      SetColor(parent, Black);
      SetColor(s.left, Black);
      RightRevolveAt(parent, Lent(f, k), k.up);
      BorrowCase(Mem(), root, f, k, b, RotateRight(Lent(f, k)));
    }

    /** One turn of the loop with the focus on the left; `done` where the source breaks out of it. */
    method TurnLeft(node: Node?, parent: Node, ghost f: Shape, ghost k: Path, ghost b: int)
      returns (node': Node?, parent': Node?, done: bool, ghost f': Shape, ghost k': Path, ghost b': int)
      requires At(Mem(), root, f, k) && Deficit(f, k, b) && ColorOf(f) == Black
      requires node == Ptr(f) && k.LeftOf? && k.node == parent
      modifies `root, nodes
      ensures node' == Ptr(f') && At(Mem(), root, f', k') && All(f', k') == All(f, k)
      ensures done ==> Mended(f', k', b')
      ensures !done ==> Deficit(f', k', b') && parent' == Above(k')
      ensures !done ==> Distance(f', k') < Distance(f, k) || (Distance(f', k') == Distance(f, k) && Turns(k') < Turns(k))
    {
      hide At, Deficit, All, Mended, SwappedUp, HandedUp, Borrowed, Distance, Turns, Inorder;
      node', parent', done, f', k', b' := node, parent, false, f, k, b;
      Site(Mem(), root, f, k);
      Near(Mem(), root, f, k, b);
      assert View(parent) == Mem()[parent];
      var s := parent.right;
      assert View(s) == Mem()[s];
      // case 1
      if s.color == Red {
        SwapLeft(parent, s, f, k, b);
        k' := SwappedUp(k);
        return;
      }
      // case 2
      if (s.left == null || s.left.color != Red) && (s.right == null || s.right.color != Red) {
        b' := HandUp(parent, s, f, k, b);
        f', k' := HandedUp(f, k), k.up;
        node', parent' := parent, parent.parent;
        return;
      }
      // case 3
      if s.left != null && s.left.color == Red && (s.right == null || s.right.color == Black) {
        k' := TurnInnerLeft(s, f, k, b);
        return;
      }
      // case 4
      if s.right != null && s.right.color == Red {
        BorrowLeft(parent, s, f, k, b);
        k', done := Borrowed(k), true;
        return;
      }
      assert false;
    }

    /** The mirrored turn. */
    method TurnRight(node: Node?, parent: Node, ghost f: Shape, ghost k: Path, ghost b: int)
      returns (node': Node?, parent': Node?, done: bool, ghost f': Shape, ghost k': Path, ghost b': int)
      requires At(Mem(), root, f, k) && Deficit(f, k, b) && ColorOf(f) == Black
      requires node == Ptr(f) && k.RightOf? && k.node == parent
      modifies `root, nodes
      ensures node' == Ptr(f') && At(Mem(), root, f', k') && All(f', k') == All(f, k)
      ensures done ==> Mended(f', k', b')
      ensures !done ==> Deficit(f', k', b') && parent' == Above(k')
      ensures !done ==> Distance(f', k') < Distance(f, k) || (Distance(f', k') == Distance(f, k) && Turns(k') < Turns(k))
    {
      hide At, Deficit, All, Mended, SwappedUp, HandedUp, Borrowed, Distance, Turns, Inorder;
      node', parent', done, f', k', b' := node, parent, false, f, k, b;
      Site(Mem(), root, f, k);
      Near(Mem(), root, f, k, b);
      assert View(parent) == Mem()[parent];
      var s := parent.left;
      assert View(s) == Mem()[s];
      // case 1
      if s.color == Red {
        SwapRight(parent, s, f, k, b);
        k' := SwappedUp(k);
        return;
      }
      // case 2
      if (s.left == null || s.left.color != Red) && (s.right == null || s.right.color != Red) {
        b' := HandUp(parent, s, f, k, b);
        f', k' := HandedUp(f, k), k.up;
        node', parent' := parent, parent.parent;
        return;
      }
      // case 3
      if s.right != null && s.right.color == Red && (s.left == null || s.left.color == Black) {
        k' := TurnInnerRight(s, f, k, b);
        return;
      }
      // case 4
      if s.left != null && s.left.color == Red {
        BorrowRight(parent, s, f, k, b);
        k', done := Borrowed(k), true;
        return;
      }
      assert false;
    }

    /** What the fix-up loop reads at its focus. */
    lemma AtFocus(node: Node?, f: Shape, k: Path, b: int)
      requires node == Ptr(f) && At(Mem(), root, f, k) && Deficit(f, k, b)
      ensures node == root <==> k.Top?
      ensures if node == null then ColorOf(f) == Black else f.Tree? && f.node == node && node in nodes && node.color == ColorOf(f)
      ensures !k.Top? && ColorOf(f) == Black ==> k.node in nodes && Above(k) == k.node && (k.node.left == node <==> k.LeftOf?)
    {
      hide At, Deficit;
      Site(Mem(), root, f, k);
      assert node != null ==> View(node) == Mem()[node];
      if !k.Top? && ColorOf(f) == Black {
        Near(Mem(), root, f, k, b);
        assert View(k.node) == Mem()[k.node];
      }
    }

    /** Behind the loop: the focus is painted black. */
    method Blacken(node: Node?, ghost f: Shape, ghost k: Path, ghost b: int) returns (ghost s': Shape, ghost hs: int)
      requires node == Ptr(f) && At(Mem(), root, f, k) && Mended(f, k, b)
      modifies nodes
      ensures At(Mem(), root, s', Top) && Balanced(s', hs) && ColorOf(s') == Black && Inorder(s') == All(f, k)
    {
      hide At, Mended, All, Inorder, Balanced;
      Site(Mem(), root, f, k);
      s', hs := Mend(Mem(), root, f, k, b);
      if node != null {
        SetColor(node, Black);
      }
    }

    /**
     From a subtree one black node short (it may be empty) to a valid tree with the
     same in-order sequence. Every turn of the loop, each `continue` included,
     lowers the pair (Distance, Turns).
     */
    method EraseFixup(start: Node?, above: Node?, ghost t: Shape, ghost c: Path, ghost h: int) returns (ghost s': Shape, ghost hs: int)
      requires At(Mem(), root, t, c) && Ptr(t) == start && Above(c) == above && Deficit(t, c, h)
      modifies `root, nodes
      ensures At(Mem(), root, s', Top) && Balanced(s', hs) && ColorOf(s') == Black
      ensures Inorder(s') == All(t, c)
    {
      hide At, Deficit, All, Mended, Distance, Turns, Inorder, Balanced, Mem;
      var node, parent, done := start, above, false;
      ghost var f, k, b := t, c, h;
      AtFocus(node, f, k, b);
      while node != root && (node == null || node.color == Black)
        invariant node == Ptr(f) && parent == Above(k)
        invariant At(Mem(), root, f, k) && Deficit(f, k, b) && All(f, k) == All(t, c)
        invariant !done && (node == null || node in nodes)
        decreases Distance(f, k), Turns(k)
      {
        AtFocus(node, f, k, b);
        if node == parent.left {
          node, parent, done, f, k, b := TurnLeft(node, parent, f, k, b);
        } else {
          node, parent, done, f, k, b := TurnRight(node, parent, f, k, b);
        }
        if done {
          break;
        }
        AtFocus(node, f, k, b);
      }
      if !done {
        AtFocus(node, f, k, b);
        Settled(f, k, b);
        b := if ColorOf(f) == Red then b + 1 else b;
      }
      s', hs := Blacken(node, f, k, b);
    }

    /** The node's only child, or nothing, is hung under the node's parent. */
    method Unhook(node: Node, child: Node?)
      requires CanUnhook(Mem(), root, node, child)
      modifies `root, `nodes, nodes
      ensures Mem() == HoistedMem(old(Mem()), node, child) && nodes == old(nodes) - {node}
      ensures root == if old(node.parent) == null then child else old(root)
      ensures View(node) == old(View(node))
    {
      ghost var m := Mem();
      assert View(node) == m[node];
      if node.parent == null {
        root := child;
      } else if node.parent.left == node {
        node.parent.left := child;
      } else {
        node.parent.right := child;
      }
      if child != null {
        child.parent := node.parent;
      }
      nodes := nodes - {node};
      forall n <- nodes ensures View(n) == HoistedCell(m, node, child, n) {
        assert m[n] == old(View(n));
        assert n != child && n != m[node].parent ==> View(n) == old(View(n));
      }
    }

    /** The successor leaves its place to its right child and takes over the node's right subtree. */
    method Detach(node: Node, replace: Node)
      requires CanSucceed(Mem(), root, node, replace)
      modifies nodes
      ensures Detached(old(Mem()), Mem(), node, replace)
    {
      ghost var m, x, q := Mem(), replace.right, replace.parent;
      assert View(node) == m[node] && View(replace) == m[replace];
      if replace.parent != node {
        if replace.right != null {
          replace.right.parent := replace.parent;
        }
        replace.parent.left := replace.right;
        replace.right := node.right;
        node.right.parent := replace;
      }
      forall n <- nodes ensures View(n) == DetachedCell(m, node, replace, n) {
        assert m[n] == old(View(n));
        assert n !in {replace, m[node].right, q} && n != x ==> View(n) == old(View(n));
      }
    }

    /** The successor takes over the node's left subtree, parent and colour. */
    method Seat(node: Node, replace: Node)
      requires CanSeat(Mem(), root, node, replace)
      modifies `root, `nodes, nodes
      ensures Seated(old(Mem()), Mem(), node, replace) && nodes == old(nodes) - {node}
      ensures root == if old(node.parent) == null then replace else old(root)
    {
      ghost var m := Mem();
      assert View(node) == m[node] && View(replace) == m[replace];
      replace.left := node.left;
      node.left.parent := replace;
      if node.parent == null {
        root := replace;
      } else if node.parent.left == node {
        node.parent.left := replace;
      } else {
        node.parent.right := replace;
      }
      replace.parent := node.parent;
      replace.color := node.color;
      nodes := nodes - {node};
      forall n <- nodes ensures View(n) == SeatedCell(m, node, replace, n) {
        assert m[n] == old(View(n));
        assert n !in {replace, m[node].left} && n != m[node].parent ==> View(n) == old(View(n));
      }
    }

    /** The successor leaves its place to its right child and takes the node's links and colour. */
    method Exchange(node: Node, replace: Node)
      requires CanSucceed(Mem(), root, node, replace)
      modifies `root, `nodes, nodes
      ensures Mem() == SucceededMem(old(Mem()), node, replace, old(replace.right)) && nodes == old(nodes) - {node}
      ensures root == if old(node.parent) == null then replace else old(root)
    {
      hide Detached, Seated, CanSeat, SucceededMem;
      ghost var m := Mem();
      assert m[node] == View(node) && m[replace] == View(replace);
      Detach(node, replace);
      ghost var m1 := Mem();
      DetachedSeat(m, m1, root, node, replace);
      assert m1[node] == View(node);
      Seat(node, replace);
      ExchangeIsSuccession(m, m1, Mem(), old(root), node, replace);
    }

    /** The end of every erasure: a removed black node calls for the fix-up. */
    method Restore(child: Node?, above: Node?, removed: Color, ghost x: Shape, ghost c: Path, ghost h: int)
      returns (ghost s: Shape, ghost hs: int)
      requires At(Mem(), root, x, c) && Ptr(x) == child && Above(c) == above && Missing(x, c, h, removed)
      modifies `root, nodes
      ensures At(Mem(), root, s, Top) && Balanced(s, hs) && ColorOf(s) == Black && Inorder(s) == All(x, c)
    {
      hide At, Deficit, All, Inorder;
      if removed == Black {
        s, hs := EraseFixup(child, above, x, c, h - 1);
      } else {
        s, hs := CloseUp(Mem(), root, x, c, h);
      }
    }

    /** Erasing a node with at most one child. */
    method EraseOuter(node: Node, child: Node?, ghost t: Shape, ghost c: Path, ghost b: int, ghost x: Shape)
      returns (ghost s: Shape, ghost hs: int)
      requires At(Mem(), root, t, c) && Sits(t, c, b) && t.Tree? && t.node == node && Ptr(x) == child
      requires (t.left.Leaf? && x == t.right) || (t.right.Leaf? && x == t.left)
      modifies `root, `nodes, nodes
      ensures nodes == old(nodes) - {node}
      ensures At(Mem(), root, s, Top) && Balanced(s, hs) && ColorOf(s) == Black && Inorder(s) == All(x, c)
    {
      hide At, Sits, CanUnhook, HoistedMem, Missing;
      UnhookSite(Mem(), root, t, c, x);
      Hoist(Mem(), root, t, c, x);
      HoistedBalance(t, c, b, x);
      SameRoot(Mem(), root, t, c);
      assert View(node) == Mem()[node];
      Unhook(node, child);
      s, hs := Restore(child, node.parent, node.color, x, c, b);
    }

    /** Erasing the only node of a tree. */
    method EraseOnly(node: Node, ghost t: Shape) returns (ghost s: Shape, ghost hs: int)
      requires At(Mem(), root, t, Top) && t.Tree? && t.node == node && t.left.Leaf? && t.right.Leaf?
      modifies `root, `nodes
      ensures nodes == old(nodes) - {node}
      ensures At(Mem(), root, s, Top) && Balanced(s, hs) && ColorOf(s) == Black && Inorder(s) == All(Leaf, Top)
    {
      AtNodes(Mem(), root, t, Top);
      root := null;
      nodes := nodes - {node};
      s, hs := Leaf, 0;
    }

    /** The leftmost node of the right subtree. */
    method Successor(node: Node, ghost t: Shape, ghost c: Path, ghost b: int)
      returns (replace: Node, ghost e: Path, ghost f: Shape, ghost b': int)
      requires At(Mem(), root, t, c) && Sits(t, c, b) && t.Tree? && t.node == node && t.left.Tree? && t.right.Tree?
      ensures f.Tree? && f.left.Leaf? && f.node == replace && SuccessorAt(t, c, e, f)
      ensures var d := Under(e, RightOf(t.left, t.node, t.color, c));
              At(Mem(), root, f, d) && Sits(f, d, b') && All(f, d) == All(t, c)
    {
      hide At, Sits, All, SuccessorAt, Under;
      ghost var d := RightOf(t.left, t.node, t.color, c);
      UnhookSite(Mem(), root, t, c, t.right);
      assert View(node) == Mem()[node];
      SitsBelow(t, c, b);
      AllBelow(t, c);
      MoveRight(Mem(), root, t, c);
      SpineTop(t, c);
      SpineTop(t, d);
      replace := node.right;
      e, f, b' := Top, t.right, Below(t, b);
      assert replace == f.node;
      UnhookSite(Mem(), root, f, d, f.left);
      assert View(replace) == Mem()[replace];
      while replace.left != null
        invariant f.Tree? && replace == f.node && replace in nodes && replace.left == Ptr(f.left)
        invariant SuccessorAt(t, c, e, f)
        invariant At(Mem(), root, f, Under(e, d)) && Sits(f, Under(e, d), b') && All(f, Under(e, d)) == All(t, c)
        decreases f
      {
        MoveLeft(Mem(), root, f, Under(e, d));
        SitsBelow(f, Under(e, d), b');
        AllBelow(f, Under(e, d));
        SpineDown(t, c, e, f);
        replace := replace.left;
        e, f, b' := LeftOf(f.node, f.color, f.right, e), f.left, Below(f, b');
        UnhookSite(Mem(), root, f, Under(e, d), f.left);
        assert View(replace) == Mem()[replace];
      }
    }

    /** Erasing a node with two children: its successor takes its place. */
    method EraseInner(node: Node, ghost t: Shape, ghost c: Path, ghost b: int)
      returns (ghost s: Shape, ghost hs: int)
      requires At(Mem(), root, t, c) && Sits(t, c, b) && t.Tree? && t.node == node && t.left.Tree? && t.right.Tree?
      modifies `root, `nodes, nodes
      ensures nodes == old(nodes) - {node}
      ensures At(Mem(), root, s, Top) && Balanced(s, hs) && ColorOf(s) == Black
      ensures Inorder(s) == Without(All(t, c), node)
      ensures Sorted(All(t, c)) ==> Sorted(Inorder(s))
    {
      hide At, Sits, CanSucceed, SucceededMem, Missing, All, Sorted, Without, SuccessorAt, Inorder, Under;
      ghost var m := Mem();
      var replace;
      ghost var e, f, b';
      replace, e, f, b' := Successor(node, t, c, b);
      SuccessorSite(m, root, t, c, e, f);
      SuccessorIn(m, root, node, replace);
      assert View(node) == m[node] && View(replace) == m[replace];
      var child := replace.right;
      var parent := replace.parent;
      var color := replace.color;
      if replace.parent == node {
        parent := replace;
      }
      Succeed(m, root, t, c, e, f);
      SucceededBalance(t, c, e, f, b');
      AtNodes(m, root, t, c);
      SucceededOrder(t, c, e, f);
      SameRoot(m, root, t, c);
      UnderAbove(e, RightOf(t.left, f.node, t.color, c));
      SpineApart(m, root, t, c, e, f);
      Exchange(node, replace);
      s, hs := Restore(child, parent, color, f.right, Under(e, RightOf(t.left, replace, t.color, c)), b');
    }

    /** The three ways to erase: no child, one child, two children. */
    method EraseAt(node: Node, ghost t: Shape, ghost c: Path, ghost b: int) returns (ghost s: Shape, ghost hs: int)
      requires At(Mem(), root, t, c) && Sits(t, c, b) && t.Tree? && t.node == node
      modifies `root, `nodes, nodes
      ensures nodes == old(nodes) - {node}
      ensures At(Mem(), root, s, Top) && Balanced(s, hs) && ColorOf(s) == Black
      ensures Inorder(s) == Without(All(t, c), node)
      ensures Sorted(All(t, c)) ==> Sorted(Inorder(s))
    {
      hide At, Balanced, Sits, Sorted, Without, Inorder, All;
      UnhookSite(Mem(), root, t, c, t.left);
      SameRoot(Mem(), root, t, c);
      assert View(node) == Mem()[node];
      if node.left == null && node.right == null {
        HoistedOrder(Mem(), root, t, c, Leaf);
        if node.parent == null {
          s, hs := EraseOnly(node, t);
        } else {
          s, hs := EraseOuter(node, null, t, c, b, Leaf);
        }
      } else if node.left == null || node.right == null {
        var child := if node.left != null then node.left else node.right;
        ghost var x := if t.left.Tree? then t.left else t.right;
        HoistedOrder(Mem(), root, t, c, x);
        s, hs := EraseOuter(node, child, t, c, b, x);
      } else {
        s, hs := EraseInner(node, t, c, b);
      }
    }

    /** Removes one node; the others keep their order. */
    method Erase(node: Node)
      requires Valid() && node in nodes
      modifies this, nodes
      ensures Valid() && nodes == old(nodes) - {node}
      ensures Contents() == Without(old(Contents()), node)
    {
      hide At, Balanced, Sits, Sorted, Without, Inorder;
      ghost var h :| Balanced(shape, h);
      WholeSits(shape, h);
      AtNodes(Mem(), root, shape, Top);
      ghost var t, c, b := Locate(Mem(), root, shape, Top, h, node);
      ghost var s, hs := EraseAt(node, t, c, b);
      ghost var m := Mem();
      shape := s;
      assert Mem() == m;
    }

    // ---------- search ----------

    function FindFrom(n: Node?, v: int, ghost t: Shape, ghost p: Node?): (r: Node?)
      requires Rep(Mem(), t, p) && n == Ptr(t)
      reads this, nodes
      ensures r == Hit(t, v)
      decreases t
    {
      if n == null then null
      else
        assert View(n) == Mem()[n];
        if n.value == v then n
        else if n.value > v then FindFrom(n.left, v, t.left, n)
        else FindFrom(n.right, v, t.right, n)
    }

    /** Succeeds exactly when the key is present. */
    function Find(v: int): (r: Node?)
      requires Valid()
      reads this, nodes
      ensures r != null <==> exists n <- Contents() :: n.value == v
      ensures r != null ==> r in nodes && r in Contents() && r.value == v
    {
      HitExists(shape, v);
      HitNode(shape, v);
      FindFrom(root, v, shape, null)
    }

    /** Removes one node with the key, if there is one. */
    method EraseValue(v: int) returns (node: Node?)
      requires Valid()
      modifies this, nodes
      ensures Valid()
      ensures node != null <==> exists n <- old(Contents()) :: n.value == v
      ensures node == null ==> nodes == old(nodes) && Contents() == old(Contents())
      ensures node != null ==> node in old(nodes) && node.value == v && nodes == old(nodes) - {node}
      ensures node != null ==> Contents() == Without(old(Contents()), node)
    {
      node := Find(v);
      if node != null {
        Erase(node);
      }
    }

    lemma HeightOfTree()
      requires Valid()
      ensures Pow2(Height(shape)) <= (|Contents()| + 1) * (|Contents()| + 1)
    {
      var h :| Balanced(shape, h);
      LogarithmicHeight(shape, h);
    }
  }
}
