/**
 Taking one node out of the tree: finding its place, hoisting an only child,
 putting the successor in the place of a node with two children.

 Each of these is a change of the memory (`HoistedMem`, `SucceededMem`). What it
 means is said of shapes: the nodes in order are the old ones without the one
 removed, and at most the subtree that took the freed place is one black node short,
 which is where the fix-up of EraseShapes begins.
 */
module RemovalShapes {
  import opened TreeShapes
  import opened InsertShapes
  import opened EraseShapes

  // ---------- the place of a node ----------

  /** A subtree of a valid tree, in its surroundings. */
  predicate Sits(t: Shape, c: Path, h: int) {
    Balanced(t, h) && Fits(c, h, ColorOf(t)) && BlackTop(c) && (c.Top? ==> ColorOf(t) == Black)
  }

  /** Black height of the children of a node of black height h. */
  function Below(t: Shape, h: int): int { if ColorOf(t) == Red then h else h - 1 }

  lemma SitsBelow(t: Shape, c: Path, h: int)
    requires Sits(t, c, h) && t.Tree?
    ensures Sits(t.left, LeftOf(t.node, t.color, t.right, c), Below(t, h))
    ensures Sits(t.right, RightOf(t.left, t.node, t.color, c), Below(t, h))
  {
  }

  lemma AllBelow(t: Shape, c: Path)
    requires t.Tree?
    ensures All(t.left, LeftOf(t.node, t.color, t.right, c)) == All(t, c)
    ensures All(t.right, RightOf(t.left, t.node, t.color, c)) == All(t, c)
  {
    AllJoined(t.left, LeftOf(t.node, t.color, t.right, c));
    AllJoined(t.right, RightOf(t.left, t.node, t.color, c));
  }

  lemma {:induction false} Locate(m: Memory, root: Node?, t: Shape, c: Path, h: int, n: Node) returns (t': Shape, c': Path, h': int)
    requires At(m, root, t, c) && Sits(t, c, h) && n in Nodes(t)
    ensures At(m, root, t', c') && Sits(t', c', h') && t'.Tree? && t'.node == n && All(t', c') == All(t, c)
    decreases t
  {
    hide At, Sits, All;
    if t.node == n {
      t', c', h' := t, c, h;
    } else {
      SitsBelow(t, c, h);
      AllBelow(t, c);
      if n in Nodes(t.left) {
        MoveLeft(m, root, t, c);
        t', c', h' := Locate(m, root, t.left, LeftOf(t.node, t.color, t.right, c), Below(t, h), n);
      } else {
        MoveRight(m, root, t, c);
        t', c', h' := Locate(m, root, t.right, RightOf(t.left, t.node, t.color, c), Below(t, h), n);
      }
    }
  }

  // ---------- the order without the node ----------

  function Without(s: seq<Node>, n: Node): seq<Node> {
    if s == [] then [] else if s[0] == n then s[1..] else [s[0]] + Without(s[1..], n)
  }

  lemma {:induction false} WithoutAt(u: seq<Node>, n: Node, w: seq<Node>)
    requires n !in u
    ensures Without(u + [n] + w, n) == u + w
  {
    var s := u + [n] + w;
    if u == [] {
      assert s == [n] + w;
    } else {
      assert s[0] == u[0] && s[1..] == u[1..] + [n] + w;
      WithoutAt(u[1..], n, w);
      assert u + w == [u[0]] + (u[1..] + w);
    }
  }

  lemma SortedWithout(u: seq<Node>, n: Node, w: seq<Node>)
    requires Sorted(u + [n] + w)
    ensures Sorted(u + w)
  {
    var s, r := u + [n] + w, u + w;
    forall i, j | 0 <= i < j < |r| ensures r[i].value <= r[j].value {
      assert r[i] == s[if i < |u| then i else i + 1] && r[j] == s[if j < |u| then j else j + 1];
    }
  }

  lemma {:induction false} BeforeInPath(c: Path, n: Node)
    requires n in Before(c)
    ensures n in PathNodes(c)
  {
    match c
    case Top =>
    case LeftOf(_, _, _, up) => BeforeInPath(up, n);
    case RightOf(l, _, _, up) =>
      InorderNodes(l, n);
      if n in Before(up) { BeforeInPath(up, n); }
  }

  lemma InorderParts(t: Shape)
    requires t.Tree?
    ensures Inorder(t) == Inorder(t.left) + [t.node] + Inorder(t.right)
  {
  }

  lemma NotBefore(t: Shape, c: Path)
    requires t.Tree? && Distinct(t) && Nodes(t) !! PathNodes(c)
    ensures t.node !in Before(c) + Inorder(t.left)
  {
    InorderNodes(t.left, t.node);
    if t.node in Before(c) { BeforeInPath(c, t.node); }
  }

  /** What is left when the root of the focus is dropped. */
  lemma AllWithout(t: Shape, c: Path, w: seq<Node>)
    requires t.Tree? && Distinct(t) && Nodes(t) !! PathNodes(c)
    requires w == Inorder(t.right) + After(c)
    ensures All(t, c) == Before(c) + Inorder(t.left) + [t.node] + w
    ensures Without(All(t, c), t.node) == Before(c) + Inorder(t.left) + w
    ensures Sorted(All(t, c)) ==> Sorted(Before(c) + Inorder(t.left) + w)
  {
    hide Inorder, Before, After, Nodes, Distinct, PathNodes, Sorted, Without;
    var u := Before(c) + Inorder(t.left);
    InorderParts(t);
    NotBefore(t, c);
    assert All(t, c) == u + [t.node] + w;
    WithoutAt(u, t.node, w);
    if Sorted(All(t, c)) { SortedWithout(u, t.node, w); }
  }

  // ---------- balance after the removal ----------

  /** x has taken the place of a removed node coloured k. */
  predicate Missing(x: Shape, c: Path, h: int, k: Color) {
    if k == Black then Deficit(x, c, h - 1) else Balanced(x, h) && Fits(c, h, ColorOf(x)) && BlackTop(c) && ColorOf(x) == Black
  }

  /** The only child of a node (or the empty tree) in the node's place. */
  lemma HoistedBalance(t: Shape, c: Path, h: int, x: Shape)
    requires Sits(t, c, h) && t.Tree?
    requires (t.left.Leaf? && x == t.right) || (t.right.Leaf? && x == t.left)
    ensures Missing(x, c, h, t.color)
  {
    if t.color == Red {
      FitsBlack(c, h);
    } else if ColorOf(x) == Red {
      assert Balanced(x, h - 1);
      assert Balanced(Recolored(x, Black), h);
    }
  }

  // ---------- memory: hoisting an only child ----------

  function HoistedCell(m: Memory, z: Node, x: Node?, n: Node): Cell
    requires z in m && n in m
  {
    if n == x then m[n].(parent := m[z].parent)
    else if n == m[z].parent then (if m[n].left == z then m[n].(left := x) else m[n].(right := x))
    else m[n]
  }

  /** The memory after z's only child x (or nothing) has been hung under z's parent. */
  function HoistedMem(m: Memory, z: Node, x: Node?): (r: Memory)
    requires z in m
    ensures r.Keys == m.Keys - {z}
  {
    map n <- m.Keys - {z} :: HoistedCell(m, z, x, n)
  }

  lemma Hoist(m: Memory, root: Node?, t: Shape, c: Path, x: Shape)
    requires At(m, root, t, c) && t.Tree?
    requires (t.left.Leaf? && x == t.right) || (t.right.Leaf? && x == t.left)
    ensures t.node in m && At(HoistedMem(m, t.node, Ptr(x)), if c.Top? then Ptr(x) else root, x, c)
  {
    var m' := HoistedMem(m, t.node, Ptr(x));
    Site(m, root, t, c);
    AboveInPath(c);
    RootInNodes(x);
    assert Nodes(t) == Nodes(x) + {t.node};
    assert Rep(m, x, t.node);
    Reparented(m, m', x, t.node, Above(c));
    PathRefill(m, m', c, t.node, Ptr(x));
  }

  // ---------- memory: one node in the place of another ----------

  function StandInCell(m: Memory, z: Node, y: Node, n: Node): Cell
    requires z in m && (n in m || n == y)
  {
    if n == y then m[z]
    else if n == m[z].left || n == m[z].right then m[n].(parent := y)
    else if n == m[z].parent then (if m[n].left == z then m[n].(left := y) else m[n].(right := y))
    else m[n]
  }

  /** The memory after y, a node outside the tree, has taken z's links and colour. */
  function StandInMem(m: Memory, z: Node, y: Node): (r: Memory)
    requires z in m
    ensures r.Keys == m.Keys - {z} + {y}
  {
    map n <- m.Keys - {z} + {y} :: StandInCell(m, z, y, n)
  }

  lemma StandIn(m: Memory, root: Node?, t: Shape, c: Path, y: Node)
    requires At(m, root, t, c) && t.Tree? && y !in m
    ensures t.node in m && At(StandInMem(m, t.node, y), if c.Top? then y else root, t.(node := y), c)
  {
    var m' := StandInMem(m, t.node, y);
    Site(m, root, t, c);
    AboveInPath(c);
    RootInNodes(t.left);
    RootInNodes(t.right);
    Reparented(m, m', t.left, t.node, y);
    Reparented(m, m', t.right, t.node, y);
    PathRefill(m, m', c, t.node, y);
  }

  // ---------- the way down to the successor ----------

  /** Surroundings inside other surroundings. */
  ghost function Under(e: Path, c: Path): Path {
    match e
    case Top => c
    case LeftOf(n, k, r, up) => LeftOf(n, k, r, Under(up, c))
    case RightOf(l, n, k, up) => RightOf(l, n, k, Under(up, c))
  }

  /** The subtree closed up to the end of the inner surroundings. */
  ghost function Plugged(x: Shape, e: Path): Shape
    decreases e
  {
    if e.Top? then x else Plugged(Joined(x, e), e.up)
  }

  predicate AllLeft(e: Path) { e.Top? || (e.LeftOf? && AllLeft(e.up)) }

  lemma {:induction false} Climb(m: Memory, root: Node?, x: Shape, e: Path, c: Path)
    ensures At(m, root, x, Under(e, c)) <==> At(m, root, Plugged(x, e), c)
    decreases e
  {
    hide At;
    if !e.Top? {
      var d, j := Under(e, c), Joined(x, e);
      assert j == Joined(x, d) && Under(e.up, c) == d.up;
      if At(m, root, x, d) { MoveUp(m, root, x, d); }
      if At(m, root, j, d.up) {
        if e.LeftOf? { MoveLeft(m, root, j, d.up); } else { MoveRight(m, root, j, d.up); }
      }
      Climb(m, root, j, e.up, c);
    }
  }

  /** Balance does not depend on which node stands where. */
  lemma {:induction false} FitsStandIn(e: Path, l: Shape, z: Node, y: Node, k: Color, c: Path, h: int, kx: Color)
    ensures Fits(Under(e, RightOf(l, z, k, c)), h, kx) == Fits(Under(e, RightOf(l, y, k, c)), h, kx)
    ensures BlackTop(Under(e, RightOf(l, z, k, c))) == BlackTop(Under(e, RightOf(l, y, k, c)))
  {
    if !e.Top? {
      FitsStandIn(e.up, l, z, y, k, c, if e.color == Red then h else h + 1, e.color);
    }
  }

  lemma {:induction false} UnderOrder(e: Path, c: Path)
    requires AllLeft(e)
    ensures Before(Under(e, c)) == Before(c) && After(Under(e, c)) == After(e) + After(c)
  {
    if !e.Top? { UnderOrder(e.up, c); }
  }

  /** The memory once the successor y of z, with right child x, has left its place and taken z's. */
  function SucceededMem(m: Memory, z: Node, y: Node, x: Node?): Memory
    requires z in m && y in m && y != z
  {
    StandInMem(HoistedMem(m, y, x), z, y)
  }

  /** t's root has two children, f is the leftmost subtree of the right one. */
  ghost predicate SuccessorAt(t: Shape, c: Path, e: Path, f: Shape) {
    && t.Tree? && t.left.Tree? && t.right == Plugged(f, e) && AllLeft(e) && f.Tree?
  }

  lemma Succeed(m: Memory, root: Node?, t: Shape, c: Path, e: Path, f: Shape)
    requires At(m, root, t, c) && SuccessorAt(t, c, e, f) && f.left.Leaf?
    ensures t.node in m && f.node in m && f.node != t.node
    ensures At(SucceededMem(m, t.node, f.node, Ptr(f.right)), if c.Top? then f.node else root,
               f.right, Under(e, RightOf(t.left, f.node, t.color, c)))
  {
    hide At;
    var z, y, x, l, k := t.node, f.node, f.right, t.left, t.color;
    var d := RightOf(l, z, k, c);
    MoveRight(m, root, t, c);
    Climb(m, root, f, e, d);
    NodesApart(m, root, f, e, d);
    Hoist(m, root, f, Under(e, d), x);
    var m1 := HoistedMem(m, y, Ptr(x));
    assert !Under(e, d).Top?;
    Climb(m1, root, x, e, d);
    var r := Plugged(x, e);
    MoveUp(m1, root, r, d);
    StandIn(m1, root, Joined(r, d), c, y);
    var m2, root2 := StandInMem(m1, z, y), if c.Top? then y else root;
    MoveRight(m2, root2, Tree(l, y, k, r), c);
    Climb(m2, root2, x, e, RightOf(l, y, k, c));
  }

  lemma {:induction false} InUnder(e: Path, c: Path, n: Node)
    requires n in PathNodes(c)
    ensures n in PathNodes(Under(e, c))
  {
    if !e.Top? { InUnder(e.up, c, n); }
  }

  lemma NodesApart(m: Memory, root: Node?, f: Shape, e: Path, d: Path)
    requires At(m, root, f, Under(e, d)) && f.Tree? && !d.Top?
    ensures f.node in m && d.node in m && f.node != d.node
  {
    AboveInPath(d);
    InUnder(e, d, d.node);
    RootInNodes(f);
  }

  /** Balance and order after the successor's move. */
  lemma SucceededBalance(t: Shape, c: Path, e: Path, f: Shape, h: int)
    requires SuccessorAt(t, c, e, f) && f.left.Leaf?
    requires Sits(f, Under(e, RightOf(t.left, t.node, t.color, c)), h)
    ensures Missing(f.right, Under(e, RightOf(t.left, f.node, t.color, c)), h, f.color)
  {
    var d, d' := Under(e, RightOf(t.left, t.node, t.color, c)), Under(e, RightOf(t.left, f.node, t.color, c));
    HoistedBalance(f, d, h, f.right);
    FitsStandIn(e, t.left, t.node, f.node, t.color, c, h, Black);
    FitsStandIn(e, t.left, t.node, f.node, t.color, c, h, ColorOf(f.right));
  }

  lemma SucceededOrder(t: Shape, c: Path, e: Path, f: Shape)
    requires SuccessorAt(t, c, e, f) && f.left.Leaf? && Distinct(t) && Nodes(t) !! PathNodes(c)
    requires All(f, Under(e, RightOf(t.left, t.node, t.color, c))) == All(t, c)
    ensures All(f.right, Under(e, RightOf(t.left, f.node, t.color, c))) == Without(All(t, c), t.node)
    ensures Sorted(All(t, c)) ==> Sorted(Without(All(t, c), t.node))
  {
    hide Inorder, Nodes, Distinct, PathNodes, Sorted, Without, Under, Plugged, AllLeft;
    var b, b' := RightOf(t.left, t.node, t.color, c), RightOf(t.left, f.node, t.color, c);
    var d, d' := Under(e, b), Under(e, b');
    UnderOrder(e, b);
    UnderOrder(e, b');
    InorderParts(f);
    LeafOrder(f.left);
    var u, w, v := Before(c) + Inorder(t.left), Inorder(t.right) + After(c), Inorder(f.right) + After(d);
    AllWithout(t, c, w);
    assert Before(b) == u + [t.node] && Before(b') == u + [f.node] && After(d) == After(d');
    SameTail(u + [t.node], w, [f.node] + v, All(t, c)) by {
      assert All(f, d) == u + [t.node] + ([f.node] + v);
    }
    assert All(f.right, d') == u + ([f.node] + v);
  }

  lemma LeafOrder(t: Shape)
    requires t.Leaf?
    ensures Inorder(t) == []
  {
  }

  lemma SameTail(u: seq<Node>, v: seq<Node>, w: seq<Node>, s: seq<Node>)
    requires s == u + v && s == u + w
    ensures v == w
  {
    assert v == s[|u|..] == w;
  }

  // ---------- the pointers the removal follows ----------

  /** The links around z that unhooking it from its only child x follows are those of a tree. */
  predicate CanUnhook(m: Memory, root: Node?, z: Node, x: Node?) {
    && z in m
    && var p := m[z].parent;
       && (x != null ==> x in m && x != z && x != p)
       && (if p == null then root == z else p in m && p != z && (m[p].left == z || m[p].right == z))
  }

  lemma UnhookSite(m: Memory, root: Node?, t: Shape, c: Path, x: Shape)
    requires At(m, root, t, c) && t.Tree? && (x == t.left || x == t.right)
    ensures CanUnhook(m, root, t.node, Ptr(x))
    ensures m[t.node] == Cell(Above(c), Ptr(t.left), Ptr(t.right), t.color)
    ensures t.left.Tree? ==> t.left.node in m
    ensures t.right.Tree? ==> t.right.node in m
  {
    Site(m, root, t, c);
    AboveInPath(c);
    RootInNodes(t.left);
    RootInNodes(t.right);
  }

  /** The links around z and its successor y that the exchange follows are those of a tree. */
  predicate CanSucceed(m: Memory, root: Node?, z: Node, y: Node) {
    && z in m && y in m && z != y && m[y].left == null
    && var l, r, p, x, q := m[z].left, m[z].right, m[z].parent, m[y].right, m[y].parent;
       && l != null && l in m && l !in {z, y} && l != x && l != q
       && r != null && r in m && r !in {z, l}
       && q != null && q in m && q != y
       && (x != null ==> x in m && x !in {z, y, l, r, q} && x != p)
       && (x != null ==> m[x].parent == y)
       && (if q == z then r == y else r != y && m[q].left == y)
       && (if p == null then root == z else p in m && p !in {z, y, l, r, q} && (m[p].left == z || m[p].right == z))
  }

  lemma {:induction false} PluggedNodes(x: Shape, e: Path)
    ensures Nodes(Plugged(x, e)) == Nodes(x) + PathNodes(e)
    ensures !e.Top? ==> Plugged(x, e).Tree? && Plugged(x, e).node in PathNodes(e)
    decreases e
  {
    if !e.Top? { PluggedNodes(Joined(x, e), e.up); }
  }

  /** The nodes named by CanSucceed are different ones. */
  lemma SuccessorApart(m: Memory, root: Node?, t: Shape, c: Path, e: Path, f: Shape)
    requires At(m, root, t, c) && SuccessorAt(t, c, e, f) && f.left.Leaf?
    requires At(m, root, f, Under(e, RightOf(t.left, t.node, t.color, c)))
    ensures var z, y, l, r, p, x := t.node, f.node, t.left.node, Ptr(t.right), Above(c), Ptr(f.right);
            var q := if e.Top? then z else e.node;
            && z != y && l != z && l != y && l != x && l != q && r != null && r != z && r != l && q != y
            && (x != null ==> x != z && x != y && x != l && x != r && x != q && x != p)
            && (if e.Top? then r == y else r != y && q != z)
            && (p != null ==> p != z && p != y && p != l && p != r && p != q)
    ensures {f.node, t.left.node, if e.Top? then t.node else e.node} <= m.Keys
    ensures t.right.Tree? && t.right.node in m && (f.right.Tree? ==> f.right.node in m) && (c.Top? || c.node in m)
  {
    hide Plugged, RootPtr, Rep, RepPath;
    var d := RightOf(t.left, t.node, t.color, c);
    PluggedNodes(f, e);
    RootInNodes(t.left);
    RootInNodes(t.right);
    RootInNodes(f.right);
    AboveInPath(c);
    AboveInPath(e);
    PluggedTop(f, e);
    UnderNodes(e, d);
  }

  lemma SuccessorCells(m: Memory, root: Node?, t: Shape, c: Path, e: Path, f: Shape)
    requires At(m, root, t, c) && SuccessorAt(t, c, e, f) && f.left.Leaf?
    requires At(m, root, f, Under(e, RightOf(t.left, t.node, t.color, c)))
    ensures t.node in m && m[t.node] == Cell(Above(c), Ptr(t.left), Ptr(t.right), t.color)
    ensures f.node in m && m[f.node] == Cell(if e.Top? then t.node else e.node, null, Ptr(f.right), f.color)
    ensures f.right.Tree? ==> f.right.node in m && m[f.right.node].parent == f.node
    ensures c.Top? ==> root == t.node
    ensures !c.Top? ==> c.node in m && (m[c.node].left == t.node || m[c.node].right == t.node)
    ensures !e.Top? ==> e.node in m && m[e.node].left == f.node
  {
    hide Plugged, Nodes, PathNodes;
    Site(m, root, t, c);
    Site(m, root, f, Under(e, RightOf(t.left, t.node, t.color, c)));
    assert Rep(m, f.right, f.node);
  }

  lemma SuccessorSite(m: Memory, root: Node?, t: Shape, c: Path, e: Path, f: Shape)
    requires At(m, root, t, c) && SuccessorAt(t, c, e, f) && f.left.Leaf?
    requires At(m, root, f, Under(e, RightOf(t.left, t.node, t.color, c)))
    ensures CanSucceed(m, root, t.node, f.node)
    ensures m[t.node] == Cell(Above(c), Ptr(t.left), Ptr(t.right), t.color)
    ensures m[f.node] == Cell(if e.Top? then t.node else e.node, null, Ptr(f.right), f.color)
  {
    hide At, Plugged, Under, AllLeft;
    SuccessorApart(m, root, t, c, e, f);
    SuccessorCells(m, root, t, c, e, f);
  }

  lemma PluggedTop(x: Shape, e: Path)
    ensures e.Top? ==> Plugged(x, e) == x
  {
  }

  lemma {:induction false} UnderNodes(e: Path, c: Path)
    ensures PathNodes(Under(e, c)) == PathNodes(e) + PathNodes(c)
  {
    if !e.Top? { UnderNodes(e.up, c); }
  }

  /** First half of the exchange of z for its successor y: y leaves its place and takes z's right subtree. */
  function DetachedCell(m: Memory, z: Node, y: Node, n: Node): Cell
    requires z in m && y in m && n in m
  {
    var x, q, r := m[y].right, m[y].parent, m[z].right;
    if q == z then m[n]
    else if n == y then m[n].(right := r)
    else if n == x then m[n].(parent := q)
    else if n == q then m[n].(left := x, parent := if n == r then y else m[n].parent)
    else if n == r then m[n].(parent := y)
    else m[n]
  }

  predicate Detached(m: Memory, m': Memory, z: Node, y: Node)
    requires z in m && y in m
  {
    m'.Keys == m.Keys && forall n <- m' :: m'[n] == DetachedCell(m, z, y, n)
  }

  /** Second half: y takes z's left subtree, parent and colour. */
  function SeatedCell(m: Memory, z: Node, y: Node, n: Node): Cell
    requires z in m && y in m && n in m
  {
    if n == y then m[z].(right := m[y].right)
    else if n == m[z].left then m[n].(parent := y)
    else if n == m[z].parent then (if m[n].left == z then m[n].(left := y) else m[n].(right := y))
    else m[n]
  }

  predicate Seated(m: Memory, m': Memory, z: Node, y: Node)
    requires z in m && y in m
  {
    m'.Keys == m.Keys - {z} && forall n <- m' :: m'[n] == SeatedCell(m, z, y, n)
  }

  predicate CanSeat(m: Memory, root: Node?, z: Node, y: Node) {
    && z in m && y in m && z != y
    && var l, p := m[z].left, m[z].parent;
       && l != null && l in m && l !in {z, y}
       && (if p == null then root == z else p in m && p !in {z, y, l} && (m[p].left == z || m[p].right == z))
  }

  lemma DetachedSeat(m: Memory, m1: Memory, root: Node?, z: Node, y: Node)
    requires CanSucceed(m, root, z, y) && Detached(m, m1, z, y)
    ensures CanSeat(m1, root, z, y) && m1[z].parent == m[z].parent
  {
  }

  lemma ExchangeIsSuccession(m: Memory, m1: Memory, m': Memory, root: Node?, z: Node, y: Node)
    requires CanSucceed(m, root, z, y) && Detached(m, m1, z, y) && Seated(m1, m', z, y)
    ensures m' == SucceededMem(m, z, y, m[y].right)
  {
    var h := HoistedMem(m, y, m[y].right);
    forall n <- m' ensures m'[n] == StandInCell(h, z, y, n) {
    }
  }

  /** Balance and order once an only child (or nothing) has taken the place of its parent. */
  lemma HoistedOrder(m: Memory, root: Node?, t: Shape, c: Path, x: Shape)
    requires At(m, root, t, c) && t.Tree?
    requires (t.left.Leaf? && x == t.right) || (t.right.Leaf? && x == t.left)
    ensures All(x, c) == Without(All(t, c), t.node)
    ensures Sorted(All(t, c)) ==> Sorted(Without(All(t, c), t.node))
  {
    hide Inorder, Before, After, Sorted, Without, Rep, RepPath, RootPtr;
    AllWithout(t, c, Inorder(t.right) + After(c));
    LeafOrder(if t.left.Leaf? then t.left else t.right);
    assert Before(c) + Inorder(t.left) + (Inorder(t.right) + After(c)) == All(x, c);
  }

  lemma WholeSits(t: Shape, h: int)
    requires Balanced(t, h) && ColorOf(t) == Black
    ensures Sits(t, Top, h) && All(t, Top) == Inorder(t)
  {
  }

  lemma AtNodes(m: Memory, root: Node?, t: Shape, c: Path)
    requires At(m, root, t, c)
    ensures m.Keys == Nodes(t) + PathNodes(c) && Distinct(t) && Nodes(t) !! PathNodes(c)
  {
  }

  lemma SameRoot(m: Memory, root: Node?, t: Shape, c: Path)
    requires At(m, root, t, c) && t.Tree?
    ensures Above(c) == null <==> c.Top?
    ensures c.Top? ==> root == t.node
  {
  }

  /** One step down the left spine of the right subtree. */
  lemma SpineDown(t: Shape, c: Path, e: Path, f: Shape)
    requires SuccessorAt(t, c, e, f) && f.left.Tree?
    ensures SuccessorAt(t, c, LeftOf(f.node, f.color, f.right, e), f.left)
    ensures Under(LeftOf(f.node, f.color, f.right, e), RightOf(t.left, t.node, t.color, c))
            == LeftOf(f.node, f.color, f.right, Under(e, RightOf(t.left, t.node, t.color, c)))
  {
  }

  lemma SpineTop(t: Shape, c: Path)
    requires t.Tree? && t.left.Tree? && t.right.Tree?
    ensures SuccessorAt(t, c, Top, t.right) && Under(Top, c) == c
  {
  }

  lemma UnderAbove(e: Path, c: Path)
    ensures Above(Under(e, c)) == if e.Top? then Above(c) else e.node
  {
  }

  lemma SpineApart(m: Memory, root: Node?, t: Shape, c: Path, e: Path, f: Shape)
    requires At(m, root, t, c) && SuccessorAt(t, c, e, f)
    ensures !e.Top? ==> e.node != t.node
  {
    PluggedNodes(f, e);
    AboveInPath(e);
  }

  lemma SuccessorIn(m: Memory, root: Node?, z: Node, y: Node)
    requires CanSucceed(m, root, z, y)
    ensures z in m && y in m
  {
  }
}
