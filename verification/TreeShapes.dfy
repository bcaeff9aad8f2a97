/**
 Values for reasoning about a binary tree of nodes linked in the heap: the shape of
 a tree, the surroundings of a subtree (a Path), the mutable fields of all nodes as
 one map (a Memory), and what rotations and recolourings do to them.

 A shape says nothing of pointers; `Rep` and `RepPath` say that the memory holds a
 shape and its surroundings, parent pointers included. Balance and order are
 predicates of a shape and its nodes in order.
 */
module TreeShapes {

  datatype Color = Red | Black

  class Node {
    var parent: Node?
    var left: Node?
    var right: Node?
    var color: Color
    const value: int

    constructor (t: int)
      ensures value == t && parent == null && left == null && right == null && color == Red
    {
      value := t;
      parent, left, right, color := null, null, null, Red;
    }
  }

  datatype Shape = Leaf | Tree(left: Shape, node: Node, color: Color, right: Shape)

  /** The surroundings of a subtree, innermost parent first. */
  datatype Path =
    | Top
    | LeftOf(node: Node, color: Color, right: Shape, up: Path)    // the subtree is node's left child
    | RightOf(left: Shape, node: Node, color: Color, up: Path)    // the subtree is node's right child

  // ---------- shapes and paths as values ----------

  ghost function Nodes(t: Shape): set<Node> {
    if t.Leaf? then {} else Nodes(t.left) + {t.node} + Nodes(t.right)
  }

  ghost function PathNodes(c: Path): set<Node> {
    match c
    case Top => {}
    case LeftOf(n, _, r, up) => {n} + Nodes(r) + PathNodes(up)
    case RightOf(l, n, _, up) => {n} + Nodes(l) + PathNodes(up)
  }

  ghost predicate Distinct(t: Shape) {
    t.Tree? ==>
      && t.node !in Nodes(t.left) && t.node !in Nodes(t.right) && Nodes(t.left) !! Nodes(t.right)
      && Distinct(t.left) && Distinct(t.right)
  }

  ghost predicate DistinctPath(c: Path) {
    match c
    case Top => true
    case LeftOf(n, _, r, up) =>
      n !in Nodes(r) && n !in PathNodes(up) && Nodes(r) !! PathNodes(up) && Distinct(r) && DistinctPath(up)
    case RightOf(l, n, _, up) =>
      n !in Nodes(l) && n !in PathNodes(up) && Nodes(l) !! PathNodes(up) && Distinct(l) && DistinctPath(up)
  }

  ghost function Ptr(t: Shape): Node? { if t.Leaf? then null else t.node }

  /** The parent of the subtree. */
  ghost function Above(c: Path): Node? { if c.Top? then null else c.node }

  /** The root of the whole tree, given the root of the subtree. */
  ghost function RootPtr(c: Path, p: Node?): Node? {
    if c.Top? then p else RootPtr(c.up, c.node)
  }

  // ---------- memory: the mutable fields of the nodes, as a value ----------

  datatype Cell = Cell(parent: Node?, left: Node?, right: Node?, color: Color)

  type Memory = map<Node, Cell>

  ghost function View(n: Node): Cell
    reads n
  {
    Cell(n.parent, n.left, n.right, n.color)
  }

  /** The links and colours in memory m are those of shape t, hanging under `parent`. */
  ghost predicate Rep(m: Memory, t: Shape, parent: Node?) {
    t.Tree? ==>
      && t.node in m && m[t.node] == Cell(parent, Ptr(t.left), Ptr(t.right), t.color)
      && Rep(m, t.left, t.node) && Rep(m, t.right, t.node)
  }

  ghost predicate RepPath(m: Memory, c: Path, p: Node?) {
    match c
    case Top => true
    case LeftOf(n, color, r, up) =>
      n in m && m[n] == Cell(Above(up), p, Ptr(r), color) && Rep(m, r, n) && RepPath(m, up, n)
    case RightOf(l, n, color, up) =>
      n in m && m[n] == Cell(Above(up), Ptr(l), p, color) && Rep(m, l, n) && RepPath(m, up, n)
  }

  ghost predicate Same(m: Memory, m': Memory, s: set<Node>) {
    forall n <- s :: n in m ==> n in m' && m'[n] == m[n]
  }

  lemma {:induction false} RepFrame(m: Memory, m': Memory, t: Shape, p: Node?)
    requires Rep(m, t, p) && Same(m, m', Nodes(t))
    ensures Rep(m', t, p)
  {
    if t.Tree? {
      RepFrame(m, m', t.left, t.node);
      RepFrame(m, m', t.right, t.node);
    }
  }

  /** Hanging a subtree under another parent changes one link. */
  lemma Reparented(m: Memory, m': Memory, t: Shape, p: Node?, q: Node?)
    requires Rep(m, t, p) && Distinct(t) && Same(m, m', Nodes(t) - {Ptr(t)})
    requires t.Tree? ==> t.node in m' && m'[t.node] == m[t.node].(parent := q)
    ensures Rep(m', t, q)
  {
    if t.Tree? {
      RepFrame(m, m', t.left, t.node);
      RepFrame(m, m', t.right, t.node);
    }
  }

  lemma {:induction false} PathFrame(m: Memory, m': Memory, c: Path, p: Node?)
    requires RepPath(m, c, p) && Same(m, m', PathNodes(c))
    ensures RepPath(m', c, p)
  {
    match c
    case Top =>
    case LeftOf(n, _, r, up) => RepFrame(m, m', r, n); PathFrame(m, m', up, n);
    case RightOf(l, n, _, up) => RepFrame(m, m', l, n); PathFrame(m, m', up, n);
  }

  /** The cell of the node above a path's hole once the hole is filled by another node. */
  function Refilled(c: Path, cell: Cell, p: Node?): Cell {
    if c.LeftOf? then cell.(left := p) else cell.(right := p)
  }

  lemma PathRefill(m: Memory, m': Memory, c: Path, p: Node?, q: Node?)
    requires RepPath(m, c, p) && DistinctPath(c) && Same(m, m', PathNodes(c) - {Above(c)})
    requires !c.Top? ==> c.node in m' && c.node in m && m'[c.node] == Refilled(c, m[c.node], q)
    ensures RepPath(m', c, q)
  {
    match c
    case Top =>
    case LeftOf(n, _, r, up) => RepFrame(m, m', r, n); PathFrame(m, m', up, n);
    case RightOf(l, n, _, up) => RepFrame(m, m', l, n); PathFrame(m, m', up, n);
  }

  // ---------- rotations ----------

  function RotateLeft(t: Shape): Shape
    requires t.Tree? && t.right.Tree?
  {
    Tree(Tree(t.left, t.node, t.color, t.right.left), t.right.node, t.right.color, t.right.right)
  }

  function RotateRight(t: Shape): Shape
    requires t.Tree? && t.left.Tree?
  {
    Tree(t.left.left, t.left.node, t.left.color, Tree(t.left.right, t.node, t.color, t.right))
  }

  lemma RotateLeftNodes(t: Shape)
    requires t.Tree? && t.right.Tree?
    ensures Nodes(RotateLeft(t)) == Nodes(t) == Nodes(t.left) + {t.node} + Nodes(t.right.left) + {t.right.node} + Nodes(t.right.right)
    ensures Distinct(RotateLeft(t)) == Distinct(t)
  {
    var l := RotateLeft(t).left;
    assert Nodes(l) == Nodes(t.left) + {t.node} + Nodes(t.right.left);
    assert Nodes(t.right) == Nodes(t.right.left) + {t.right.node} + Nodes(t.right.right);
  }

  lemma RotateRightNodes(t: Shape)
    requires t.Tree? && t.left.Tree?
    ensures Nodes(RotateRight(t)) == Nodes(t) == Nodes(t.left.left) + {t.left.node} + Nodes(t.left.right) + {t.node} + Nodes(t.right)
    ensures Distinct(RotateRight(t)) == Distinct(t)
  {
    var r := RotateRight(t).right;
    assert Nodes(r) == Nodes(t.left.right) + {t.node} + Nodes(t.right);
    assert Nodes(t.left) == Nodes(t.left.left) + {t.left.node} + Nodes(t.left.right);
  }

  lemma RootInNodes(t: Shape)
    ensures t.Tree? ==> t.node in Nodes(t)
  {
  }

  lemma AboveInPath(c: Path)
    ensures !c.Top? ==> c.node in PathNodes(c)
  {
  }

  /** A whole tree in memory: subtree t, surroundings c, and the root pointer. */
  ghost predicate At(m: Memory, root: Node?, t: Shape, c: Path) {
    && Distinct(t) && DistinctPath(c) && Nodes(t) !! PathNodes(c)
    && m.Keys == Nodes(t) + PathNodes(c)
    && Rep(m, t, Above(c)) && RepPath(m, c, Ptr(t))
    && root == RootPtr(c, Ptr(t))
  }

  /** What a left rotation at x with right child y leaves in the cell of n. */
  function LeftRotatedCell(m: Memory, x: Node, y: Node, n: Node): Cell
    requires x in m && y in m && n in m
  {
    if n == x then m[x].(right := m[y].left, parent := y)
    else if n == y then m[y].(left := x, parent := m[x].parent)
    else if n == m[y].left then m[n].(parent := x)
    else if n == m[x].parent then (if m[n].left == x then m[n].(left := y) else m[n].(right := y))
    else m[n]
  }

  /** The memory after the link changes of a left rotation at x with right child y. */
  ghost predicate LeftRotated(m: Memory, m': Memory, x: Node, y: Node)
    requires x in m && y in m
  {
    m'.Keys == m.Keys && forall n <- m :: m'[n] == LeftRotatedCell(m, x, y, n)
  }

  /** The links around x that a left rotation follows are those of a tree. */
  ghost predicate CanRevolveLeft(m: Memory, root: Node?, x: Node) {
    && x in m && m[x].right != null && m[x].right in m && m[x].right != x
    && var y := m[x].right;
       var b, p := m[y].left, m[x].parent;
       && (b != null ==> b in m && b != x && b != y)
       && (if p == null then root == x else p in m && p != x && p != y && p != b && (m[p].left == x || m[p].right == x))
  }

  lemma LeftRotationSite(m: Memory, root: Node?, t: Shape, c: Path)
    requires At(m, root, t, c) && t.Tree? && t.right.Tree?
    ensures CanRevolveLeft(m, root, t.node)
    ensures m[t.node] == Cell(Above(c), Ptr(t.left), t.right.node, t.color)
    ensures m[t.right.node] == Cell(t.node, Ptr(t.right.left), Ptr(t.right.right), t.right.color)
    ensures !c.Top? ==> (m[c.node].left == t.node <==> c.LeftOf?)
  {
    RotateLeftNodes(t);
    RootInNodes(t.right.left);
    AboveInPath(c);
    assert Rep(m, t.right, t.node);
    if c.RightOf? { RootInNodes(c.left); }
  }

  lemma LeftRotationParts(m: Memory, m': Memory, root: Node?, t: Shape, c: Path)
    requires At(m, root, t, c) && t.Tree? && t.right.Tree?
    requires CanRevolveLeft(m, root, t.node) && m[t.node].right == t.right.node && LeftRotated(m, m', t.node, t.right.node)
    ensures Same(m, m', Nodes(t.left)) && Same(m, m', Nodes(t.right.right))
    ensures Same(m, m', Nodes(t.right.left) - {Ptr(t.right.left)}) && Same(m, m', PathNodes(c) - {Above(c)})
  {
    LeftRotationSite(m, root, t, c);
    RotateLeftNodes(t);
    RootInNodes(t.right.left);
    AboveInPath(c);
  }

  lemma LeftRotation(m: Memory, m': Memory, root: Node?, t: Shape, c: Path)
    requires At(m, root, t, c) && t.Tree? && t.right.Tree?
    requires CanRevolveLeft(m, root, t.node) && m[t.node].right == t.right.node && LeftRotated(m, m', t.node, t.right.node)
    ensures At(m', if c.Top? then t.right.node else root, RotateLeft(t), c)
  {
    hide Nodes, PathNodes, Same;
    var x, y, a, b, d := t.node, t.right.node, t.left, t.right.left, t.right.right;
    LeftRotationSite(m, root, t, c);
    LeftRotationParts(m, m', root, t, c);
    RotateLeftNodes(t);
    assert Rep(m, t.right, x);
    RepFrame(m, m', a, x);
    RepFrame(m, m', d, y);
    Reparented(m, m', b, y, x);
    PathRefill(m, m', c, x, y);
    assert Rep(m', RotateLeft(t).left, y);
  }

  /** What a right rotation at x with left child y leaves in the cell of n. */
  function RightRotatedCell(m: Memory, x: Node, y: Node, n: Node): Cell
    requires x in m && y in m && n in m
  {
    if n == x then m[x].(left := m[y].right, parent := y)
    else if n == y then m[y].(right := x, parent := m[x].parent)
    else if n == m[y].right then m[n].(parent := x)
    else if n == m[x].parent then (if m[n].left == x then m[n].(left := y) else m[n].(right := y))
    else m[n]
  }

  /** The memory after the link changes of a right rotation at x with left child y. */
  ghost predicate RightRotated(m: Memory, m': Memory, x: Node, y: Node)
    requires x in m && y in m
  {
    m'.Keys == m.Keys && forall n <- m :: m'[n] == RightRotatedCell(m, x, y, n)
  }

  /** The links around x that a right rotation follows are those of a tree. */
  ghost predicate CanRevolveRight(m: Memory, root: Node?, x: Node) {
    && x in m && m[x].left != null && m[x].left in m && m[x].left != x
    && var y := m[x].left;
       var b, p := m[y].right, m[x].parent;
       && (b != null ==> b in m && b != x && b != y)
       && (if p == null then root == x else p in m && p != x && p != y && p != b && (m[p].left == x || m[p].right == x))
  }

  lemma RightRotationSite(m: Memory, root: Node?, t: Shape, c: Path)
    requires At(m, root, t, c) && t.Tree? && t.left.Tree?
    ensures CanRevolveRight(m, root, t.node)
    ensures m[t.node] == Cell(Above(c), t.left.node, Ptr(t.right), t.color)
    ensures m[t.left.node] == Cell(t.node, Ptr(t.left.left), Ptr(t.left.right), t.left.color)
    ensures !c.Top? ==> (m[c.node].left == t.node <==> c.LeftOf?)
  {
    RotateRightNodes(t);
    RootInNodes(t.left.right);
    AboveInPath(c);
    assert Rep(m, t.left, t.node);
    if c.RightOf? { RootInNodes(c.left); }
  }

  lemma RightRotationParts(m: Memory, m': Memory, root: Node?, t: Shape, c: Path)
    requires At(m, root, t, c) && t.Tree? && t.left.Tree?
    requires CanRevolveRight(m, root, t.node) && m[t.node].left == t.left.node && RightRotated(m, m', t.node, t.left.node)
    ensures Same(m, m', Nodes(t.right)) && Same(m, m', Nodes(t.left.left))
    ensures Same(m, m', Nodes(t.left.right) - {Ptr(t.left.right)}) && Same(m, m', PathNodes(c) - {Above(c)})
  {
    RightRotationSite(m, root, t, c);
    RotateRightNodes(t);
    RootInNodes(t.left.right);
    AboveInPath(c);
  }

  lemma RightRotation(m: Memory, m': Memory, root: Node?, t: Shape, c: Path)
    requires At(m, root, t, c) && t.Tree? && t.left.Tree?
    requires CanRevolveRight(m, root, t.node) && m[t.node].left == t.left.node && RightRotated(m, m', t.node, t.left.node)
    ensures At(m', if c.Top? then t.left.node else root, RotateRight(t), c)
  {
    hide Nodes, PathNodes, Same;
    var x, y, a, b, d := t.node, t.left.node, t.right, t.left.right, t.left.left;
    RightRotationSite(m, root, t, c);
    RightRotationParts(m, m', root, t, c);
    RotateRightNodes(t);
    assert Rep(m, t.left, x);
    RepFrame(m, m', a, x);
    RepFrame(m, m', d, y);
    Reparented(m, m', b, y, x);
    PathRefill(m, m', c, x, y);
    assert Rep(m', RotateRight(t).right, y);
  }

  // ---------- moving the focus, recolouring ----------

  /** The subtree one level up. */
  ghost function Joined(t: Shape, c: Path): (r: Shape)
    requires !c.Top?
    ensures r.Tree?
  {
    if c.LeftOf? then Tree(t, c.node, c.color, c.right) else Tree(c.left, c.node, c.color, t)
  }

  lemma MoveUp(m: Memory, root: Node?, t: Shape, c: Path)
    requires At(m, root, t, c) && !c.Top?
    ensures At(m, root, Joined(t, c), c.up)
  {
  }

  lemma MoveLeft(m: Memory, root: Node?, t: Shape, c: Path)
    requires At(m, root, t, c) && t.Tree?
    ensures At(m, root, t.left, LeftOf(t.node, t.color, t.right, c))
  {
  }

  lemma MoveRight(m: Memory, root: Node?, t: Shape, c: Path)
    requires At(m, root, t, c) && t.Tree?
    ensures At(m, root, t.right, RightOf(t.left, t.node, t.color, c))
  {
  }

  /** What the focus tells about the pointers a loop compares. */
  lemma Site(m: Memory, root: Node?, t: Shape, c: Path)
    requires At(m, root, t, c)
    ensures t.Tree? ==> t.node in m && m[t.node] == Cell(Above(c), Ptr(t.left), Ptr(t.right), t.color)
    ensures !c.Top? ==> c.node in m && m[c.node].color == c.color && c.node != Ptr(t)
                        && (if c.LeftOf? then m[c.node].left == Ptr(t) && m[c.node].right == Ptr(c.right)
                            else m[c.node].right == Ptr(t) && m[c.node].left == Ptr(c.left))
    ensures c.RightOf? && c.left.Tree? ==> m[c.node].left != Ptr(t)
    ensures (root == Ptr(t) <==> c.Top?) || t.Leaf?
    ensures !c.Top? ==> root != null
    ensures root != null ==> root in m
    ensures c.Top? ==> root == Ptr(t)
  {
    AboveInPath(c);
    if c.RightOf? { RootInNodes(c.left); }
    RootOfPath(c, Ptr(t));
  }

  lemma RootOfPath(c: Path, p: Node?)
    ensures if c.Top? then RootPtr(c, p) == p else RootPtr(c, p) in PathNodes(c)
  {
  }

  function Recolored(t: Shape, k: Color): Shape {
    if t.Leaf? then t else t.(color := k)
  }

  function Painted(m: Memory, n: Node, k: Color): Memory {
    if n in m then m[n := m[n].(color := k)] else m
  }

  lemma PaintRoot(m: Memory, root: Node?, t: Shape, c: Path, k: Color)
    requires At(m, root, t, c) && t.Tree?
    ensures At(Painted(m, t.node, k), root, t.(color := k), c)
  {
    var m' := Painted(m, t.node, k);
    RepFrame(m, m', t.left, t.node);
    RepFrame(m, m', t.right, t.node);
    PathFrame(m, m', c, t.node);
  }

  lemma PaintLeft(m: Memory, root: Node?, t: Shape, c: Path, k: Color)
    requires At(m, root, t, c) && t.Tree? && t.left.Tree?
    ensures At(Painted(m, t.left.node, k), root, t.(left := t.left.(color := k)), c)
  {
    hide At;
    MoveLeft(m, root, t, c);
    PaintRoot(m, root, t.left, LeftOf(t.node, t.color, t.right, c), k);
    MoveUp(Painted(m, t.left.node, k), root, t.left.(color := k), LeftOf(t.node, t.color, t.right, c));
  }

  lemma PaintRight(m: Memory, root: Node?, t: Shape, c: Path, k: Color)
    requires At(m, root, t, c) && t.Tree? && t.right.Tree?
    ensures At(Painted(m, t.right.node, k), root, t.(right := t.right.(color := k)), c)
  {
    hide At;
    MoveRight(m, root, t, c);
    PaintRoot(m, root, t.right, RightOf(t.left, t.node, t.color, c), k);
    MoveUp(Painted(m, t.right.node, k), root, t.right.(color := k), RightOf(t.left, t.node, t.color, c));
  }

  // ---------- in-order sequence ----------

  ghost function Inorder(t: Shape): seq<Node> {
    if t.Leaf? then [] else Inorder(t.left) + [t.node] + Inorder(t.right)
  }

  ghost function Before(c: Path): seq<Node> {
    match c
    case Top => []
    case LeftOf(_, _, _, up) => Before(up)
    case RightOf(l, n, _, up) => Before(up) + (Inorder(l) + [n])
  }

  ghost function After(c: Path): seq<Node> {
    match c
    case Top => []
    case LeftOf(n, _, r, up) => ([n] + Inorder(r)) + After(up)
    case RightOf(_, _, _, up) => After(up)
  }

  /** The in-order sequence of the whole tree around the focus. */
  ghost function All(t: Shape, c: Path): seq<Node> {
    Before(c) + Inorder(t) + After(c)
  }

  lemma AllJoined(t: Shape, c: Path)
    requires !c.Top?
    ensures All(Joined(t, c), c.up) == All(t, c)
  {
  }

  lemma RotateLeftInorder(t: Shape)
    requires t.Tree? && t.right.Tree?
    ensures Inorder(RotateLeft(t)) == Inorder(t)
  {
    assert Inorder(RotateLeft(t).left) == Inorder(t.left) + [t.node] + Inorder(t.right.left);
  }

  lemma RotateRightInorder(t: Shape)
    requires t.Tree? && t.left.Tree?
    ensures Inorder(RotateRight(t)) == Inorder(t)
  {
    assert Inorder(RotateRight(t).right) == Inorder(t.left.right) + [t.node] + Inorder(t.right);
  }

  lemma {:induction false} InorderNodes(t: Shape, n: Node)
    ensures n in Inorder(t) <==> n in Nodes(t)
  {
    if t.Tree? {
      InorderNodes(t.left, n);
      InorderNodes(t.right, n);
    }
  }

  // ---------- colours and black heights ----------

  function ColorOf(t: Shape): Color { if t.Leaf? then Black else t.color }

  /** No red node has a red child, and every way down from the root meets h black nodes. */
  predicate Balanced(t: Shape, h: int) {
    match t
    case Leaf => h == 0
    case Tree(l, _, Red, r) => ColorOf(l) == Black && ColorOf(r) == Black && Balanced(l, h) && Balanced(r, h)
    case Tree(l, _, Black, r) => Balanced(l, h - 1) && Balanced(r, h - 1)
  }

  /** Putting a balanced subtree of black height h and the given root colour here makes a balanced tree. */
  predicate Fits(c: Path, h: int, k: Color) {
    match c
    case Top => true
    case LeftOf(_, nk, r, up) =>
      Balanced(r, h) && (nk == Red ==> k == Black && ColorOf(r) == Black) && Fits(up, if nk == Red then h else h + 1, nk)
    case RightOf(l, _, nk, up) =>
      Balanced(l, h) && (nk == Red ==> k == Black && ColorOf(l) == Black) && Fits(up, if nk == Red then h else h + 1, nk)
  }

  /** The root of the tree, when it lies in the path, is black. */
  predicate BlackTop(c: Path) {
    c.Top? || (if c.up.Top? then c.color == Black else BlackTop(c.up))
  }

  function Depth(c: Path): nat { if c.Top? then 0 else 1 + Depth(c.up) }

  /** A subtree one black node short: either its root is red and painting it black repairs it, or its black height is one less. */
  predicate Short(t: Shape, h: int) {
    if ColorOf(t) == Red then Balanced(Recolored(t, Black), h + 1) else Balanced(t, h)
  }

  lemma {:induction false} BalancedHeight(t: Shape, h: int)
    requires Balanced(t, h)
    ensures h >= 0 && (t.Tree? && t.color == Black ==> h > 0)
  {
    if t.Tree? {
      BalancedHeight(t.left, if t.color == Red then h else h - 1);
    }
  }

  /** Closing up the path around a fitting subtree gives a balanced tree with the same sequence, in the same memory. */
  lemma {:induction false} CloseUp(m: Memory, root: Node?, t: Shape, c: Path, h: int) returns (s: Shape, hs: int)
    requires At(m, root, t, c) && Balanced(t, h) && Fits(c, h, ColorOf(t)) && BlackTop(c)
    ensures At(m, root, s, Top) && Balanced(s, hs) && Inorder(s) == All(t, c)
    ensures ColorOf(s) == if c.Top? then ColorOf(t) else Black
    decreases c
  {
    if c.Top? {
      s, hs := t, h;
    } else {
      MoveUp(m, root, t, c);
      AllJoined(t, c);
      s, hs := CloseUp(m, root, Joined(t, c), c.up, if c.color == Red then h else h + 1);
    }
  }

  /** A new red node takes the place of an empty subtree. */
  lemma AddLeaf(m: Memory, m': Memory, root: Node?, root': Node?, c: Path, n: Node)
    requires At(m, root, Leaf, c) && n !in m
    requires m'.Keys == m.Keys + {n} && m'[n] == Cell(Above(c), null, null, Red)
    requires forall x <- m :: m'[x] == if x == Above(c) then Refilled(c, m[x], n) else m[x]
    requires root' == if c.Top? then n else root
    ensures At(m', root', Tree(Leaf, n, Red, Leaf), c)
  {
    AboveInPath(c);
    PathRefill(m, m', c, null, n);
  }

  // ---------- order ----------

  predicate Sorted(s: seq<Node>) {
    forall i, j | 0 <= i < j < |s| :: s[i].value <= s[j].value
  }

  /** The number of leading keys that are not greater than v. */
  function UpperBound(s: seq<Node>, v: int): (k: nat)
    ensures k <= |s|
  {
    if s == [] || v < s[0].value then 0 else 1 + UpperBound(s[1..], v)
  }

  /** A sequence with one node added directly behind every key not greater than its own. */
  function Inserted(s: seq<Node>, n: Node): seq<Node> {
    var k := UpperBound(s, n.value);
    s[..k] + [n] + s[k..]
  }

  lemma {:induction false} UpperBoundAt(u: seq<Node>, w: seq<Node>, v: int)
    requires forall n <- u :: n.value <= v
    requires forall n <- w :: v < n.value
    ensures UpperBound(u + w, v) == |u|
  {
    if u == [] {
      assert u + w == w;
      if w != [] { assert w[0] in w; }
    } else {
      assert u[0] in u && (u + w)[0] == u[0] && (u + w)[1..] == u[1..] + w;
      UpperBoundAt(u[1..], w, v);
    }
  }

  lemma InsertedAt(u: seq<Node>, w: seq<Node>, n: Node)
    requires forall x <- u :: x.value <= n.value
    requires forall x <- w :: n.value < x.value
    requires Sorted(u + w)
    ensures Inserted(u + w, n) == u + [n] + w && Sorted(u + [n] + w)
  {
    UpperBoundAt(u, w, n.value);
    var s := u + [n] + w;
    forall i, j | 0 <= i < j < |s| ensures s[i].value <= s[j].value {
      var i', j' := if i < |u| then i else i - 1, if j < |u| then j else j - 1;
      if i != |u| && j != |u| {
        assert s[i] == (u + w)[i'] && s[j] == (u + w)[j'];
      } else if i == |u| {
        assert s[j] in w;
      } else {
        assert s[i] in u;
      }
    }
  }

  /** In a sorted sequence everything around the focus's root is on its side. */
  lemma DescendOrder(t: Shape, c: Path, v: int)
    requires t.Tree? && Sorted(All(t, c))
    requires forall n <- Before(c) :: n.value <= v
    requires forall n <- After(c) :: v < n.value
    ensures v < t.node.value ==> forall n <- After(LeftOf(t.node, t.color, t.right, c)) :: v < n.value
    ensures t.node.value <= v ==> forall n <- Before(RightOf(t.left, t.node, t.color, c)) :: n.value <= v
  {
    var s := All(t, c);
    var k := |Before(c)| + |Inorder(t.left)|;
    assert s[k] == t.node;
    forall n <- Inorder(t.left) ensures n.value <= t.node.value {
      var i :| 0 <= i < |Inorder(t.left)| && Inorder(t.left)[i] == n;
      assert s[|Before(c)| + i] == n;
    }
    forall n <- Inorder(t.right) ensures t.node.value <= n.value {
      var i :| 0 <= i < |Inorder(t.right)| && Inorder(t.right)[i] == n;
      assert s[k + 1 + i] == n;
    }
  }
}
