// Memory as a value: what the cells of a red-black tree's nodes hold, when a
// memory stands for a tree, and what the pointer surgery does to that.
module RbMemory {
  import opened RbShape

  datatype Cell = Cell(key: Word, left: Node?, right: Node?, parent: Node?, red: bool)

  type Memory = map<Node, Cell>

  ghost predicate HasParent(m: Memory, t: Tree, q: Node) {
    t.Bin? ==> t.node in m && m[t.node].parent == q
  }

  // The memory at `p` is the subtree `t`, up to the parent link of its top.
  ghost predicate Holds(m: Memory, t: Tree, p: Node?, nil: Node) {
    match t
    case Leaf => p == nil
    case Bin(l, n, k, red, r) =>
      && p == n && n != nil && n in m && m[n].key == k && m[n].red == red
      && Holds(m, l, m[n].left, nil) && Holds(m, r, m[n].right, nil)
      && HasParent(m, l, n) && HasParent(m, r, n)
  }

  // The memory around the subtree at `p`, up to `root`, is the path `c`. The
  // parent link of the root is left open: the tree never follows it.
  ghost predicate HoldsPath(m: Memory, c: Path, p: Node?, root: Node?, nil: Node) {
    match c
    case Top => p == root
    case InLeft(up, n, k, red, r) =>
      && n != nil && n in m && m[n].key == k && m[n].red == red
      && m[n].left == p && Holds(m, r, m[n].right, nil) && HasParent(m, r, n)
      && (!up.Top? ==> m[n].parent == up.node)
      && HoldsPath(m, up, n, root, nil)
    case InRight(up, l, n, k, red) =>
      && n != nil && n in m && m[n].key == k && m[n].red == red
      && m[n].right == p && Holds(m, l, m[n].left, nil) && HasParent(m, l, n)
      && (!up.Top? ==> m[n].parent == up.node)
      && HoldsPath(m, up, n, root, nil)
  }

  // The tree at `root` is `t` in the surroundings `c`, and `p` points at `t`.
  ghost predicate At(m: Memory, c: Path, t: Tree, p: Node?, root: Node?, nil: Node) {
    && Apart(c, t)
    && Holds(m, t, p, nil) && HoldsPath(m, c, p, root, nil)
    && (!c.Top? ==> HasParent(m, t, c.node))
  }

  // ----- what a memory says of its pointers

  lemma {:induction false} HoldsNodes(m: Memory, t: Tree, p: Node?, nil: Node)
    requires Holds(m, t, p, nil)
    ensures Nodes(t) <= m.Keys && nil !in Nodes(t)
    ensures t.Leaf? <==> p == nil
  {
    match t
    case Leaf =>
    case Bin(l, n, _, _, r) =>
      HoldsNodes(m, l, m[n].left, nil);
      HoldsNodes(m, r, m[n].right, nil);
  }

  lemma {:induction false} HoldsPathNodes(m: Memory, c: Path, p: Node?, root: Node?, nil: Node)
    requires HoldsPath(m, c, p, root, nil)
    ensures PathNodes(c) <= m.Keys && nil !in PathNodes(c)
    ensures if c.Top? then p == root else root != null && root in PathNodes(c)
  {
    match c
    case Top =>
    case InLeft(up, n, _, _, r) =>
      HoldsNodes(m, r, m[n].right, nil);
      HoldsPathNodes(m, up, n, root, nil);
    case InRight(up, l, n, _, _) =>
      HoldsNodes(m, l, m[n].left, nil);
      HoldsPathNodes(m, up, n, root, nil);
  }

  // The tests that tell where a node hangs.
  lemma WhereItHangs(m: Memory, c: Path, t: Tree, p: Node?, root: Node?, nil: Node)
    requires At(m, c, t, p, root, nil)
    ensures Nodes(t) + PathNodes(c) <= m.Keys && nil !in Nodes(t) + PathNodes(c)
    ensures t.Leaf? <==> p == nil
    ensures c.Top? ==> p == root
    ensures !c.Top? ==> p != root && root != nil
    ensures c.InLeft? ==> m[c.node].left == p && (t.Bin? ==> m[c.node].right != p)
    ensures c.InRight? ==> m[c.node].right == p && (t.Bin? ==> m[c.node].left != p)
  {
    HoldsNodes(m, t, p, nil);
    HoldsPathNodes(m, c, p, root, nil);
    match c
    case Top =>
    case InLeft(_, n, _, _, r) => HoldsNodes(m, r, m[n].right, nil);
    case InRight(_, l, n, _, _) => HoldsNodes(m, l, m[n].left, nil);
  }

  // ----- frames

  // The memories agree on every cell outside `touched`.
  ghost predicate Elsewhere(m: Memory, m': Memory, touched: set<Node>) {
    forall n :: n in m && n !in touched ==> n in m' && m'[n] == m[n]
  }

  lemma {:induction false} HoldsFrame(m: Memory, m': Memory, t: Tree, p: Node?, nil: Node, touched: set<Node>)
    requires Holds(m, t, p, nil) && Elsewhere(m, m', touched) && touched !! Nodes(t)
    ensures Holds(m', t, p, nil)
    ensures t.Bin? ==> m'[t.node] == m[t.node]
  {
    match t
    case Leaf =>
    case Bin(l, n, _, _, r) =>
      HoldsFrame(m, m', l, m[n].left, nil, touched);
      HoldsFrame(m, m', r, m[n].right, nil, touched);
  }

  lemma {:induction false} HoldsPathFrame(m: Memory, m': Memory, c: Path, p: Node?, root: Node?, nil: Node, touched: set<Node>)
    requires HoldsPath(m, c, p, root, nil) && Elsewhere(m, m', touched) && touched !! PathNodes(c)
    ensures HoldsPath(m', c, p, root, nil)
  {
    match c
    case Top =>
    case InLeft(up, n, _, _, r) =>
      HoldsFrame(m, m', r, m[n].right, nil, touched);
      HoldsPathFrame(m, m', up, n, root, nil, touched);
    case InRight(up, l, n, _, _) =>
      HoldsFrame(m, m', l, m[n].left, nil, touched);
      HoldsPathFrame(m, m', up, n, root, nil, touched);
  }

  function TopOf(t: Tree): set<Node> { if t.Bin? then {t.node} else {} }

  function PathTop(c: Path): set<Node> { if c.Top? then {} else {c.node} }

  // The subtree gets a new parent.
  lemma Reparent(m: Memory, m': Memory, t: Tree, p: Node?, q: Node, nil: Node, touched: set<Node>)
    requires Holds(m, t, p, nil) && Distinct(t)
    requires Elsewhere(m, m', touched) && touched !! Nodes(t) - TopOf(t)
    requires t.Bin? ==> t.node in m' && m'[t.node] == m[t.node].(parent := q)
    ensures Holds(m', t, p, nil) && HasParent(m', t, q)
  {
    match t
    case Leaf =>
    case Bin(l, n, _, _, r) =>
      HoldsFrame(m, m', l, m[n].left, nil, touched);
      HoldsFrame(m, m', r, m[n].right, nil, touched);
  }

  // What the cell above `p` becomes when `p'` takes the place of `p`.
  function Rehung(cell: Cell, c: Path, p': Node?): Cell {
    if c.InLeft? then cell.(left := p') else cell.(right := p')
  }

  // Another subtree takes the place of the one at `p`.
  lemma Rehang(m: Memory, m': Memory, c: Path, p: Node?, p': Node?, root: Node?, root': Node?, nil: Node, touched: set<Node>)
    requires HoldsPath(m, c, p, root, nil) && DistinctPath(c)
    requires Elsewhere(m, m', touched) && touched !! PathNodes(c) - PathTop(c)
    requires if c.Top? then root' == p' else root' == root && c.node in m' && m'[c.node] == Rehung(m[c.node], c, p')
    ensures HoldsPath(m', c, p', root', nil)
  {
    match c
    case Top =>
    case InLeft(up, n, _, _, r) =>
      HoldsFrame(m, m', r, m[n].right, nil, touched);
      HoldsPathFrame(m, m', up, n, root, nil, touched);
    case InRight(up, l, n, _, _) =>
      HoldsFrame(m, m', l, m[n].left, nil, touched);
      HoldsPathFrame(m, m', up, n, root, nil, touched);
  }

  // ----- rotations

  // `q` is a node of the memory other than those in `others`.
  predicate Other(m: Memory, q: Node?, others: set<Node>) {
    q != null && q in m && q !in others
  }

  // Where a left rotation may be asked for: the pointers it follows lead to
  // cells, all different.
  predicate MayRotateLeft(m: Memory, x: Node, root: Node?, nil: Node) {
    && x in m && nil !in m
    && Other(m, m[x].right, {x})
    && var y := m[x].right;
    && (m[y].left == nil || Other(m, m[y].left, {x, y}))
    && (x == root || (Other(m, m[x].parent, {x, y}) && m[x].parent != m[y].left))
  }

  // What a left rotation at `x` writes, cell by cell.
  predicate RotatesLeft(m: Memory, m': Memory, x: Node, root: Node?, root': Node?, nil: Node)
    requires MayRotateLeft(m, x, root, nil)
  {
    var y, q := m[x].right, m[x].parent;
    var b := m[y].left;
    && m'.Keys == m.Keys
    && m'[x] == m[x].(right := b, parent := y)
    && m'[y] == m[y].(left := x, parent := q)
    && (b != nil ==> m'[b] == m[b].(parent := x))
    && (if x == root then root' == y
        else root' == root && m'[q] == if m[q].left == x then m[q].(left := y) else m[q].(right := y))
    && forall n :: n in m && n != x && n != y && n != b && (x == root || n != q) ==> m'[n] == m[n]
  }

  predicate MayRotateRight(m: Memory, x: Node, root: Node?, nil: Node) {
    && x in m && nil !in m
    && Other(m, m[x].left, {x})
    && var y := m[x].left;
    && (m[y].right == nil || Other(m, m[y].right, {x, y}))
    && (x == root || (Other(m, m[x].parent, {x, y}) && m[x].parent != m[y].right))
  }

  // What a right rotation at `x` writes, cell by cell.
  predicate RotatesRight(m: Memory, m': Memory, x: Node, root: Node?, root': Node?, nil: Node)
    requires MayRotateRight(m, x, root, nil)
  {
    var y, q := m[x].left, m[x].parent;
    var b := m[y].right;
    && m'.Keys == m.Keys
    && m'[x] == m[x].(left := b, parent := y)
    && m'[y] == m[y].(right := x, parent := q)
    && (b != nil ==> m'[b] == m[b].(parent := x))
    && (if x == root then root' == y
        else root' == root && m'[q] == if m[q].right == x then m[q].(right := y) else m[q].(left := y))
    && forall n :: n in m && n != x && n != y && n != b && (x == root || n != q) ==> m'[n] == m[n]
  }

  lemma LeftRotationAllowed(m: Memory, c: Path, t: Tree, root: Node?, nil: Node)
    requires t.Bin? && t.right.Bin? && At(m, c, t, t.node, root, nil) && nil !in m
    ensures MayRotateLeft(m, t.node, root, nil)
  {
    WhereItHangs(m, c, t, t.node, root, nil);
    var y := t.right.node;
    assert Holds(m, t.right, m[t.node].right, nil);
    HoldsNodes(m, t.right.left, m[y].left, nil);
  }

  // Two subtrees of a node and its right child, taken apart.
  ghost predicate HoldsThree(m: Memory, c: Path, a: Tree, x: Node, b: Tree, y: Node, d: Tree, pa: Node?, pb: Node?, pd: Node?, nil: Node) {
    && Distinct3(a, x, b, y, d) && DistinctPath(c)
    && PathNodes(c) !! Nodes(a) + {x} + Nodes(b) + {y} + Nodes(d)
    && x in m && y in m && x != nil && y != nil
    && Holds(m, a, pa, nil) && Holds(m, b, pb, nil) && Holds(m, d, pd, nil)
    && HasParent(m, a, x) && HasParent(m, d, y)
  }

  lemma TakeApartRight(m: Memory, c: Path, a: Tree, x: Node, kx: Word, rx: bool, b: Tree, y: Node, ky: Word, ry: bool, d: Tree, root: Node?, nil: Node)
    requires At(m, c, Bin(a, x, kx, rx, Bin(b, y, ky, ry, d)), x, root, nil)
    ensures x in m && y in m && m[x].right == y && m[y].parent == x
    ensures HoldsThree(m, c, a, x, b, y, d, m[x].left, m[y].left, m[y].right, nil)
    ensures HasParent(m, b, y)
    ensures m[x].key == kx && m[x].red == rx && m[y].key == ky && m[y].red == ry
  {
    DistinctLeaning(a, x, kx, rx, b, y, ky, ry, d);
    assert Holds(m, Bin(b, y, ky, ry, d), m[x].right, nil);
  }

  lemma PutTogetherLeft(m: Memory, c: Path, a: Tree, x: Node, kx: Word, rx: bool, b: Tree, y: Node, ky: Word, ry: bool, d: Tree, root: Node?, nil: Node)
    requires x in m && y in m && m[y].left == x && m[x].parent == y && HasParent(m, b, x)
    requires HoldsThree(m, c, a, x, b, y, d, m[x].left, m[x].right, m[y].right, nil)
    requires HoldsPath(m, c, y, root, nil) && (!c.Top? ==> m[y].parent == c.node)
    requires m[x].key == kx && m[x].red == rx && m[y].key == ky && m[y].red == ry
    ensures At(m, c, Bin(Bin(a, x, kx, rx, b), y, ky, ry, d), y, root, nil)
  {
    DistinctLeaning(a, x, kx, rx, b, y, ky, ry, d);
    assert Holds(m, Bin(a, x, kx, rx, b), x, nil);
  }

  lemma HoldsThreeFrame(m: Memory, m': Memory, c: Path, a: Tree, x: Node, b: Tree, y: Node, d: Tree, pa: Node?, pb: Node?, pd: Node?, q: Node, nil: Node)
    requires HoldsThree(m, c, a, x, b, y, d, pa, pb, pd, nil)
    requires Elsewhere(m, m', {x, y} + TopOf(b) + PathTop(c)) && x in m' && y in m'
    requires b.Bin? ==> b.node in m' && m'[b.node] == m[b.node].(parent := q)
    ensures HoldsThree(m', c, a, x, b, y, d, pa, pb, pd, nil) && HasParent(m', b, q)
  {
    var touched := {x, y} + TopOf(b) + PathTop(c);
    assert c.Top? || c.node in PathNodes(c);
    assert b.Leaf? || b.node in Nodes(b);
    HoldsFrame(m, m', a, pa, nil, touched);
    HoldsFrame(m, m', d, pd, nil, touched);
    Reparent(m, m', b, pb, q, nil, touched);
  }

  lemma LeftRotation(m: Memory, m': Memory, c: Path, t: Tree, root: Node?, root': Node?, nil: Node)
    requires t.Bin? && t.right.Bin? && At(m, c, t, t.node, root, nil)
    requires MayRotateLeft(m, t.node, root, nil) && RotatesLeft(m, m', t.node, root, root', nil)
    ensures At(m', c, LeftRotated(t), t.right.node, root', nil)
  {
    var Bin(a, x, kx, rx, Bin(b, y, ky, ry, d)) := t;
    WhereItHangs(m, c, t, x, root, nil);
    TakeApartRight(m, c, a, x, kx, rx, b, y, ky, ry, d, root, nil);
    HoldsNodes(m, b, m[y].left, nil);
    HoldsThreeFrame(m, m', c, a, x, b, y, d, m[x].left, m[y].left, m[y].right, x, nil);
    Rehang(m, m', c, x, y, root, root', nil, {x, y} + TopOf(b) + PathTop(c));
    PutTogetherLeft(m', c, a, x, kx, rx, b, y, ky, ry, d, root', nil);
  }

  lemma RightRotationAllowed(m: Memory, c: Path, t: Tree, root: Node?, nil: Node)
    requires t.Bin? && t.left.Bin? && At(m, c, t, t.node, root, nil) && nil !in m
    ensures MayRotateRight(m, t.node, root, nil)
  {
    WhereItHangs(m, c, t, t.node, root, nil);
    var y := t.left.node;
    assert Holds(m, t.left, m[t.node].left, nil);
    HoldsNodes(m, t.left.right, m[y].right, nil);
  }

  lemma TakeApartLeft(m: Memory, c: Path, a: Tree, x: Node, kx: Word, rx: bool, b: Tree, y: Node, ky: Word, ry: bool, d: Tree, root: Node?, nil: Node)
    requires At(m, c, Bin(Bin(a, x, kx, rx, b), y, ky, ry, d), y, root, nil)
    ensures x in m && y in m && m[y].left == x && m[x].parent == y
    ensures HoldsThree(m, c, a, x, b, y, d, m[x].left, m[x].right, m[y].right, nil)
    ensures HasParent(m, b, x)
    ensures m[x].key == kx && m[x].red == rx && m[y].key == ky && m[y].red == ry
  {
    DistinctLeaning(a, x, kx, rx, b, y, ky, ry, d);
    assert Holds(m, Bin(a, x, kx, rx, b), m[y].left, nil);
  }

  lemma PutTogetherRight(m: Memory, c: Path, a: Tree, x: Node, kx: Word, rx: bool, b: Tree, y: Node, ky: Word, ry: bool, d: Tree, root: Node?, nil: Node)
    requires x in m && y in m && m[x].right == y && m[y].parent == x && HasParent(m, b, y)
    requires HoldsThree(m, c, a, x, b, y, d, m[x].left, m[y].left, m[y].right, nil)
    requires HoldsPath(m, c, x, root, nil) && (!c.Top? ==> m[x].parent == c.node)
    requires m[x].key == kx && m[x].red == rx && m[y].key == ky && m[y].red == ry
    ensures At(m, c, Bin(a, x, kx, rx, Bin(b, y, ky, ry, d)), x, root, nil)
  {
    DistinctLeaning(a, x, kx, rx, b, y, ky, ry, d);
    assert Holds(m, Bin(b, y, ky, ry, d), y, nil);
  }

  lemma RightRotation(m: Memory, m': Memory, c: Path, t: Tree, root: Node?, root': Node?, nil: Node)
    requires t.Bin? && t.left.Bin? && At(m, c, t, t.node, root, nil)
    requires MayRotateRight(m, t.node, root, nil) && RotatesRight(m, m', t.node, root, root', nil)
    ensures At(m', c, RightRotated(t), t.left.node, root', nil)
  {
    var Bin(Bin(a, x, kx, rx, b), y, ky, ry, d) := t;
    WhereItHangs(m, c, t, y, root, nil);
    TakeApartLeft(m, c, a, x, kx, rx, b, y, ky, ry, d, root, nil);
    HoldsNodes(m, b, m[x].right, nil);
    HoldsThreeFrame(m, m', c, a, x, b, y, d, m[x].left, m[x].right, m[y].right, y, nil);
    Rehang(m, m', c, y, x, root, root', nil, {x, y} + TopOf(b) + PathTop(c));
    PutTogetherRight(m', c, a, x, kx, rx, b, y, ky, ry, d, root', nil);
  }

  // ----- moving along the path

  lemma GoUp(m: Memory, c: Path, t: Tree, p: Node?, root: Node?, nil: Node)
    requires !c.Top? && At(m, c, t, p, root, nil)
    ensures At(m, c.up, Close(c, t), c.node, root, nil)
  {
  }

  lemma GoLeft(m: Memory, c: Path, t: Tree, root: Node?, nil: Node)
    requires t.Bin? && At(m, c, t, t.node, root, nil)
    ensures At(m, InLeft(c, t.node, t.key, t.red, t.right), t.left, m[t.node].left, root, nil)
  {
  }

  lemma GoRight(m: Memory, c: Path, t: Tree, root: Node?, nil: Node)
    requires t.Bin? && At(m, c, t, t.node, root, nil)
    ensures At(m, InRight(c, t.left, t.node, t.key, t.red), t.right, m[t.node].right, root, nil)
  {
  }

  // ----- painting

  function Painted(m: Memory, n: Node, red: bool): Memory {
    if n in m then m[n := m[n].(red := red)] else m
  }

  lemma PaintTop(m: Memory, c: Path, t: Tree, red: bool, root: Node?, nil: Node)
    requires t.Bin? && At(m, c, t, t.node, root, nil)
    ensures At(Painted(m, t.node, red), c, t.(red := red), t.node, root, nil)
  {
    var m' := Painted(m, t.node, red);
    HoldsFrame(m, m', t.left, m[t.node].left, nil, {t.node});
    HoldsFrame(m, m', t.right, m[t.node].right, nil, {t.node});
    HoldsPathFrame(m, m', c, t.node, root, nil, {t.node});
  }

  // Painting the node above the subtree.
  lemma PaintAbove(m: Memory, c: Path, t: Tree, p: Node?, red: bool, root: Node?, nil: Node)
    requires !c.Top? && At(m, c, t, p, root, nil)
    ensures At(Painted(m, c.node, red), c.(red := red), t, p, root, nil)
  {
    GoUp(m, c, t, p, root, nil);
    PaintTop(m, c.up, Close(c, t), red, root, nil);
  }

  // Painting the node above that one.
  lemma PaintTwoAbove(m: Memory, c: Path, t: Tree, p: Node?, red: bool, root: Node?, nil: Node)
    requires !c.Top? && !c.up.Top? && At(m, c, t, p, root, nil)
    ensures At(Painted(m, c.up.node, red), c.(up := c.up.(red := red)), t, p, root, nil)
  {
    GoUp(m, c, t, p, root, nil);
    PaintAbove(m, c.up, Close(c, t), c.node, red, root, nil);
  }

  // Painting the top of the subtree beside this one.
  lemma PaintBeside(m: Memory, c: Path, t: Tree, p: Node?, red: bool, root: Node?, nil: Node)
    requires !c.Top? && Beside(c).Bin? && At(m, c, t, p, root, nil)
    ensures At(Painted(m, Beside(c).node, red), WithBeside(c, Beside(c).(red := red)), t, p, root, nil)
  {
    GoUp(m, c, t, p, root, nil);
    var u, w := Close(c, t), Beside(c);
    if c.InLeft? {
      GoRight(m, c.up, u, root, nil);
      PaintTop(m, InRight(c.up, t, c.node, c.key, c.red), w, red, root, nil);
      GoUp(Painted(m, w.node, red), InRight(c.up, t, c.node, c.key, c.red), w.(red := red), w.node, root, nil);
    } else {
      GoLeft(m, c.up, u, root, nil);
      PaintTop(m, InLeft(c.up, c.node, c.key, c.red, t), w, red, root, nil);
      GoUp(Painted(m, w.node, red), InLeft(c.up, c.node, c.key, c.red, t), w.(red := red), w.node, root, nil);
    }
  }

  // The links that lead to parent, grandparent and uncle.
  lemma FamilyLinks(m: Memory, c: Path, t: Tree, root: Node?, nil: Node)
    requires !c.Top? && !c.up.Top? && t.Bin? && nil !in m && At(m, c, t, t.node, root, nil)
    ensures t.node in m && c.node in m && c.up.node in m && t.node != root
    ensures m[t.node].parent == c.node && m[c.node].parent == c.up.node
    ensures m[c.node].red == c.red
    ensures if c.InLeft? then m[c.node].left == t.node && m[c.node].right != t.node else m[c.node].right == t.node && m[c.node].left != t.node
    ensures if c.up.InLeft? then m[c.up.node].left == c.node && Points(m, Beside(c.up), m[c.up.node].right, nil)
            else m[c.up.node].right == c.node && m[c.up.node].left != c.node && Points(m, Beside(c.up), m[c.up.node].left, nil)
  {
    WhereItHangs(m, c, t, t.node, root, nil);
    GoUp(m, c, t, t.node, root, nil);
    WhereItHangs(m, c.up, Close(c, t), c.node, root, nil);
    var g := c.up.node;
    if c.up.InLeft? { HoldsNodes(m, c.up.right, m[g].right, nil); } else { HoldsNodes(m, c.up.left, m[g].left, nil); }
  }

  // `q` points at the top of `t`, whose colour the memory has.
  ghost predicate Points(m: Memory, t: Tree, q: Node?, nil: Node) {
    if t.Leaf? then q == nil else q == t.node && q != nil && q in m && m[q].red == t.red
  }

  // ----- attaching a node

  lemma Attach(m: Memory, m': Memory, c: Path, node: Node, root: Node?, nil: Node)
    requires !c.Top? && At(m, c, Leaf, nil, root, nil) && node !in m && node != nil
    requires Elsewhere(m, m', {c.node}) && c.node in m' && node in m'
    requires m'[c.node] == Rehung(m[c.node], c, node)
    requires m'[node] == Cell(m'[node].key, nil, nil, c.node, true)
    ensures At(m', c, Bin(Leaf, node, m'[node].key, true, Leaf), node, root, nil)
  {
    HoldsPathNodes(m, c, nil, root, nil);
    Rehang(m, m', c, nil, node, root, root, nil, {c.node});
  }

  // The same tree, seen from the root.
  lemma {:induction false} GoTop(m: Memory, c: Path, t: Tree, p: Node?, root: Node?, nil: Node)
    requires At(m, c, t, p, root, nil)
    ensures At(m, Top, Plug(c, t), root, root, nil)
    decreases c
  {
    if !c.Top? {
      GoUp(m, c, t, p, root, nil);
      GoTop(m, c.up, Close(c, t), c.node, root, nil);
    }
  }

  // ... and from anywhere in it.
  lemma {:induction false} GoDown(m: Memory, c: Path, t: Tree, root: Node?, nil: Node)
    requires At(m, Top, Plug(c, t), root, root, nil)
    ensures exists p :: At(m, c, t, p, root, nil)
    decreases c
  {
    if !c.Top? {
      GoDown(m, c.up, Close(c, t), root, nil);
      if c.InLeft? { GoLeft(m, c.up, Close(c, t), root, nil); } else { GoRight(m, c.up, Close(c, t), root, nil); }
    } else {
      assert At(m, c, t, root, root, nil);
    }
  }

  lemma AtFrame(m: Memory, m': Memory, c: Path, t: Tree, p: Node?, root: Node?, nil: Node, touched: set<Node>)
    requires At(m, c, t, p, root, nil) && Elsewhere(m, m', touched)
    requires touched !! Nodes(t) + PathNodes(c)
    ensures At(m', c, t, p, root, nil)
  {
    HoldsFrame(m, m', t, p, nil, touched);
    HoldsPathFrame(m, m', c, p, root, nil, touched);
  }
}
