// The values a red-black tree of nodes in memory stands for: the shape of a
// subtree, the path from a subtree up to the root, and the red-black rules
// on both.
module RbShape {

  const WORD_RANGE: nat := 0x1_0000_0000_0000_0000
  const HALF_RANGE: nat := 0x8000_0000_0000_0000

  // An unsigned machine word, the type of a key.
  type Word = k: nat | k < WORD_RANGE

  class Node {
    var key: Word
    var left: Node?
    var right: Node?
    var parent: Node?
    var red: bool

    constructor (key: Word)
      ensures this.key == key
    {
      this.key := key;
      left, right, parent, red := null, null, null, false;
    }
  }

  // The shape of a subtree; Leaf is where the memory holds the sentinel.
  datatype Tree = Leaf | Bin(left: Tree, node: Node, key: Word, red: bool, right: Tree)

  // A subtree's surroundings, innermost frame first: what hangs off the path
  // from the subtree up to the root.
  datatype Path =
    | Top
    | InLeft(up: Path, node: Node, key: Word, red: bool, right: Tree)
    | InRight(up: Path, left: Tree, node: Node, key: Word, red: bool)

  datatype Item = Item(node: Node, key: Word)

  function Nodes(t: Tree): set<Node> {
    match t
    case Leaf => {}
    case Bin(l, n, _, _, r) => Nodes(l) + {n} + Nodes(r)
  }

  function PathNodes(c: Path): set<Node> {
    match c
    case Top => {}
    case InLeft(up, n, _, _, r) => PathNodes(up) + {n} + Nodes(r)
    case InRight(up, l, n, _, _) => PathNodes(up) + {n} + Nodes(l)
  }

  // Puts a subtree back into its surroundings.
  function Plug(c: Path, t: Tree): Tree {
    match c
    case Top => t
    case InLeft(up, n, k, red, r) => Plug(up, Bin(t, n, k, red, r))
    case InRight(up, l, n, k, red) => Plug(up, Bin(l, n, k, red, t))
  }

  // The surroundings of a subtree that has the surroundings `inner` inside a
  // subtree with the surroundings `outer`.
  function Join(inner: Path, outer: Path): Path {
    match inner
    case Top => outer
    case InLeft(up, n, k, red, r) => InLeft(Join(up, outer), n, k, red, r)
    case InRight(up, l, n, k, red) => InRight(Join(up, outer), l, n, k, red)
  }

  // A subtree with the node above it and the subtree beside it.
  function Close(c: Path, t: Tree): Tree
    requires !c.Top?
  {
    match c
    case InLeft(_, n, k, red, r) => Bin(t, n, k, red, r)
    case InRight(_, l, n, k, red) => Bin(l, n, k, red, t)
  }

  function Beside(c: Path): Tree
    requires !c.Top?
  {
    if c.InLeft? then c.right else c.left
  }

  function WithBeside(c: Path, w: Tree): (c': Path)
    requires !c.Top?
    ensures !c'.Top?
  {
    if c.InLeft? then c.(right := w) else c.(left := w)
  }

  // The path and subtree one step further down.
  function Below(c: Path, t: Tree, left: bool): (Path, Tree)
    requires t.Bin?
  {
    if left then (InLeft(c, t.node, t.key, t.red, t.right), t.left)
    else (InRight(c, t.left, t.node, t.key, t.red), t.right)
  }

  // No node occurs twice.
  ghost predicate Distinct(t: Tree) {
    match t
    case Leaf => true
    case Bin(l, n, _, _, r) =>
      && Distinct(l) && Distinct(r)
      && n !in Nodes(l) && n !in Nodes(r) && Nodes(l) !! Nodes(r)
  }

  ghost predicate DistinctPath(c: Path) {
    match c
    case Top => true
    case InLeft(up, n, _, _, r) =>
      && DistinctPath(up) && Distinct(r)
      && n !in PathNodes(up) && n !in Nodes(r) && PathNodes(up) !! Nodes(r)
    case InRight(up, l, n, _, _) =>
      && DistinctPath(up) && Distinct(l)
      && n !in PathNodes(up) && n !in Nodes(l) && PathNodes(up) !! Nodes(l)
  }

  ghost predicate Apart(c: Path, t: Tree) {
    Distinct(t) && DistinctPath(c) && PathNodes(c) !! Nodes(t)
  }

  // The nodes from left to right, each with its key.
  function Inorder(t: Tree): seq<Item> {
    match t
    case Leaf => []
    case Bin(l, n, k, _, r) => Inorder(l) + [Item(n, k)] + Inorder(r)
  }

  function Before(c: Path): seq<Item> {
    match c
    case Top => []
    case InLeft(up, _, _, _, _) => Before(up)
    case InRight(up, l, n, k, _) => Before(up) + Inorder(l) + [Item(n, k)]
  }

  function After(c: Path): seq<Item> {
    match c
    case Top => []
    case InLeft(up, n, k, _, r) => [Item(n, k)] + Inorder(r) + After(up)
    case InRight(up, _, _, _, _) => After(up)
  }

  // ----- the red-black rules

  predicate IsRed(t: Tree) { t.Bin? && t.red }

  predicate PathRed(c: Path) { !c.Top? && c.red }

  // Black nodes on the way from the top of `t` to its leftmost leaf.
  function BlackHeight(t: Tree): nat {
    match t
    case Leaf => 0
    case Bin(l, _, _, red, _) => BlackHeight(l) + if red then 0 else 1
  }

  // Equal black heights everywhere and no red node under a red one.
  ghost predicate Balanced(t: Tree) {
    match t
    case Leaf => true
    case Bin(l, _, _, red, r) =>
      && Balanced(l) && Balanced(r)
      && BlackHeight(l) == BlackHeight(r)
      && (red ==> !IsRed(l) && !IsRed(r))
  }

  ghost predicate RedBlack(t: Tree) { Balanced(t) && !IsRed(t) }

  // Surroundings that make a red-black tree of every balanced black subtree
  // of black height h.
  ghost predicate Fits(c: Path, h: nat) {
    match c
    case Top => true
    case InLeft(up, _, _, red, r) =>
      && Balanced(r) && BlackHeight(r) == h
      && (red ==> !IsRed(r) && !up.Top? && !PathRed(up))
      && Fits(up, h + if red then 0 else 1)
    case InRight(up, l, _, _, red) =>
      && Balanced(l) && BlackHeight(l) == h
      && (red ==> !IsRed(l) && !up.Top? && !PathRed(up))
      && Fits(up, h + if red then 0 else 1)
  }

  function Blacken(t: Tree): Tree {
    if t.Bin? then t.(red := false) else t
  }

  // ----- plugging

  lemma {:induction false} PlugInorder(c: Path, t: Tree)
    ensures Inorder(Plug(c, t)) == Before(c) + Inorder(t) + After(c)
  {
    match c
    case Top =>
    case InLeft(up, n, k, red, r) => PlugInorder(up, Bin(t, n, k, red, r));
    case InRight(up, l, n, k, red) => PlugInorder(up, Bin(l, n, k, red, t));
  }

  lemma {:induction false} PlugNodes(c: Path, t: Tree)
    ensures Nodes(Plug(c, t)) == PathNodes(c) + Nodes(t)
  {
    match c
    case Top =>
    case InLeft(up, n, k, red, r) => PlugNodes(up, Bin(t, n, k, red, r));
    case InRight(up, l, n, k, red) => PlugNodes(up, Bin(l, n, k, red, t));
  }

  lemma {:induction false} PlugDistinct(c: Path, t: Tree)
    ensures Distinct(Plug(c, t)) <==> Apart(c, t)
  {
    match c
    case Top =>
    case InLeft(up, n, k, red, r) => PlugDistinct(up, Bin(t, n, k, red, r));
    case InRight(up, l, n, k, red) => PlugDistinct(up, Bin(l, n, k, red, t));
  }

  lemma {:induction false} PlugJoin(inner: Path, outer: Path, t: Tree)
    ensures Plug(Join(inner, outer), t) == Plug(outer, Plug(inner, t))
    ensures PathNodes(Join(inner, outer)) == PathNodes(inner) + PathNodes(outer)
  {
    match inner
    case Top =>
    case InLeft(up, n, k, red, r) => PlugJoin(up, outer, Bin(t, n, k, red, r));
    case InRight(up, l, n, k, red) => PlugJoin(up, outer, Bin(l, n, k, red, t));
  }

  // A balanced subtree whose black height the surroundings expect, red only
  // under a black node, plugs into a balanced tree.
  lemma {:induction false} PlugBalanced(c: Path, t: Tree)
    requires Balanced(t) && Fits(c, BlackHeight(t))
    requires IsRed(t) ==> !PathRed(c)
    ensures Balanced(Plug(c, t))
    ensures !c.Top? ==> !IsRed(Plug(c, t))
  {
    match c
    case Top =>
    case InLeft(up, n, k, red, r) => PlugBalanced(up, Bin(t, n, k, red, r));
    case InRight(up, l, n, k, red) => PlugBalanced(up, Bin(l, n, k, red, t));
  }

  // Cutting a red-black tree anywhere leaves a balanced subtree and fitting
  // surroundings.
  lemma {:induction false} CutFits(c: Path, t: Tree)
    requires Balanced(Plug(c, t))
    requires !c.Top? ==> !IsRed(Plug(c, t))
    ensures Balanced(t) && Fits(c, BlackHeight(t))
    ensures IsRed(t) ==> !PathRed(c)
  {
    match c
    case Top =>
    case InLeft(up, n, k, red, r) => CutFits(up, Bin(t, n, k, red, r));
    case InRight(up, l, n, k, red) => CutFits(up, Bin(l, n, k, red, t));
  }

  // ----- rotations

  function LeftRotated(t: Tree): Tree
    requires t.Bin? && t.right.Bin?
  {
    var Bin(l, n, k, red, r) := t;
    Bin(Bin(l, n, k, red, r.left), r.node, r.key, r.red, r.right)
  }

  function RightRotated(t: Tree): Tree
    requires t.Bin? && t.left.Bin?
  {
    var Bin(l, n, k, red, r) := t;
    Bin(l.left, l.node, l.key, l.red, Bin(l.right, n, k, red, r))
  }

  lemma LeftRotationKeeps(c: Path, t: Tree)
    requires t.Bin? && t.right.Bin?
    ensures Inorder(LeftRotated(t)) == Inorder(t)
    ensures Nodes(LeftRotated(t)) == Nodes(t)
    ensures Apart(c, LeftRotated(t)) <==> Apart(c, t)
    ensures RightRotated(LeftRotated(t)) == t
  {
    var Bin(a, x, kx, rx, Bin(b, y, ky, ry, d)) := t;
    DistinctLeaning(a, x, kx, rx, b, y, ky, ry, d);
    var ix, iy := [Item(x, kx)], [Item(y, ky)];
    assert (Inorder(a) + ix + Inorder(b)) + iy + Inorder(d) == Inorder(a) + ix + (Inorder(b) + iy + Inorder(d));
  }

  lemma DistinctLeaning(a: Tree, x: Node, kx: Word, rx: bool, b: Tree, y: Node, ky: Word, ry: bool, d: Tree)
    ensures Distinct(Bin(a, x, kx, rx, Bin(b, y, ky, ry, d))) <==> Distinct3(a, x, b, y, d)
    ensures Distinct(Bin(Bin(a, x, kx, rx, b), y, ky, ry, d)) <==> Distinct3(a, x, b, y, d)
  {
    var t, u := Bin(a, x, kx, rx, Bin(b, y, ky, ry, d)), Bin(Bin(a, x, kx, rx, b), y, ky, ry, d);
    assert Nodes(t.right) == Nodes(b) + {y} + Nodes(d);
    assert Nodes(u.left) == Nodes(a) + {x} + Nodes(b);
  }

  ghost predicate Distinct3(a: Tree, x: Node, b: Tree, y: Node, d: Tree) {
    && Distinct(a) && Distinct(b) && Distinct(d) && x != y
    && x !in Nodes(a) && x !in Nodes(b) && x !in Nodes(d)
    && y !in Nodes(a) && y !in Nodes(b) && y !in Nodes(d)
    && Nodes(a) !! Nodes(b) && Nodes(a) !! Nodes(d) && Nodes(b) !! Nodes(d)
  }

  lemma RightRotationKeeps(c: Path, t: Tree)
    requires t.Bin? && t.left.Bin?
    ensures Inorder(RightRotated(t)) == Inorder(t)
    ensures Nodes(RightRotated(t)) == Nodes(t)
    ensures Apart(c, RightRotated(t)) <==> Apart(c, t)
    ensures LeftRotated(RightRotated(t)) == t
  {
    LeftRotationKeeps(c, RightRotated(t));
  }

  // ----- locating a node

  // The surroundings of the subtree of `t` with `n` on top.
  ghost function Locate(t: Tree, n: Node, c: Path): (r: (Path, Tree))
    requires n in Nodes(t)
    ensures Plug(r.0, r.1) == Plug(c, t)
    ensures r.1.Bin? && r.1.node == n
    decreases t
  {
    if t.node == n then (c, t)
    else if n in Nodes(t.left) then Locate(t.left, n, InLeft(c, t.node, t.key, t.red, t.right))
    else Locate(t.right, n, InRight(c, t.left, t.node, t.key, t.red))
  }

  // ----- keys

  // Which insert function a tree is created with.
  datatype Order = Value | Timer

  // The unsigned difference of two words.
  function Minus(a: Word, b: Word): Word { (a - b) % WORD_RANGE }

  // The word read as a signed integer.
  function Signed(k: Word): int { if k < HALF_RANGE then k else k - WORD_RANGE }

  // "key a is before key b": plain for values, by signed difference for timers.
  predicate Less(order: Order, a: Word, b: Word) {
    match order
    case Value => a < b
    case Timer => Signed(Minus(a, b)) < 0
  }

  predicate Sorted(order: Order, s: seq<Item>) {
    forall i, j :: 0 <= i < j < |s| ==> !Less(order, s[j].key, s[i].key)
  }

  // All keys lie in a window of half the key range that starts at `base`.
  // Values need no window.
  predicate InWindow(order: Order, base: Word, s: seq<Item>) {
    order.Timer? ==> forall i :: 0 <= i < |s| ==> Minus(s[i].key, base) < HALF_RANGE
  }

  lemma WindowOrders(base: Word, a: Word, b: Word)
    requires Minus(a, base) < HALF_RANGE && Minus(b, base) < HALF_RANGE
    ensures Less(Timer, a, b) <==> Minus(a, base) < Minus(b, base)
  {
  }

  // Every branch on the way down was taken by comparing `key`.
  predicate Follows(order: Order, key: Word, c: Path) {
    match c
    case Top => true
    case InLeft(up, _, k, _, _) => Less(order, key, k) && Follows(order, key, up)
    case InRight(up, _, _, k, _) => !Less(order, key, k) && Follows(order, key, up)
  }

  // ----- height

  function Height(t: Tree): nat {
    match t
    case Leaf => 0
    case Bin(l, _, _, _, r) => 1 + if Height(l) < Height(r) then Height(r) else Height(l)
  }

  function Pow2(n: nat): nat { if n == 0 then 1 else 2 * Pow2(n - 1) }

  lemma {:induction false} Pow2Add(m: nat, n: nat)
    ensures Pow2(m + n) == Pow2(m) * Pow2(n)
  {
    if m > 0 {
      Pow2Add(m - 1, n);
    }
  }

  lemma {:induction false} Pow2Monotone(m: nat, n: nat)
    requires m <= n
    ensures Pow2(m) <= Pow2(n)
  {
    if m < n {
      Pow2Monotone(m, n - 1);
    }
  }

  lemma {:induction false} HeightVersusBlackHeight(t: Tree)
    requires Balanced(t)
    ensures Height(t) <= 2 * BlackHeight(t) + if IsRed(t) then 1 else 0
    ensures Pow2(BlackHeight(t)) <= |Inorder(t)| + 1
  {
    if t.Bin? {
      HeightVersusBlackHeight(t.left);
      HeightVersusBlackHeight(t.right);
    }
  }

  // The height of a red-black tree of n nodes is at most 2 * log2(n + 1).
  lemma HeightIsLogarithmic(t: Tree)
    requires RedBlack(t)
    ensures Pow2(Height(t)) <= (|Inorder(t)| + 1) * (|Inorder(t)| + 1)
  {
    var b := BlackHeight(t);
    HeightVersusBlackHeight(t);
    Pow2Monotone(Height(t), b + b);
    Pow2Add(b, b);
    SquareMonotone(Pow2(b), |Inorder(t)| + 1);
  }

  lemma SquareMonotone(a: nat, b: nat)
    requires a <= b
    ensures a * a <= b * b
  {
    assert a * a <= a * b <= b * b;
  }
}
