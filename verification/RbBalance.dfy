// The red-black rules through insertion and deletion, on values: what each
// turn of the two rebalancing loops repairs, what it leaves to the next turn,
// and that the order of the nodes never changes.
module RbBalance {
  import opened RbShape

  // All nodes from left to right: of the subtree and of its surroundings.
  function Items(c: Path, t: Tree): seq<Item> {
    Before(c) + Inorder(t) + After(c)
  }

  lemma CloseKeeps(c: Path, t: Tree)
    requires !c.Top?
    ensures Items(c.up, Close(c, t)) == Items(c, t)
    ensures Nodes(Close(c, t)) + PathNodes(c.up) == Nodes(t) + PathNodes(c)
  {
    var i := [Item(c.node, c.key)];
    if c.InLeft? {
      assert Before(c.up) + (Inorder(t) + i + Inorder(c.right)) + After(c.up)
          == Before(c.up) + Inorder(t) + (i + Inorder(c.right) + After(c.up));
    } else {
      assert Before(c.up) + (Inorder(c.left) + i + Inorder(t)) + After(c.up)
          == (Before(c.up) + Inorder(c.left) + i) + Inorder(t) + After(c.up);
    }
  }

  function Depth(c: Path): nat { if c.Top? then 0 else 1 + Depth(c.up) }

  // ----- where a new key goes

  function Rank(order: Order, base: Word, k: Word): nat {
    if order.Value? then k else Minus(k, base)
  }

  lemma LessIsRank(order: Order, base: Word, s: seq<Item>, i: nat, key: Word)
    requires i < |s| && InWindow(order, base, s) && (order.Timer? ==> Minus(key, base) < HALF_RANGE)
    ensures Less(order, key, s[i].key) <==> Rank(order, base, key) < Rank(order, base, s[i].key)
    ensures Less(order, s[i].key, key) <==> Rank(order, base, s[i].key) < Rank(order, base, key)
  {
    if order.Timer? {
      assert Minus(s[i].key, base) < HALF_RANGE;
      WindowOrders(base, key, s[i].key);
      WindowOrders(base, s[i].key, key);
    }
  }

  // Everything left of the way down sorts not after the key, everything right
  // of it sorts after.
  predicate Splits(order: Order, key: Word, before: seq<Item>, after: seq<Item>) {
    && (forall i :: 0 <= i < |before| ==> !Less(order, key, before[i].key))
    && (forall i :: 0 <= i < |after| ==> Less(order, key, after[i].key))
  }

  lemma {:induction false} FollowedSplits(order: Order, base: Word, key: Word, c: Path, t: Tree)
    requires Sorted(order, Items(c, t)) && InWindow(order, base, Items(c, t))
    requires order.Timer? ==> Minus(key, base) < HALF_RANGE
    requires Follows(order, key, c)
    ensures Splits(order, key, Before(c), After(c))
    decreases c
  {
    if c.Top? { return; }
    CloseKeeps(c, t);
    FollowedSplits(order, base, key, c.up, Close(c, t));
    var s := Items(c, t);
    if c.InLeft? {
      var at := |Before(c)| + |Inorder(t)|;
      assert s[at] == Item(c.node, c.key);
      forall i | 0 <= i < |After(c)| ensures Less(order, key, After(c)[i].key) {
        assert After(c)[i] == s[at + i];
        LessIsRank(order, base, s, at + i, key);
        LessIsRank(order, base, s, at, key);
        LessIsRank(order, base, s, at + i, s[at].key);
      }
    } else {
      var at := |Before(c)| - 1;
      assert s[at] == Item(c.node, c.key);
      forall i | 0 <= i < |Before(c)| ensures !Less(order, key, Before(c)[i].key) {
        assert Before(c)[i] == s[i];
        LessIsRank(order, base, s, i, key);
        LessIsRank(order, base, s, at, key);
        LessIsRank(order, base, s, i, s[at].key);
      }
    }
  }

  lemma SplitIsSorted(order: Order, base: Word, before: seq<Item>, item: Item, after: seq<Item>)
    requires Sorted(order, before + after) && InWindow(order, base, before + [item] + after)
    requires Splits(order, item.key, before, after)
    ensures Sorted(order, before + [item] + after)
  {
    var s, s' := before + after, before + [item] + after;
    var n := |before|;
    assert forall i :: 0 <= i < n ==> s'[i] == s[i] == before[i];
    assert forall i :: n < i < |s'| ==> s'[i] == s[i - 1] == after[i - n - 1];
    assert s'[n] == item;
    forall i, j | 0 <= i < j < |s'| ensures !Less(order, s'[j].key, s'[i].key) {
      if i == n {
        LessIsRank(order, base, s', j, item.key);
      }
    }
  }

  // What an insertion does to the order of the nodes.
  ghost predicate Places(order: Order, base: Word, s: seq<Item>, item: Item, s': seq<Item>, at: nat) {
    && at <= |s| && s' == s[..at] + [item] + s[at..]
    && (Sorted(order, s) && InWindow(order, base, s') ==>
          Splits(order, item.key, s[..at], s[at..]) && Sorted(order, s'))
  }

  lemma FollowedPlaces(order: Order, base: Word, node: Node, key: Word, c: Path)
    requires Follows(order, key, c)
    ensures Places(order, base, Before(c) + After(c), Item(node, key), Before(c) + [Item(node, key)] + After(c), |Before(c)|)
  {
    var item := Item(node, key);
    var s, s' := Before(c) + After(c), Before(c) + [item] + After(c);
    assert s[..|Before(c)|] == Before(c) && s[|Before(c)|..] == After(c);
    if Sorted(order, s) && InWindow(order, base, s') {
      WithoutStaysInWindow(order, base, Before(c), item, After(c));
      assert Items(c, Leaf) == s;
      FollowedSplits(order, base, key, c, Leaf);
      SplitIsSorted(order, base, Before(c), item, After(c));
    }
  }

  lemma WithoutStaysInWindow(order: Order, base: Word, before: seq<Item>, item: Item, after: seq<Item>)
    requires InWindow(order, base, before + [item] + after)
    ensures InWindow(order, base, before + after)
    ensures order.Timer? ==> Minus(item.key, base) < HALF_RANGE
  {
    var s, s' := before + after, before + [item] + after;
    assert s'[|before|] == item;
    if order.Timer? {
      forall i | 0 <= i < |s| ensures Minus(s[i].key, base) < HALF_RANGE {
        assert s[i] == if i < |before| then s'[i] else s'[i + 1];
      }
    }
  }

  // ----- insertion

  // The only rule that may be broken: the red top of `t` may hang off a red
  // node.
  ghost predicate InsertGap(c: Path, t: Tree) {
    IsRed(t) && Balanced(t) && Fits(c, BlackHeight(t))
  }

  lemma InsertStarts(c: Path, node: Node, key: Word)
    requires RedBlack(Plug(c, Leaf)) && !c.Top?
    ensures InsertGap(c, Bin(Leaf, node, key, true, Leaf))
    ensures Items(c, Bin(Leaf, node, key, true, Leaf)) == Before(c) + [Item(node, key)] + After(c)
    ensures Inorder(Plug(c, Leaf)) == Before(c) + After(c)
  {
    CutFits(c, Leaf);
    PlugInorder(c, Leaf);
    assert Inorder(Bin(Leaf, node, key, true, Leaf)) == [Item(node, key)];
  }

  lemma BlackenKeeps(t: Tree)
    ensures Inorder(Blacken(t)) == Inorder(t) && Nodes(Blacken(t)) == Nodes(t)
  {}

  // Once the loop stops, a black root completes a red-black tree.
  lemma InsertDone(c: Path, t: Tree)
    requires InsertGap(c, t) && !PathRed(c)
    ensures RedBlack(Blacken(Plug(c, t)))
  {
    PlugBalanced(c, t);
  }

  // The subtree at the grandparent once the parent and its sibling are black
  // and the grandparent is red.
  function RecoloredTree(c: Path, t: Tree): Tree
    requires !c.Top? && !c.up.Top?
  {
    Close(WithBeside(c.up.(red := true), Blacken(Beside(c.up))), Close(c.(red := false), t))
  }

  lemma InsertRecolors(c: Path, t: Tree)
    requires InsertGap(c, t) && PathRed(c) && IsRed(Beside(c.up))
    ensures InsertGap(c.up.up, RecoloredTree(c, t))
    ensures Items(c.up.up, RecoloredTree(c, t)) == Items(c, t)
    ensures Nodes(RecoloredTree(c, t)) + PathNodes(c.up.up) == Nodes(t) + PathNodes(c)
  {
    var c1, u := c.(red := false), Beside(c.up);
    var t1 := Close(c1, t);
    var c2 := WithBeside(c.up.(red := true), Blacken(u));
    CloseKeeps(c, t);
    CloseKeeps(c.up, Close(c, t));
    CloseKeeps(c2, t1);
    assert Inorder(Blacken(u)) == Inorder(u) && Nodes(Blacken(u)) == Nodes(u);
    assert Inorder(t1) == Inorder(Close(c, t)) && Nodes(t1) == Nodes(Close(c, t));
    assert Fits(c.up, BlackHeight(t));
    assert Balanced(t1) && BlackHeight(t1) == BlackHeight(t) + 1;
    assert Balanced(Blacken(u)) && BlackHeight(Blacken(u)) == BlackHeight(u) + 1;
  }

  // The path once the parent is black and the grandparent red.
  function Repainted(c: Path): Path
    requires !c.Top? && !c.up.Top?
  {
    c.(red := false, up := c.up.(red := true))
  }

  // An inner grandchild becomes an outer one.
  lemma InsertTurnsOut(c: Path, t: Tree)
    requires InsertGap(c, t) && PathRed(c)
    requires c.InLeft? <==> c.up.InRight?
    ensures var (c', t') := TurnedOut(c, t);
      InsertGap(c', t') && PathRed(c') && c'.up == c.up && (c'.InLeft? <==> c'.up.InLeft?)
      && Items(c', t') == Items(c, t) && Nodes(t') + PathNodes(c') == Nodes(t) + PathNodes(c)
  {
    var (c', t') := TurnedOut(c, t);
    CloseKeeps(c, t);
    CloseKeeps(c', t');
    if c.InLeft? { RightRotationKeeps(Top, Close(c, t)); } else { LeftRotationKeeps(Top, Close(c, t)); }
  }

  // The rotated parent, as seen from its new place below its old child.
  function TurnedOut(c: Path, t: Tree): (r: (Path, Tree))
    requires !c.Top? && t.Bin?
  {
    match c
    case InRight(up, s, p, kp, red) =>
      (InLeft(up, t.node, t.key, t.red, t.right), Bin(s, p, kp, red, t.left))
    case InLeft(up, p, kp, red, s) =>
      (InRight(up, t.left, t.node, t.key, t.red), Bin(t.right, p, kp, red, s))
  }

  // The grandparent rotates under the parent, which takes its colour.
  function TurnedUp(c: Path): Path
    requires !c.Top? && !c.up.Top?
  {
    var g := c.up;
    match c
    case InLeft(_, p, kp, _, s) => InLeft(g.up, p, kp, false, Bin(s, g.node, g.key, true, Beside(g)))
    case InRight(_, s, p, kp, _) => InRight(g.up, Bin(Beside(g), g.node, g.key, true, s), p, kp, false)
  }

  lemma InsertTurnsUp(c: Path, t: Tree)
    requires InsertGap(c, t) && PathRed(c) && !IsRed(Beside(c.up))
    requires c.InLeft? <==> c.up.InLeft?
    ensures InsertGap(TurnedUp(c), t) && !PathRed(TurnedUp(c))
    ensures Items(TurnedUp(c), t) == Items(c, t)
    ensures Nodes(t) + PathNodes(TurnedUp(c)) == Nodes(t) + PathNodes(c)
  {
    var top := Close(c.up, Close(c, t));
    assert Fits(c.up, BlackHeight(t));
    CloseKeeps(c, t);
    CloseKeeps(c.up, Close(c, t));
    CloseKeeps(TurnedUp(c), t);
    if c.InLeft? { RightRotationKeeps(Top, top); } else { LeftRotationKeeps(Top, top); }
  }

  // ----- deletion

  // The subtree is one black node short of what its surroundings expect; its
  // top may be red over red.
  ghost predicate DeleteGap(c: Path, t: Tree) {
    Balanced(Blacken(t)) && Fits(c, BlackHeight(t) + 1)
  }

  // Once the loop stops, at the root or at a red node, painting it black
  // completes a red-black tree.
  lemma DeleteDone(c: Path, t: Tree)
    requires DeleteGap(c, t) && (c.Top? || IsRed(t))
    ensures RedBlack(Plug(c, Blacken(t)))
  {
    PlugBalanced(c, Blacken(t));
  }

  // A red node can be taken out as it is; taking out a black one leaves a gap.
  lemma DeleteStarts(c: Path, t: Tree, s: Tree) returns (at: nat)
    requires RedBlack(Plug(c, t))
    requires t.Bin? && ((t.left.Leaf? && s == t.right) || (t.right.Leaf? && s == t.left))
    ensures if t.red then RedBlack(Plug(c, s)) else DeleteGap(c, s)
    ensures Drops(Inorder(Plug(c, t)), t.node, Items(c, s), at)
  {
    CutFits(c, t);
    if t.red {
      PlugBalanced(c, s);
      assert c.Top? ==> IsRed(Plug(c, t));
    }
    at := DropsOuter(c, t, s);
    PlugInorder(c, t);
  }

  // The sibling of a black subtree with a gap is a node.
  lemma SiblingThere(c: Path, t: Tree)
    requires DeleteGap(c, t) && !c.Top?
    ensures Beside(c).Bin? && (Beside(c).red ==> !c.red && Near(c).Bin? && !Near(c).red)
  {
  }

  // The child of the sibling on the side of the subtree, and the other one.
  function Near(c: Path): Tree
    requires !c.Top? && Beside(c).Bin?
  {
    if c.InLeft? then c.right.left else c.left.right
  }

  function Far(c: Path): Tree
    requires !c.Top? && Beside(c).Bin?
  {
    if c.InLeft? then c.right.right else c.left.left
  }

  // A red sibling rotates over the parent and changes colours with it.
  function SiblingTurned(c: Path): Path
    requires !c.Top? && Beside(c).Bin?
  {
    match c
    case InLeft(up, p, kp, _, w) => InLeft(InLeft(up, w.node, w.key, false, w.right), p, kp, true, w.left)
    case InRight(up, w, p, kp, _) => InRight(InRight(up, w.left, w.node, w.key, false), w.right, p, kp, true)
  }

  lemma DeleteTurnsSibling(c: Path, t: Tree)
    requires DeleteGap(c, t) && !c.Top? && IsRed(Beside(c))
    ensures var c' := SiblingTurned(c);
      DeleteGap(c', t) && Beside(c').Bin? && !Beside(c').red && c'.red && (c'.InLeft? <==> c.InLeft?)
  {
    SiblingThere(c, t);
  }

  lemma SiblingTurnedKeeps(c: Path, t: Tree)
    requires !c.Top? && Beside(c).Bin?
    ensures var c' := SiblingTurned(c);
      Items(c', t) == Items(c, t) && Nodes(t) + PathNodes(c') == Nodes(t) + PathNodes(c)
  {
    var c' := SiblingTurned(c);
    CloseKeeps(c, t);
    CloseKeeps(c', t);
    CloseKeeps(c'.up, Close(c', t));
    if c.InLeft? { LeftRotationKeeps(Top, Close(c, t)); } else { RightRotationKeeps(Top, Close(c, t)); }
    assert Inorder(Close(c'.up, Close(c', t))) == Inorder(Close(c, t));
    assert Nodes(Close(c'.up, Close(c', t))) == Nodes(Close(c, t));
  }

  // A sibling without red children turns red, and the gap moves up.
  function SiblingReddened(c: Path, t: Tree): Tree
    requires !c.Top? && Beside(c).Bin?
  {
    Close(WithBeside(c, Beside(c).(red := true)), t)
  }

  lemma DeleteReddens(c: Path, t: Tree)
    requires DeleteGap(c, t) && !IsRed(t) && !c.Top? && Beside(c).Bin? && !Beside(c).red
    requires !IsRed(Near(c)) && !IsRed(Far(c))
    ensures DeleteGap(c.up, SiblingReddened(c, t))
    ensures IsRed(SiblingReddened(c, t)) <==> c.red
    ensures Items(c.up, SiblingReddened(c, t)) == Items(c, t)
    ensures Nodes(SiblingReddened(c, t)) + PathNodes(c.up) == Nodes(t) + PathNodes(c)
  {
    CloseKeeps(c, t);
    assert Inorder(SiblingReddened(c, t)) == Inorder(Close(c, t));
    assert Nodes(SiblingReddened(c, t)) == Nodes(Close(c, t));
  }

  // A red near child rotates over the sibling, so that the far child is red.
  function NearTurned(c: Path): Path
    requires !c.Top? && Beside(c).Bin? && Near(c).Bin?
  {
    var w := Beside(c);
    if c.InLeft? then WithBeside(c, RightRotated(Bin(w.left.(red := false), w.node, w.key, true, w.right)))
    else WithBeside(c, LeftRotated(Bin(w.left, w.node, w.key, true, w.right.(red := false))))
  }

  lemma DeleteTurnsNear(c: Path, t: Tree)
    requires DeleteGap(c, t) && !c.Top? && Beside(c).Bin? && !Beside(c).red
    requires IsRed(Near(c)) && !IsRed(Far(c))
    ensures var c' := NearTurned(c);
      DeleteGap(c', t) && Beside(c').Bin? && !Beside(c').red && IsRed(Far(c'))
      && (c'.InLeft? <==> c.InLeft?) && c'.red == c.red && c'.up == c.up
  {
    var w := Beside(c);
    if c.InLeft? {
      var u := Bin(w.left.(red := false), w.node, w.key, true, w.right);
      assert Balanced(w.left) && Balanced(RightRotated(u).right);
      assert BlackHeight(RightRotated(u)) == BlackHeight(w) && Balanced(RightRotated(u));
    } else {
      var u := Bin(w.left, w.node, w.key, true, w.right.(red := false));
      assert Balanced(w.right) && Balanced(LeftRotated(u).left);
      assert BlackHeight(LeftRotated(u)) == BlackHeight(w) && Balanced(LeftRotated(u));
    }
  }

  lemma NearTurnedKeeps(c: Path, t: Tree)
    requires !c.Top? && Beside(c).Bin? && Near(c).Bin?
    ensures var c' := NearTurned(c);
      Items(c', t) == Items(c, t) && Nodes(t) + PathNodes(c') == Nodes(t) + PathNodes(c)
  {
    var w := Beside(c);
    if c.InLeft? {
      var u := Bin(w.left.(red := false), w.node, w.key, true, w.right);
      RightRotationKeeps(Top, u);
      assert Inorder(u.left) == Inorder(w.left) && Nodes(u.left) == Nodes(w.left);
      assert Inorder(u) == Inorder(w) && Nodes(u) == Nodes(w);
    } else {
      var u := Bin(w.left, w.node, w.key, true, w.right.(red := false));
      LeftRotationKeeps(Top, u);
      assert Inorder(u.right) == Inorder(w.right) && Nodes(u.right) == Nodes(w.right);
      assert Inorder(u) == Inorder(w) && Nodes(u) == Nodes(w);
    }
  }

  // The sibling rotates over the parent and takes its colour, its far child
  // pays for the missing black node.
  function FarTurned(c: Path, t: Tree): Tree
    requires !c.Top? && Beside(c).Bin?
  {
    match c
    case InLeft(_, p, kp, red, w) => Bin(Bin(t, p, kp, false, w.left), w.node, w.key, red, Blacken(w.right))
    case InRight(_, w, p, kp, red) => Bin(Blacken(w.left), w.node, w.key, red, Bin(w.right, p, kp, false, t))
  }

  lemma FarTurnedKeeps(c: Path, t: Tree)
    requires !c.Top? && Beside(c).Bin?
    ensures Inorder(Plug(c.up, FarTurned(c, t))) == Items(c, t)
    ensures Nodes(Plug(c.up, FarTurned(c, t))) == Nodes(t) + PathNodes(c)
  {
    var u := FarTurned(c, t);
    CloseKeeps(c, t);
    BlackenKeeps(Far(c));
    if c.InLeft? {
      LeftRotationKeeps(Top, Close(c, t));
      assert Inorder(u.left) == Inorder(LeftRotated(Close(c, t)).left) && Nodes(u.left) == Nodes(LeftRotated(Close(c, t)).left);
    } else {
      RightRotationKeeps(Top, Close(c, t));
      assert Inorder(u.right) == Inorder(RightRotated(Close(c, t)).right) && Nodes(u.right) == Nodes(RightRotated(Close(c, t)).right);
    }
    PlugInorder(c.up, u);
    PlugNodes(c.up, u);
  }

  lemma DeleteTurnsFar(c: Path, t: Tree)
    requires DeleteGap(c, t) && !IsRed(t) && !c.Top? && Beside(c).Bin? && !Beside(c).red && IsRed(Far(c))
    ensures RedBlack(Plug(c.up, FarTurned(c, t)))
  {
    var u := FarTurned(c, t);
    assert Balanced(Beside(c)) && Balanced(Far(c)) && Balanced(Near(c));
    assert Balanced(u.left) && Balanced(u.right) && BlackHeight(u.left) == BlackHeight(t) + 1 == BlackHeight(u.right);
    assert Fits(c.up, BlackHeight(u));
    PlugBalanced(c.up, u);
  }

  // What a deletion does to the order of the nodes.
  ghost predicate Drops(s: seq<Item>, node: Node, s': seq<Item>, at: nat) {
    at < |s| && s[at].node == node && s' == s[..at] + s[at + 1..]
  }

  lemma DropsAt(b: seq<Item>, i: Item, r: seq<Item>)
    ensures Drops(b + [i] + r, i.node, b + r, |b|)
  {}

  lemma AssociateItems(a: seq<Item>, b: seq<Item>, c: seq<Item>, d: seq<Item>, e: seq<Item>)
    ensures a + (b + c + d) + e == (a + b) + c + (d + e)
    ensures b == [] ==> a + d + e == (a + b) + (d + e)
    ensures d == [] ==> a + b + e == (a + b) + (d + e)
  {}

  lemma AssociateInner(b: seq<Item>, i: seq<Item>, j: seq<Item>, d: seq<Item>, e: seq<Item>)
    ensures (b + i + []) + (j + d) + e == b + i + (j + d + e)
    ensures (b + j + []) + d + e == b + (j + d + e)
  {}

  lemma DropsOuter(c: Path, t: Tree, s: Tree) returns (at: nat)
    requires t.Bin? && ((t.left.Leaf? && s == t.right) || (t.right.Leaf? && s == t.left))
    ensures Drops(Items(c, t), t.node, Items(c, s), at)
  {
    var b, r := Before(c) + Inorder(t.left), Inorder(t.right) + After(c);
    at := |b|;
    DropsAt(b, Item(t.node, t.key), r);
    AssociateItems(Before(c), Inorder(t.left), [Item(t.node, t.key)], Inorder(t.right), After(c));
  }

  predicate AllLeft(c: Path) { c.Top? || (c.InLeft? && AllLeft(c.up)) }

  lemma Associate(a: seq<Item>, b: seq<Item>, c: seq<Item>)
    ensures (a + b) + c == a + (b + c)
  {}

  lemma {:induction false} JoinItems(inner: Path, outer: Path)
    ensures Before(Join(inner, outer)) == Before(outer) + Before(inner)
    ensures After(Join(inner, outer)) == After(inner) + After(outer)
    ensures AllLeft(inner) ==> Before(inner) == []
  {
    match inner
    case Top =>
    case InLeft(up, n, k, _, r) =>
      JoinItems(up, outer);
      Associate([Item(n, k)] + Inorder(r), After(up), After(outer));
    case InRight(up, l, n, k, _) =>
      JoinItems(up, outer);
      Associate(Before(outer), Before(up), Inorder(l));
      Associate(Before(outer), Before(up) + Inorder(l), [Item(n, k)]);
  }

  lemma DropsInner(c: Path, l: Tree, node: Node, k: Word, red: bool, inner: Path, subst: Node, ks: Word, rs: bool, tr: Tree) returns (at: nat)
    requires AllLeft(inner)
    ensures Drops(Items(Join(inner, InRight(c, l, node, k, red)), Bin(Leaf, subst, ks, rs, tr)), node,
                  Items(Join(inner, InRight(c, l, subst, ks, red)), tr), at)
  {
    JoinItems(inner, InRight(c, l, node, k, red));
    JoinItems(inner, InRight(c, l, subst, ks, red));
    var i, j := [Item(node, k)], [Item(subst, ks)];
    var b, r := Before(c) + Inorder(l), j + Inorder(tr) + (After(inner) + After(c));
    at := |b|;
    DropsAt(b, Item(node, k), r);
    assert Inorder(Bin(Leaf, subst, ks, rs, tr)) == j + Inorder(tr);
    AssociateInner(b, i, j, Inorder(tr), After(inner) + After(c));
  }

  // The successor in the place of the node, in the node's colour.
  lemma {:induction false} SuccessorFits(c: Path, l: Tree, node: Node, k: Word, red: bool, inner: Path, subst: Node, ks: Word, h: nat)
    ensures var p, p' := Join(inner, InRight(c, l, node, k, red)), Join(inner, InRight(c, l, subst, ks, red));
      (Fits(p, h) <==> Fits(p', h)) && (PathRed(p) <==> PathRed(p')) && !p.Top? && !p'.Top?
    decreases inner
  {
    if !inner.Top? {
      SuccessorFits(c, l, node, k, red, inner.up, subst, ks, h + if inner.red then 0 else 1);
    }
  }

  // Taking the successor out where it was, with its own colour.
  lemma DeleteStartsInner(c: Path, l: Tree, node: Node, k: Word, red: bool, inner: Path, t: Tree) returns (at: nat)
    requires RedBlack(Plug(Join(inner, InRight(c, l, node, k, red)), t))
    requires t.Bin? && t.left.Leaf? && AllLeft(inner)
    ensures var p' := Join(inner, InRight(c, l, t.node, t.key, red));
      && (if t.red then RedBlack(Plug(p', t.right)) else DeleteGap(p', t.right))
      && Drops(Inorder(Plug(Join(inner, InRight(c, l, node, k, red)), t)), node, Items(p', t.right), at)
  {
    var p := Join(inner, InRight(c, l, node, k, red));
    CutFits(p, t);
    SuccessorFits(c, l, node, k, red, inner, t.node, t.key, BlackHeight(t.right));
    SuccessorFits(c, l, node, k, red, inner, t.node, t.key, BlackHeight(t.right) + 1);
    if t.red {
      PlugBalanced(Join(inner, InRight(c, l, t.node, t.key, red)), t.right);
    }
    at := DropsInner(c, l, node, k, red, inner, t.node, t.key, t.red, t.right);
    PlugInorder(p, t);
  }

  // Taking a node out keeps the others in order.
  lemma DropsKeepsSorted(order: Order, base: Word, s: seq<Item>, node: Node, s': seq<Item>, at: nat)
    requires Drops(s, node, s', at)
    ensures Sorted(order, s) ==> Sorted(order, s')
    ensures InWindow(order, base, s) ==> InWindow(order, base, s')
  {
    assert forall i :: 0 <= i < |s'| ==> s'[i] == if i < at then s[i] else s[i + 1];
    if InWindow(order, base, s) && order.Timer? {
      forall i | 0 <= i < |s'| ensures Minus(s'[i].key, base) < HALF_RANGE {
        assert s'[i] == if i < at then s[i] else s[i + 1];
      }
    }
  }

  // Under a window of half the key range the first node has the earliest key.
  lemma FirstIsEarliest(base: Word, s: seq<Item>)
    requires Sorted(Timer, s) && InWindow(Timer, base, s)
    ensures forall i :: 0 <= i < |s| ==> Minus(s[0].key, base) <= Minus(s[i].key, base)
  {
    forall i | 0 <= i < |s| ensures Minus(s[0].key, base) <= Minus(s[i].key, base) {
      WindowOrders(base, s[i].key, s[0].key);
    }
  }

  // The node after the top of `t`.
  ghost function NextItem(c: Path, t: Tree): seq<Item>
    requires t.Bin?
  {
    Inorder(t.right) + After(c)
  }

  lemma NextItemFollows(c: Path, t: Tree)
    requires t.Bin?
    ensures var s, at := Inorder(Plug(c, t)), |Before(c)| + |Inorder(t.left)|;
      && at < |s| && s[at].node == t.node
      && (if NextItem(c, t) == [] then at + 1 == |s| else at + 1 < |s| && s[at + 1] == NextItem(c, t)[0])
  {
    PlugInorder(c, t);
    AssociateItems(Before(c), Inorder(t.left), [Item(t.node, t.key)], Inorder(t.right), After(c));
  }

  lemma LeftmostIsFirst(inner: Path, t: Tree)
    requires AllLeft(inner) && t.Bin? && t.left.Leaf?
    ensures |Inorder(Plug(inner, t))| > 0 && Inorder(Plug(inner, t))[0] == Item(t.node, t.key)
  {
    PlugInorder(inner, t);
    JoinItems(inner, Top);
  }
}
