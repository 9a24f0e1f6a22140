// What the memory stands for after each piece of surgery of the two
// rebalancing loops: RbMemory's rotations and paintings put together.
module RbRepair {
  import opened RbShape
  import opened RbMemory
  import opened RbBalance

  // Parent and uncle black, grandparent red.
  lemma RecoloredMemory(m: Memory, c: Path, t: Tree, root: Node?, nil: Node)
    requires !c.Top? && !c.up.Top? && t.Bin? && IsRed(Beside(c.up)) && At(m, c, t, t.node, root, nil)
    ensures var m' := Painted(Painted(Painted(m, c.node, false), Beside(c.up).node, false), c.up.node, true);
      At(m', c.up.up, RecoloredTree(c, t), c.up.node, root, nil)
  {
    var m1 := Painted(m, c.node, false);
    var c1 := c.(red := false);
    PaintAbove(m, c, t, t.node, false, root, nil);
    GoUp(m1, c1, t, t.node, root, nil);
    var u := Beside(c1.up);
    var m2 := Painted(m1, u.node, false);
    PaintBeside(m1, c1.up, Close(c1, t), c.node, false, root, nil);
    var c2 := WithBeside(c1.up, Blacken(u));
    GoUp(m2, c2, Close(c1, t), c.node, root, nil);
    PaintTop(m2, c2.up, Close(c2, Close(c1, t)), true, root, nil);
  }

  lemma TurnOutAllowed(m: Memory, c: Path, t: Tree, root: Node?, nil: Node)
    requires !c.Top? && t.Bin? && At(m, c, t, t.node, root, nil) && nil !in m
    ensures if c.InRight? then MayRotateLeft(m, c.node, root, nil) else MayRotateRight(m, c.node, root, nil)
  {
    GoUp(m, c, t, t.node, root, nil);
    if c.InRight? { LeftRotationAllowed(m, c.up, Close(c, t), root, nil); } else { RightRotationAllowed(m, c.up, Close(c, t), root, nil); }
  }

  // The parent of an inner grandchild rotated under it.
  lemma TurnedOutMemory(m: Memory, m': Memory, c: Path, t: Tree, root: Node?, root': Node?, nil: Node)
    requires !c.Top? && t.Bin? && At(m, c, t, t.node, root, nil) && nil !in m
    requires if c.InRight? then MayRotateLeft(m, c.node, root, nil) && RotatesLeft(m, m', c.node, root, root', nil)
             else MayRotateRight(m, c.node, root, nil) && RotatesRight(m, m', c.node, root, root', nil)
    ensures var (c', t') := TurnedOut(c, t); At(m', c', t', c.node, root', nil)
  {
    GoUp(m, c, t, t.node, root, nil);
    var top := Close(c, t);
    if c.InRight? {
      LeftRotation(m, m', c.up, top, root, root', nil);
      GoLeft(m', c.up, LeftRotated(top), root', nil);
    } else {
      RightRotation(m, m', c.up, top, root, root', nil);
      GoRight(m', c.up, RightRotated(top), root', nil);
    }
  }

  // Parent black and grandparent red, about to rotate.
  lemma RepaintedMemory(m: Memory, c: Path, t: Tree, root: Node?, nil: Node)
    requires !c.Top? && !c.up.Top? && t.Bin? && At(m, c, t, t.node, root, nil)
    ensures var m' := Painted(Painted(m, c.node, false), c.up.node, true);
      At(m', Repainted(c), t, t.node, root, nil)
  {
    PaintAbove(m, c, t, t.node, false, root, nil);
    PaintTwoAbove(Painted(m, c.node, false), c.(red := false), t, t.node, true, root, nil);
  }

  lemma TurnUpAllowed(m: Memory, c: Path, t: Tree, root: Node?, nil: Node)
    requires !c.Top? && !c.up.Top? && t.Bin? && At(m, c, t, t.node, root, nil) && nil !in m
    requires c.InLeft? <==> c.up.InLeft?
    ensures if c.InLeft? then MayRotateRight(m, c.up.node, root, nil) else MayRotateLeft(m, c.up.node, root, nil)
  {
    GoUp(m, c, t, t.node, root, nil);
    GoUp(m, c.up, Close(c, t), c.node, root, nil);
    var top := Close(c.up, Close(c, t));
    if c.InLeft? { RightRotationAllowed(m, c.up.up, top, root, nil); } else { LeftRotationAllowed(m, c.up.up, top, root, nil); }
  }

  lemma TurnedUpMemory(m: Memory, m': Memory, c: Path, t: Tree, root: Node?, root': Node?, nil: Node)
    requires !c.Top? && !c.up.Top? && t.Bin? && At(m, c, t, t.node, root, nil) && nil !in m
    requires (c.InLeft? <==> c.up.InLeft?) && !c.red && c.up.red
    requires if c.InLeft? then MayRotateRight(m, c.up.node, root, nil) && RotatesRight(m, m', c.up.node, root, root', nil)
             else MayRotateLeft(m, c.up.node, root, nil) && RotatesLeft(m, m', c.up.node, root, root', nil)
    ensures At(m', TurnedUp(c), t, t.node, root', nil)
  {
    GoUp(m, c, t, t.node, root, nil);
    GoUp(m, c.up, Close(c, t), c.node, root, nil);
    var top := Close(c.up, Close(c, t));
    if c.InLeft? {
      RightRotation(m, m', c.up.up, top, root, root', nil);
      GoLeft(m', c.up.up, RightRotated(top), root', nil);
    } else {
      LeftRotation(m, m', c.up.up, top, root, root', nil);
      GoRight(m', c.up.up, LeftRotated(top), root', nil);
    }
  }

  // ----- deletion

  // A subtree with its sibling's subtree in the focus instead.
  function Across(c: Path, t: Tree): (r: Path)
    requires !c.Top?
  {
    match c
    case InLeft(up, p, kp, red, _) => InRight(up, t, p, kp, red)
    case InRight(up, _, p, kp, red) => InLeft(up, p, kp, red, t)
  }

  lemma GoAcross(m: Memory, c: Path, t: Tree, p: Node?, root: Node?, nil: Node)
    requires !c.Top? && At(m, c, t, p, root, nil)
    ensures c.node in m
    ensures var q := if c.InLeft? then m[c.node].right else m[c.node].left;
      At(m, Across(c, t), Beside(c), q, root, nil) && Points(m, Beside(c), q, nil)
  {
    GoUp(m, c, t, p, root, nil);
    if c.InLeft? { GoRight(m, c.up, Close(c, t), root, nil); } else { GoLeft(m, c.up, Close(c, t), root, nil); }
  }

  // The links that lead to the sibling and its children.
  lemma SiblingLinks(m: Memory, c: Path, t: Tree, p: Node?, root: Node?, nil: Node)
    requires !c.Top? && Beside(c).Bin? && At(m, c, t, p, root, nil) && nil !in m
    ensures c.node in m && m[c.node].red == c.red && p != root && root != nil
    ensures var w := Beside(c).node;
      && w in m && w != c.node && m[w].red == Beside(c).red && m[w].parent == c.node
      && (if c.InLeft? then m[c.node].left == p && m[c.node].right == w else m[c.node].right == p && m[c.node].left == w && w != p)
      && Points(m, Beside(c).left, m[w].left, nil) && Points(m, Beside(c).right, m[w].right, nil)
  {
    WhereItHangs(m, c, t, p, root, nil);
    GoAcross(m, c, t, p, root, nil);
    var w := Beside(c);
    WhereItHangs(m, Across(c, t), w, w.node, root, nil);
    HoldsNodes(m, w.left, m[w.node].left, nil);
    HoldsNodes(m, w.right, m[w.node].right, nil);
  }

  function SwappedColors(c: Path): Path
    requires !c.Top? && Beside(c).Bin?
  {
    if c.InLeft? then c.(red := true, right := c.right.(red := false)) else c.(red := true, left := c.left.(red := false))
  }

  // Sibling black, parent red, about to rotate.
  lemma SwappedMemory(m: Memory, c: Path, t: Tree, p: Node?, root: Node?, nil: Node)
    requires !c.Top? && Beside(c).Bin? && At(m, c, t, p, root, nil) && nil !in m
    ensures var m' := Painted(Painted(m, Beside(c).node, false), c.node, true);
      && At(m', SwappedColors(c), t, p, root, nil)
      && (if c.InLeft? then MayRotateLeft(m', c.node, root, nil) else MayRotateRight(m', c.node, root, nil))
  {
    var w := Beside(c);
    var m1 := Painted(m, w.node, false);
    PaintBeside(m, c, t, p, false, root, nil);
    var c1 := WithBeside(c, w.(red := false));
    PaintAbove(m1, c1, t, p, true, root, nil);
    var m2, c2 := Painted(m1, c.node, true), SwappedColors(c);
    GoUp(m2, c2, t, p, root, nil);
    if c.InLeft? { LeftRotationAllowed(m2, c.up, Close(c2, t), root, nil); } else { RightRotationAllowed(m2, c.up, Close(c2, t), root, nil); }
  }

  lemma SiblingTurnedMemory(m: Memory, m': Memory, c: Path, t: Tree, p: Node?, root: Node?, root': Node?, nil: Node)
    requires !c.Top? && Beside(c).Bin? && At(m, SwappedColors(c), t, p, root, nil)
    requires if c.InLeft? then MayRotateLeft(m, c.node, root, nil) && RotatesLeft(m, m', c.node, root, root', nil)
             else MayRotateRight(m, c.node, root, nil) && RotatesRight(m, m', c.node, root, root', nil)
    ensures At(m', SiblingTurned(c), t, p, root', nil)
  {
    var c2 := SwappedColors(c);
    GoUp(m, c2, t, p, root, nil);
    SubtreePointer(m, m', c2, t, p, root, nil);
    var top := Close(c2, t);
    if c.InLeft? {
      LeftRotation(m, m', c.up, top, root, root', nil);
      var u := LeftRotated(top);
      GoLeft(m', c.up, u, root', nil);
      GoLeft(m', InLeft(c.up, u.node, u.key, u.red, u.right), u.left, root', nil);
    } else {
      RightRotation(m, m', c.up, top, root, root', nil);
      var u := RightRotated(top);
      GoRight(m', c.up, u, root', nil);
      GoRight(m', InRight(c.up, u.left, u.node, u.key, u.red), u.right, root', nil);
    }
  }

  // A rotation at the parent leaves its link to the subtree alone.
  lemma SubtreePointer(m: Memory, m': Memory, c: Path, t: Tree, p: Node?, root: Node?, nil: Node)
    requires !c.Top? && Beside(c).Bin? && At(m, c, t, p, root, nil)
    ensures c.node in m && (if c.InLeft? then m[c.node].left == p && m[c.node].right == Beside(c).node else m[c.node].right == p && m[c.node].left == Beside(c).node)
  {
  }

  // The sibling red.
  lemma ReddenedMemory(m: Memory, c: Path, t: Tree, p: Node?, root: Node?, nil: Node)
    requires !c.Top? && Beside(c).Bin? && At(m, c, t, p, root, nil)
    ensures At(Painted(m, Beside(c).node, true), c.up, SiblingReddened(c, t), c.node, root, nil)
  {
    var w := Beside(c);
    PaintBeside(m, c, t, p, true, root, nil);
    GoUp(Painted(m, w.node, true), WithBeside(c, w.(red := true)), t, p, root, nil);
  }

  // The near child black, the sibling red, about to rotate.
  function NearPainted(c: Path): Path
    requires !c.Top? && Beside(c).Bin? && Near(c).Bin?
  {
    var w := Beside(c);
    WithBeside(c, if c.InLeft? then w.(red := true, left := w.left.(red := false)) else w.(red := true, right := w.right.(red := false)))
  }

  lemma NearPaintedMemory(m: Memory, c: Path, t: Tree, p: Node?, root: Node?, nil: Node)
    requires !c.Top? && Beside(c).Bin? && Near(c).Bin? && At(m, c, t, p, root, nil) && nil !in m
    ensures var m' := Painted(Painted(m, Near(c).node, false), Beside(c).node, true);
      && At(m', NearPainted(c), t, p, root, nil)
      && (if c.InLeft? then MayRotateRight(m', Beside(c).node, root, nil) else MayRotateLeft(m', Beside(c).node, root, nil))
  {
    var w, k := Beside(c), Across(c, t);
    GoAcross(m, c, t, p, root, nil);
    var m1, m2 := Painted(m, Near(c).node, false), Painted(Painted(m, Near(c).node, false), w.node, true);
    var near := Near(c).(red := false);
    var side := Below(k, w, c.InLeft?).0;
    if c.InLeft? { GoLeft(m, k, w, root, nil); } else { GoRight(m, k, w, root, nil); }
    PaintTop(m, side, Near(c), false, root, nil);
    GoUp(m1, side, near, near.node, root, nil);
    var w1 := Close(side, near);
    PaintTop(m1, k, w1, true, root, nil);
    var w2 := w1.(red := true);
    if c.InLeft? { RightRotationAllowed(m2, k, w2, root, nil); } else { LeftRotationAllowed(m2, k, w2, root, nil); }
    SameSubtree(m, m2, c, t, p, k, w2, root, nil);
  }

  // Back from the sibling: the pointer to the subtree is still the same.
  lemma SameSubtree(m: Memory, m': Memory, c: Path, t: Tree, p: Node?, k: Path, w: Tree, root: Node?, nil: Node)
    requires !c.Top? && At(m, c, t, p, root, nil) && k == Across(c, t)
    requires w.Bin? && At(m', k, w, w.node, root, nil)
    requires c.node in m && c.node in m'
    requires if c.InLeft? then m'[c.node].left == m[c.node].left else m'[c.node].right == m[c.node].right
    ensures At(m', WithBeside(c, w), t, p, root, nil)
  {
    GoAcross(m', k, w, w.node, root, nil);
  }

  lemma NearTurnedMemory(m: Memory, m': Memory, c: Path, t: Tree, p: Node?, root: Node?, root': Node?, nil: Node)
    requires !c.Top? && Beside(c).Bin? && Near(c).Bin? && At(m, NearPainted(c), t, p, root, nil)
    requires var w := Beside(c).node;
      if c.InLeft? then MayRotateRight(m, w, root, nil) && RotatesRight(m, m', w, root, root', nil)
      else MayRotateLeft(m, w, root, nil) && RotatesLeft(m, m', w, root, root', nil)
    ensures root' == root && At(m', NearTurned(c), t, p, root', nil)
  {
    var c1 := NearPainted(c);
    var w, k := Beside(c1), Across(c1, t);
    GoAcross(m, c1, t, p, root, nil);
    WhereItHangs(m, k, w, w.node, root, nil);
    assert m[w.node].parent == c.node;
    if c.InLeft? {
      RightRotation(m, m', k, w, root, root', nil);
      SameSubtree(m, m', c1, t, p, k, RightRotated(w), root, nil);
    } else {
      LeftRotation(m, m', k, w, root, root', nil);
      SameSubtree(m, m', c1, t, p, k, LeftRotated(w), root, nil);
    }
  }

  // The sibling in the parent's colour, the parent and the far child black,
  // about to rotate.
  function FarPainted(c: Path): Path
    requires !c.Top? && Beside(c).Bin? && Far(c).Bin?
  {
    if c.InLeft? then c.(red := false, right := c.right.(red := c.red, right := c.right.right.(red := false)))
    else c.(red := false, left := c.left.(red := c.red, left := c.left.left.(red := false)))
  }

  function FarBlackened(c: Path): Path
    requires !c.Top? && Beside(c).Bin? && Far(c).Bin?
  {
    if c.InLeft? then c.(right := c.right.(right := c.right.right.(red := false)))
    else c.(left := c.left.(left := c.left.left.(red := false)))
  }

  lemma PaintFar(m: Memory, c: Path, t: Tree, p: Node?, root: Node?, nil: Node)
    requires !c.Top? && Beside(c).Bin? && Far(c).Bin? && At(m, c, t, p, root, nil)
    ensures At(Painted(m, Far(c).node, false), FarBlackened(c), t, p, root, nil)
  {
    var w, k := Beside(c), Across(c, t);
    var m' := Painted(m, Far(c).node, false);
    GoAcross(m, c, t, p, root, nil);
    var side := Below(k, w, c.InRight?).0;
    if c.InLeft? { GoRight(m, k, w, root, nil); } else { GoLeft(m, k, w, root, nil); }
    PaintTop(m, side, Far(c), false, root, nil);
    var far := Far(c).(red := false);
    GoUp(m', side, far, far.node, root, nil);
    SameSubtree(m, m', c, t, p, k, Close(side, far), root, nil);
  }

  lemma FarPaintedMemory(m: Memory, c: Path, t: Tree, p: Node?, root: Node?, nil: Node)
    requires !c.Top? && Beside(c).Bin? && Far(c).Bin? && At(m, c, t, p, root, nil) && nil !in m
    ensures var m' := Painted(Painted(Painted(m, Beside(c).node, c.red), c.node, false), Far(c).node, false);
      && At(m', FarPainted(c), t, p, root, nil)
      && (if c.InLeft? then MayRotateLeft(m', c.node, root, nil) else MayRotateRight(m', c.node, root, nil))
  {
    var m1 := Painted(m, Beside(c).node, c.red);
    var m2 := Painted(m1, c.node, false);
    PaintBeside(m, c, t, p, c.red, root, nil);
    var c1 := WithBeside(c, Beside(c).(red := c.red));
    PaintAbove(m1, c1, t, p, false, root, nil);
    PaintFar(m2, c1.(red := false), t, p, root, nil);
    FarRotationAllowed(Painted(m2, Far(c).node, false), FarPainted(c), t, p, root, nil);
  }

  lemma FarRotationAllowed(m: Memory, c: Path, t: Tree, p: Node?, root: Node?, nil: Node)
    requires !c.Top? && Beside(c).Bin? && At(m, c, t, p, root, nil) && nil !in m
    ensures if c.InLeft? then MayRotateLeft(m, c.node, root, nil) else MayRotateRight(m, c.node, root, nil)
  {
    GoUp(m, c, t, p, root, nil);
    if c.InLeft? { LeftRotationAllowed(m, c.up, Close(c, t), root, nil); } else { RightRotationAllowed(m, c.up, Close(c, t), root, nil); }
  }

  lemma FarTurnedMemory(m: Memory, m': Memory, c: Path, t: Tree, p: Node?, root: Node?, root': Node?, nil: Node)
    requires !c.Top? && Beside(c).Bin? && Far(c).Bin? && At(m, FarPainted(c), t, p, root, nil)
    requires if c.InLeft? then MayRotateLeft(m, c.node, root, nil) && RotatesLeft(m, m', c.node, root, root', nil)
             else MayRotateRight(m, c.node, root, nil) && RotatesRight(m, m', c.node, root, root', nil)
    ensures At(m', Top, Plug(c.up, FarTurned(c, t)), root', root', nil)
  {
    GoUp(m, FarPainted(c), t, p, root, nil);
    var top := Close(FarPainted(c), t);
    if c.InLeft? { LeftRotation(m, m', c.up, top, root, root', nil); } else { RightRotation(m, m', c.up, top, root, root', nil); }
    GoTop(m', c.up, FarTurned(c, t), FarTurned(c, t).node, root', nil);
  }
}
