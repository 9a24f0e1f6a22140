// Taking a node out of the memory: directly when it has at most one child,
// otherwise by putting its successor in its place.
module RbSplice {
  import opened RbShape
  import opened RbMemory
  import opened RbBalance

  // The outermost node of a path.
  function Last(c: Path): Node
    requires !c.Top?
  {
    if c.up.Top? then c.node else Last(c.up)
  }

  lemma {:induction false} LastInPath(c: Path)
    requires !c.Top?
    ensures Last(c) in PathNodes(c)
  {
    if !c.up.Top? {
      LastInPath(c.up);
    }
  }

  lemma {:induction false} RootIsLast(m: Memory, c: Path, p: Node?, root: Node?, nil: Node)
    requires HoldsPath(m, c, p, root, nil)
    ensures root == if c.Top? then p else Last(c)
  {
    if !c.Top? {
      RootIsLast(m, c.up, c.node, root, nil);
    }
  }

  lemma {:induction false} JoinPath(m: Memory, inner: Path, outer: Path, p: Node?, q: Node?, root: Node?, nil: Node)
    requires HoldsPath(m, inner, p, q, nil) && HoldsPath(m, outer, q, root, nil)
    requires !inner.Top? && !outer.Top? ==> Last(inner) in m && m[Last(inner)].parent == outer.node
    ensures HoldsPath(m, Join(inner, outer), p, root, nil)
  {
    if !inner.Top? {
      JoinPath(m, inner.up, outer, inner.node, q, root, nil);
    }
  }

  lemma {:induction false} CutPath(m: Memory, inner: Path, outer: Path, p: Node?, root: Node?, nil: Node)
    requires HoldsPath(m, Join(inner, outer), p, root, nil)
    ensures var q := if inner.Top? then p else Last(inner);
      HoldsPath(m, inner, p, q, nil) && HoldsPath(m, outer, q, root, nil)
    ensures !inner.Top? && !outer.Top? ==> Last(inner) in m && m[Last(inner)].parent == outer.node
  {
    if !inner.Top? {
      CutPath(m, inner.up, outer, inner.node, root, nil);
    }
  }

  lemma {:induction false} DistinctJoin(inner: Path, outer: Path)
    ensures DistinctPath(Join(inner, outer)) <==> DistinctPath(inner) && DistinctPath(outer) && PathNodes(inner) !! PathNodes(outer)
    ensures PathNodes(Join(inner, outer)) == PathNodes(inner) + PathNodes(outer)
  {
    if !inner.Top? {
      DistinctJoin(inner.up, outer);
    }
  }

  // Only the parent link of the outermost node changes.
  lemma {:induction false} ReparentPath(m: Memory, m': Memory, c: Path, p: Node?, q: Node?, parent: Node, nil: Node, touched: set<Node>)
    requires !c.Top? && HoldsPath(m, c, p, q, nil) && DistinctPath(c)
    requires Elsewhere(m, m', touched) && touched !! PathNodes(c) - {Last(c)}
    requires Last(c) in m && Last(c) in m' && m'[Last(c)] == m[Last(c)].(parent := parent)
    ensures HoldsPath(m', c, p, q, nil)
  {
    LastInPath(c);
    if !c.up.Top? { LastInPath(c.up); }
    if c.InLeft? {
      HoldsFrame(m, m', c.right, m[c.node].right, nil, touched);
    } else {
      HoldsFrame(m, m', c.left, m[c.node].left, nil, touched);
    }
    if !c.up.Top? {
      ReparentPath(m, m', c.up, c.node, q, parent, nil, touched);
    }
  }

  // ----- a node with at most one child

  // What taking out a node with at most one child writes, when it is not the
  // root: the parent and the child are linked.
  ghost predicate CutsOut(m: Memory, m': Memory, node: Node, temp: Node)
    requires node in m && Other(m, m[node].parent, {node, temp})
  {
    var q := m[node].parent;
    && q in m' && m'[q] == (if m[q].left == node then m[q].(left := temp) else m[q].(right := temp))
    && (temp in m ==> temp in m' && m'[temp] == m[temp].(parent := q))
    && Elsewhere(m, m', {node, q, temp})
  }

  ghost predicate OneChild(t: Tree, s: Tree) {
    t.Bin? && ((t.left.Leaf? && s == t.right) || (t.right.Leaf? && s == t.left))
  }

  lemma MayCutOut(m: Memory, c: Path, t: Tree, s: Tree, temp: Node, root: Node?, nil: Node)
    requires !c.Top? && OneChild(t, s) && At(m, c, t, t.node, root, nil)
    requires Holds(m, s, temp, nil) && nil !in m
    ensures t.node in m && m[t.node].parent == c.node && Other(m, c.node, {t.node, temp})
    ensures temp in m <==> s.Bin?
    ensures m[c.node].left == t.node <==> c.InLeft?
  {
    WhereItHangs(m, c, t, t.node, root, nil);
    HoldsNodes(m, s, temp, nil);
  }

  lemma CutOutMemory(m: Memory, m': Memory, c: Path, t: Tree, s: Tree, temp: Node, root: Node?, nil: Node)
    requires !c.Top? && OneChild(t, s) && At(m, c, t, t.node, root, nil)
    requires Holds(m, s, temp, nil) && nil !in m
    requires t.node in m && Other(m, m[t.node].parent, {t.node, temp}) && CutsOut(m, m', t.node, temp)
    ensures At(m', c, s, temp, root, nil)
  {
    MayCutOut(m, c, t, s, temp, root, nil);
    WhereItHangs(m, c, t, t.node, root, nil);
    var touched := {t.node, c.node, temp};
    assert if s.Bin? then temp == s.node && temp in Nodes(t) else temp == nil;
    Reparent(m, m', s, temp, c.node, nil, touched);
    Rehang(m, m', c, t.node, temp, root, root, nil, touched);
  }

  // ----- a node with two children

  // The parts of a tree around `node`, whose right subtree has `inner` around
  // `tr`, are all different.
  ghost predicate Separate(c: Path, l: Tree, node: Node, inner: Path, subst: Node, tr: Tree) {
    && DistinctPath(c) && Distinct(l) && DistinctPath(inner) && Distinct(tr) && node != subst
    && node !in PathNodes(c) + Nodes(l) + PathNodes(inner) + Nodes(tr)
    && subst !in PathNodes(c) + Nodes(l) + PathNodes(inner) + Nodes(tr)
    && PathNodes(c) !! Nodes(l) && PathNodes(c) !! PathNodes(inner) && PathNodes(c) !! Nodes(tr)
    && Nodes(l) !! PathNodes(inner) && Nodes(l) !! Nodes(tr) && PathNodes(inner) !! Nodes(tr)
  }

  lemma SeparateIff(c: Path, l: Tree, node: Node, k: Word, red: bool, inner: Path, subst: Node, ks: Word, rs: bool, tr: Tree)
    ensures Apart(Join(inner, InRight(c, l, node, k, red)), Bin(Leaf, subst, ks, rs, tr)) <==> Separate(c, l, node, inner, subst, tr)
  {
    var outer, t := InRight(c, l, node, k, red), Bin(Leaf, subst, ks, rs, tr);
    DistinctJoin(inner, outer);
    assert Nodes(t) == {subst} + Nodes(tr) && PathNodes(outer) == PathNodes(c) + {node} + Nodes(l);
    assert Distinct(t) <==> Distinct(tr) && subst !in Nodes(tr);
  }

  lemma SeparateThen(c: Path, l: Tree, node: Node, inner: Path, subst: Node, ks: Word, red: bool, tr: Tree)
    requires Separate(c, l, node, inner, subst, tr)
    ensures Apart(Join(inner, InRight(c, l, subst, ks, red)), tr)
  {
    DistinctJoin(inner, InRight(c, l, subst, ks, red));
  }

  // The memory of those parts, with `p` where `inner` ends.
  ghost predicate Parts(m: Memory, c: Path, l: Tree, node: Node, inner: Path, p: Node?, root: Node?, nil: Node) {
    && node in m && node != nil
    && HoldsPath(m, inner, p, m[node].right, nil)
    && Holds(m, l, m[node].left, nil) && HoldsPath(m, c, node, root, nil)
    && (!c.Top? ==> m[node].parent == c.node)
  }

  lemma TakeParts(m: Memory, c: Path, l: Tree, node: Node, k: Word, red: bool, inner: Path, t: Tree, p: Node?, root: Node?, nil: Node)
    requires At(m, Join(inner, InRight(c, l, node, k, red)), t, p, root, nil)
    ensures Parts(m, c, l, node, inner, p, root, nil)
    ensures m[node].right == if inner.Top? then p else Last(inner)
    ensures m[node].red == red
  {
    CutPath(m, inner, InRight(c, l, node, k, red), p, root, nil);
  }

  // What unlinking the successor writes: its parent `q` and its right child.
  ghost predicate Unlinks(m: Memory, m': Memory, node: Node, subst: Node, temp: Node)
    requires subst in m && Other(m, m[subst].parent, {subst, temp})
  {
    var q := m[subst].parent;
    && q in m' && m'[q] == (if m[q].left == subst then m[q].(left := temp) else m[q].(right := temp))
    && (temp in m ==> temp in m' && m'[temp] == m[temp].(parent := if q == node then subst else q))
    && Elsewhere(m, m', {q, temp})
  }

  lemma UnlinkedParts(m: Memory, m': Memory, c: Path, l: Tree, node: Node, inner: Path, subst: Node, tr: Tree, temp: Node, root: Node?, nil: Node)
    requires Separate(c, l, node, inner, subst, tr) && Parts(m, c, l, node, inner, subst, root, nil) && nil !in m
    requires Holds(m, tr, temp, nil) && subst in m
    requires m[subst].parent == (if inner.Top? then node else inner.node) && Other(m, m[subst].parent, {subst, temp})
    requires m[m[subst].parent].left == subst <==> inner.InLeft?
    requires Unlinks(m, m', node, subst, temp)
    ensures Parts(m', c, l, node, inner, temp, root, nil)
    ensures Holds(m', tr, temp, nil) && HasParent(m', tr, if inner.Top? then subst else inner.node)
    ensures !inner.Top? ==> m'[node] == m[node]
  {
    hide Apart;
    var q := m[subst].parent;
    var touched := {q, temp};
    HoldsNodes(m, tr, temp, nil);
    HoldsNodes(m, l, m[node].left, nil);
    HoldsPathNodes(m, c, node, root, nil);
    HoldsPathNodes(m, inner, subst, m[node].right, nil);
    assert if tr.Bin? then temp == tr.node && temp in Nodes(tr) else temp == nil;
    Reparent(m, m', tr, temp, if inner.Top? then subst else q, nil, touched);
    HoldsFrame(m, m', l, m[node].left, nil, touched);
    HoldsPathFrame(m, m', c, node, root, nil, touched);
    if !inner.Top? {
      Rehang(m, m', inner, subst, temp, m[node].right, m[node].right, nil, touched);
    }
  }

  // What putting the successor in the place of `node` writes: its own links
  // and colour, the link from above, and the links from below.
  ghost predicate Replaces(m: Memory, m': Memory, node: Node, subst: Node, root: Node?, root': Node?, nil: Node)
    requires node in m && subst in m
    requires node == root || Other(m, m[node].parent, {node, subst})
  {
    var l, r, q := m[node].left, m[node].right, m[node].parent;
    && subst in m' && m'[subst] == Cell(m[subst].key, l, r, q, m[node].red)
    && (if node == root then root' == subst
        else root' == root && q in m' && m'[q] == if m[q].left == node then m[q].(left := subst) else m[q].(right := subst))
    && (l != nil ==> l in m && l in m' && m'[l] == m[l].(parent := subst))
    && (r != nil ==> r in m && r in m' && m'[r] == m[r].(parent := subst))
    && forall n :: n in m && n != node && n != subst && n != l && n != r && (node == root || n != q) ==> n in m' && m'[n] == m[n]
  }

  lemma ReplacedMemory(m: Memory, m': Memory, c: Path, l: Tree, node: Node, inner: Path, subst: Node, ks: Word, tr: Tree, temp: Node, root: Node?, root': Node?, nil: Node)
    requires Separate(c, l, node, inner, subst, tr) && Parts(m, c, l, node, inner, temp, root, nil) && nil !in m
    requires Holds(m, tr, temp, nil) && HasParent(m, tr, if inner.Top? then subst else inner.node)
    requires subst in m && m[subst].key == ks
    requires node == root <==> c.Top?
    requires !c.Top? ==> c.node in m && (m[c.node].left == node <==> c.InLeft?)
    requires node == root || Other(m, m[node].parent, {node, subst})
    requires Replaces(m, m', node, subst, root, root', nil)
    ensures At(m', Join(inner, InRight(c, l, subst, ks, m[node].red)), tr, temp, root', nil)
  {
    var x := m[node].right;
    var touched := {node, subst} + PathTop(c) + TopOf(l) + if inner.Top? then TopOf(tr) else {Last(inner)};
    ReplacedTouches(m, m', c, l, node, inner, subst, tr, temp, root, root', nil, touched);
    ReplacedOutside(m, m', c, l, node, inner, subst, ks, tr, temp, root, root', nil, touched);
    ReplacedInside(m, m', c, l, node, inner, subst, tr, temp, root, nil, touched);
    SeparateThen(c, l, node, inner, subst, ks, m[node].red, tr);
    JoinPath(m', inner, InRight(c, l, subst, ks, m[node].red), temp, x, root', nil);
  }

  lemma ReplacedTouches(m: Memory, m': Memory, c: Path, l: Tree, node: Node, inner: Path, subst: Node, tr: Tree, temp: Node, root: Node?, root': Node?, nil: Node, touched: set<Node>)
    requires Separate(c, l, node, inner, subst, tr) && Parts(m, c, l, node, inner, temp, root, nil) && nil !in m
    requires Holds(m, tr, temp, nil) && subst in m
    requires node == root <==> c.Top?
    requires node == root || Other(m, m[node].parent, {node, subst})
    requires Replaces(m, m', node, subst, root, root', nil)
    requires touched == {node, subst} + PathTop(c) + TopOf(l) + if inner.Top? then TopOf(tr) else {Last(inner)}
    ensures Elsewhere(m, m', touched)
    ensures m[node].left == if l.Bin? then l.node else nil
    ensures m[node].right == if inner.Top? then temp else Last(inner)
    ensures temp == if tr.Bin? then tr.node else nil
    ensures !inner.Top? ==> Last(inner) in PathNodes(inner) && Last(inner) in m
  {
    HoldsNodes(m, tr, temp, nil);
    HoldsNodes(m, l, m[node].left, nil);
    RootIsLast(m, inner, temp, m[node].right, nil);
    HoldsPathNodes(m, inner, temp, m[node].right, nil);
    if !inner.Top? { LastInPath(inner); }
  }

  lemma ReplacedOutside(m: Memory, m': Memory, c: Path, l: Tree, node: Node, inner: Path, subst: Node, ks: Word, tr: Tree, temp: Node, root: Node?, root': Node?, nil: Node, touched: set<Node>)
    requires Separate(c, l, node, inner, subst, tr) && Parts(m, c, l, node, inner, temp, root, nil) && nil !in m
    requires Holds(m, tr, temp, nil) && subst in m && m[subst].key == ks
    requires node == root <==> c.Top?
    requires !c.Top? ==> c.node in m && (m[c.node].left == node <==> c.InLeft?)
    requires node == root || Other(m, m[node].parent, {node, subst})
    requires Replaces(m, m', node, subst, root, root', nil)
    requires touched == {node, subst} + PathTop(c) + TopOf(l) + if inner.Top? then TopOf(tr) else {Last(inner)}
    ensures HoldsPath(m', InRight(c, l, subst, ks, m[node].red), m[node].right, root', nil)
  {
    hide Elsewhere, Distinct, Other, DistinctPath;
    ReplacedTouches(m, m', c, l, node, inner, subst, tr, temp, root, root', nil, touched);
    assert c.Top? || c.node in PathNodes(c);
    assert l.Leaf? || l.node in Nodes(l);
    Reparent(m, m', l, m[node].left, subst, nil, touched);
    Rehang(m, m', c, node, subst, root, root', nil, touched);
    assert subst in m && subst != nil;
  }

  lemma ReplacedInside(m: Memory, m': Memory, c: Path, l: Tree, node: Node, inner: Path, subst: Node, tr: Tree, temp: Node, root: Node?, nil: Node, touched: set<Node>)
    requires Separate(c, l, node, inner, subst, tr) && Parts(m, c, l, node, inner, temp, root, nil)
    requires Holds(m, tr, temp, nil) && HasParent(m, tr, if inner.Top? then subst else inner.node)
    requires touched == {node, subst} + PathTop(c) + TopOf(l) + if inner.Top? then TopOf(tr) else {Last(inner)}
    requires Elsewhere(m, m', touched) && m[node].right == (if inner.Top? then temp else Last(inner))
    requires if inner.Top? then tr.Bin? ==> tr.node in m && tr.node in m' && m'[tr.node] == m[tr.node].(parent := subst)
             else Last(inner) in m && Last(inner) in m' && m'[Last(inner)] == m[Last(inner)].(parent := subst)
    ensures Holds(m', tr, temp, nil) && HasParent(m', tr, if inner.Top? then subst else inner.node)
    ensures HoldsPath(m', inner, temp, m[node].right, nil)
  {
    hide Distinct, Elsewhere, Last, At, Holds;
    assert c.Top? || c.node in PathNodes(c);
    assert l.Leaf? || l.node in Nodes(l);
    if inner.Top? {
      assert tr.Leaf? || tr.node in Nodes(tr);
      Reparent(m, m', tr, temp, subst, nil, touched);
    } else {
      LastInPath(inner);
      HoldsFrame(m, m', tr, temp, nil, touched);
      ReparentPath(m, m', inner, temp, m[node].right, subst, nil, touched);
    }
  }

  // Where the surgery may be asked for: the pointers it follows lead to
  // different cells.
  predicate MayReplace(m: Memory, node: Node, subst: Node, root: Node?, nil: Node) {
    && node in m && subst in m && node != subst && nil !in m
    && var l, r, q := m[node].left, m[node].right, m[node].parent;
    && (l == nil || Other(m, l, {node, subst})) && (r == nil || Other(m, r, {node, subst}))
    && (l == r ==> l == nil)
    && (node == root || (Other(m, q, {node, subst}) && q != l && q != r))
  }

  lemma ReplaceAllowed(m: Memory, c: Path, l: Tree, node: Node, inner: Path, subst: Node, tr: Tree, temp: Node, root: Node?, nil: Node)
    requires Separate(c, l, node, inner, subst, tr) && Parts(m, c, l, node, inner, temp, root, nil) && nil !in m
    requires Holds(m, tr, temp, nil) && subst in m
    ensures MayReplace(m, node, subst, root, nil) && (node == root <==> c.Top?)
    ensures !c.Top? ==> c.node in m && m[node].parent == c.node && (m[c.node].left == node <==> c.InLeft?)
  {
    HoldsNodes(m, tr, temp, nil);
    HoldsNodes(m, l, m[node].left, nil);
    RootIsLast(m, inner, temp, m[node].right, nil);
    HoldsPathNodes(m, inner, temp, m[node].right, nil);
    HoldsPathNodes(m, c, node, root, nil);
    if !inner.Top? { LastInPath(inner); }
    if c.InRight? { HoldsNodes(m, c.left, m[c.node].left, nil); }
  }
}
