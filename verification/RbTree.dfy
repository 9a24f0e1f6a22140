// The intrusive red-black tree: nodes linked by pointers, one shared sentinel,
// rotations and both rebalancing loops.
module RbTree {
  import opened RbShape
  import opened RbMemory
  import opened RbBalance
  import opened RbRepair
  import opened RbSplice

  class RbTree {
    var root: Node
    const sentinel: Node
    const order: Order
    ghost var nodes: set<Node>
    ghost var tree: Tree

    ghost function Mem(): (m: Memory)
      reads `nodes, nodes
      ensures m.Keys == nodes
    {
      map n | n in nodes :: Cell(n.key, n.left, n.right, n.parent, n.red)
    }

    // The whole tree is `t` in the surroundings `c`, and `p` points at `t`.
    ghost predicate Zip(c: Path, t: Tree, p: Node)
      reads `root, `nodes, nodes
    {
      && sentinel !in nodes && Nodes(t) + PathNodes(c) == nodes
      && At(Mem(), c, t, p, root, sentinel)
    }

    ghost predicate Valid()
      reads this, nodes, sentinel
    {
      && Zip(Top, tree, root)
      && RedBlack(tree)
      && !sentinel.red
    }

    // Creating a tree blackens the sentinel, which becomes the root.
    constructor (sentinel: Node, order: Order)
      modifies sentinel
      ensures Valid() && this.sentinel == sentinel && this.order == order
      ensures tree == Leaf && nodes == {}
    {
      this.sentinel := sentinel;
      this.order := order;
      root := sentinel;
      nodes := {};
      tree := Leaf;
      new;
      sentinel.red := false;
    }

    method Red(node: Node)
      modifies node`red
      ensures node.red && Mem() == Painted(old(Mem()), node, true)
    {
      node.red := true;
    }

    method Black(node: Node)
      modifies node`red
      ensures !node.red && Mem() == Painted(old(Mem()), node, false)
    {
      node.red := false;
    }

    method CopyColor(node: Node, from: Node)
      modifies node`red
      ensures node.red == old(from.red) && Mem() == Painted(old(Mem()), node, old(from.red))
    {
      node.red := from.red;
    }

    method LeftRotate(node: Node)
      requires MayRotateLeft(Mem(), node, root, sentinel)
      modifies `root, nodes`left, nodes`right, nodes`parent, nodes`red
      ensures RotatesLeft(old(Mem()), Mem(), node, old(root), root, sentinel)
    {
      hide Apart, At;
      var temp := node.right;
      node.right := temp.left;

      if temp.left != sentinel {
        temp.left.parent := node;
      }

      temp.parent := node.parent;

      if node == root {
        root := temp;
      } else if node == node.parent.left {
        node.parent.left := temp;
      } else {
        node.parent.right := temp;
      }

      temp.left := node;
      node.parent := temp;
    }

    method RightRotate(node: Node)
      requires MayRotateRight(Mem(), node, root, sentinel)
      modifies `root, nodes`left, nodes`right, nodes`parent, nodes`red
      ensures RotatesRight(old(Mem()), Mem(), node, old(root), root, sentinel)
    {
      hide Apart, At, DistinctPath;
      var temp := node.left;
      node.left := temp.right;

      if temp.right != sentinel {
        temp.right.parent := node;
      }

      temp.parent := node.parent;

      if node == root {
        root := temp;
      } else if node == node.parent.right {
        node.parent.right := temp;
      } else {
        node.parent.left := temp;
      }

      temp.right := node;
      node.parent := temp;
    }

    // The parent and the uncle `temp` turn black, the grandparent red.
    method PaintFamily(node: Node, temp: Node) returns (top: Node)
      requires node.parent != null && node.parent.parent != null
      modifies node.parent`red, temp`red, node.parent.parent`red
      ensures top == node.parent.parent
      ensures Mem() == Painted(Painted(Painted(old(Mem()), node.parent, false), temp, false), top, true)
    {
      Black(node.parent);
      Black(temp);
      Red(node.parent.parent);
      top := node.parent.parent;
    }

    method Recolor(node: Node, temp: Node, ghost c: Path, ghost t: Tree) returns (top: Node)
      requires Zip(c, t, node) && InsertGap(c, t) && PathRed(c)
      requires IsRed(Beside(c.up)) && temp == Beside(c.up).node
      modifies nodes`red
      ensures Zip(c.up.up, RecoloredTree(c, t), top) && InsertGap(c.up.up, RecoloredTree(c, t))
      ensures Items(c.up.up, RecoloredTree(c, t)) == Items(c, t)
    {
      FamilyLinks(Mem(), c, t, root, sentinel);
      RecoloredMemory(Mem(), c, t, root, sentinel);
      top := PaintFamily(node, temp);
      InsertRecolors(c, t);
    }

    // An inner grandchild on the left becomes an outer one.
    method TurnOutFromLeft(start: Node, ghost c0: Path, ghost t0: Tree) returns (node: Node, ghost c: Path, ghost t: Tree)
      requires Zip(c0, t0, start) && InsertGap(c0, t0) && PathRed(c0)
      requires c0.up.InLeft?
      modifies `root, nodes`left, nodes`right, nodes`parent, nodes`red
      ensures Zip(c, t, node) && InsertGap(c, t) && PathRed(c)
      ensures c.InLeft? && c.up == c0.up && Items(c, t) == Items(c0, t0)
    {
      node, c, t := start, c0, t0;
      FamilyLinks(Mem(), c, t, root, sentinel);
      if node == node.parent.right {
        TurnOutAllowed(Mem(), c, t, root, sentinel);
        InsertTurnsOut(c, t);
        ghost var m, oldRoot, r := Mem(), root, TurnedOut(c, t);
        node := node.parent;
        LeftRotate(node);
        TurnedOutMemory(m, Mem(), c, t, oldRoot, root, sentinel);
        c, t := r.0, r.1;
      }
    }

    // The grandparent rotates under the parent of an outer grandchild.
    method TurnUpFromLeft(node: Node, ghost c: Path, ghost t: Tree)
      requires Zip(c, t, node) && InsertGap(c, t) && PathRed(c) && !IsRed(Beside(c.up))
      requires c.InLeft? && c.up.InLeft?
      modifies `root, nodes`left, nodes`right, nodes`parent, nodes`red
      ensures Zip(TurnedUp(c), t, node) && InsertGap(TurnedUp(c), t)
      ensures Items(TurnedUp(c), t) == Items(c, t)
    {
      FamilyLinks(Mem(), c, t, root, sentinel);
      InsertTurnsUp(c, t);
      RepaintedMemory(Mem(), c, t, root, sentinel);
      ghost var c' := Repainted(c);
      Black(node.parent);
      Red(node.parent.parent);
      TurnUpAllowed(Mem(), c', t, root, sentinel);
      ghost var m, oldRoot := Mem(), root;
      RightRotate(node.parent.parent);
      TurnedUpMemory(m, Mem(), c', t, oldRoot, root, sentinel);
    }

    // One turn of the insertion loop below a left child.
    method RaiseFromLeft(start: Node, ghost c0: Path, ghost t0: Tree) returns (node: Node, ghost c: Path, ghost t: Tree)
      requires Zip(c0, t0, start) && !sentinel.red
      requires InsertGap(c0, t0) && PathRed(c0) && c0.up.InLeft?
      modifies `root, nodes`left, nodes`right, nodes`parent, nodes`red
      ensures Zip(c, t, node)
      ensures InsertGap(c, t) && Items(c, t) == Items(c0, t0) && Depth(c) < Depth(c0)
    {
      FamilyLinks(Mem(), c0, t0, root, sentinel);
      var temp := start.parent.parent.right;

      if temp.red {
        node := Recolor(start, temp, c0, t0);
        c, t := c0.up.up, RecoloredTree(c0, t0);
      } else {
        node, c, t := TurnOutFromLeft(start, c0, t0);
        TurnUpFromLeft(node, c, t);
        c := TurnedUp(c);
      }
    }

    // An inner grandchild on the right becomes an outer one.
    method TurnOutFromRight(start: Node, ghost c0: Path, ghost t0: Tree) returns (node: Node, ghost c: Path, ghost t: Tree)
      requires Zip(c0, t0, start) && InsertGap(c0, t0) && PathRed(c0)
      requires c0.up.InRight?
      modifies `root, nodes`left, nodes`right, nodes`parent, nodes`red
      ensures Zip(c, t, node) && InsertGap(c, t) && PathRed(c)
      ensures c.InRight? && c.up == c0.up && Items(c, t) == Items(c0, t0)
    {
      node, c, t := start, c0, t0;
      FamilyLinks(Mem(), c, t, root, sentinel);
      if node == node.parent.left {
        TurnOutAllowed(Mem(), c, t, root, sentinel);
        InsertTurnsOut(c, t);
        ghost var m, oldRoot, r := Mem(), root, TurnedOut(c, t);
        node := node.parent;
        RightRotate(node);
        TurnedOutMemory(m, Mem(), c, t, oldRoot, root, sentinel);
        c, t := r.0, r.1;
      }
    }

    // The grandparent rotates under the parent of an outer grandchild.
    method TurnUpFromRight(node: Node, ghost c: Path, ghost t: Tree)
      requires Zip(c, t, node) && InsertGap(c, t) && PathRed(c) && !IsRed(Beside(c.up))
      requires c.InRight? && c.up.InRight?
      modifies `root, nodes`left, nodes`right, nodes`parent, nodes`red
      ensures Zip(TurnedUp(c), t, node) && InsertGap(TurnedUp(c), t)
      ensures Items(TurnedUp(c), t) == Items(c, t)
    {
      FamilyLinks(Mem(), c, t, root, sentinel);
      InsertTurnsUp(c, t);
      RepaintedMemory(Mem(), c, t, root, sentinel);
      ghost var c' := Repainted(c);
      Black(node.parent);
      Red(node.parent.parent);
      TurnUpAllowed(Mem(), c', t, root, sentinel);
      ghost var m, oldRoot := Mem(), root;
      LeftRotate(node.parent.parent);
      TurnedUpMemory(m, Mem(), c', t, oldRoot, root, sentinel);
    }

    // One turn of the insertion loop below a right child.
    method RaiseFromRight(start: Node, ghost c0: Path, ghost t0: Tree) returns (node: Node, ghost c: Path, ghost t: Tree)
      requires Zip(c0, t0, start) && !sentinel.red
      requires InsertGap(c0, t0) && PathRed(c0) && c0.up.InRight?
      modifies `root, nodes`left, nodes`right, nodes`parent, nodes`red
      ensures Zip(c, t, node)
      ensures InsertGap(c, t) && Items(c, t) == Items(c0, t0) && Depth(c) < Depth(c0)
    {
      FamilyLinks(Mem(), c0, t0, root, sentinel);
      var temp := start.parent.parent.left;

      if temp.red {
        node := Recolor(start, temp, c0, t0);
        c, t := c0.up.up, RecoloredTree(c0, t0);
      } else {
        node, c, t := TurnOutFromRight(start, c0, t0);
        TurnUpFromRight(node, c, t);
        c := TurnedUp(c);
      }
    }

    // Links the new red leaf below `temp`.
    method Hang(temp: Node, left: bool, node: Node)
      requires temp in nodes && node !in nodes && sentinel !in nodes
      modifies `nodes, temp, node
      ensures nodes == old(nodes) + {node} && node.key == old(node.key)
      ensures Mem() == old(Mem())
        [temp := if left then old(Mem())[temp].(left := node) else old(Mem())[temp].(right := node)]
        [node := Cell(node.key, sentinel, sentinel, temp, true)]
    {
      if left {
        temp.left := node;
      } else {
        temp.right := node;
      }
      node.parent := temp;
      node.left := sentinel;
      node.right := sentinel;
      node.red := true;
      nodes := nodes + {node};
    }

    // One step down.
    lemma Step(c: Path, t: Tree, left: bool)
      requires Zip(c, t, if t.Bin? then t.node else root) && t.Bin?
      ensures t.node in nodes
      ensures var (c', t') := Below(c, t, left); var p := if left then t.node.left else t.node.right;
        && At(Mem(), c', t', p, root, sentinel) && Nodes(t') + PathNodes(c') == nodes
        && Plug(c', t') == Plug(c, t) && (p == sentinel <==> t'.Leaf?)
    {
      if left { GoLeft(Mem(), c, t, root, sentinel); } else { GoRight(Mem(), c, t, root, sentinel); }
      HoldsNodes(Mem(), Below(c, t, left).1, if left then t.node.left else t.node.right, sentinel);
    }

    // The plain descent: equal keys go right.
    method DescendValue(start: Node, key: Word) returns (temp: Node, left: bool, ghost c: Path)
      requires Zip(Top, tree, root) && tree.Bin? && start == root
      ensures temp in nodes && !c.Top? && temp == c.node && (left <==> c.InLeft?)
      ensures At(Mem(), c, Leaf, sentinel, root, sentinel) && PathNodes(c) == nodes
      ensures Plug(c, Leaf) == tree && Follows(Value, key, c)
    {
      temp := start;
      ghost var t := tree;
      c := Top;
      left := key < temp.key;
      while (if left then temp.left else temp.right) != sentinel
        invariant Zip(c, t, temp) && t.Bin? && Plug(c, t) == tree
        invariant left <==> Less(Value, key, temp.key)
        invariant Follows(Value, key, c)
        decreases t
      {
        Step(c, t, left);
        temp := if left then temp.left else temp.right;
        c, t := Below(c, t, left).0, Below(c, t, left).1;
        left := key < temp.key;
      }
      Step(c, t, left);
      c := Below(c, t, left).0;
    }

    method InsertValue(start: Node, node: Node) returns (ghost c: Path)
      requires Zip(Top, tree, root) && tree.Bin? && start == root && node !in nodes && node != sentinel
      modifies `nodes, nodes, node
      ensures nodes == old(nodes) + {node} && node.key == old(node.key)
      ensures Zip(c, Bin(Leaf, node, node.key, true, Leaf), node)
      ensures !c.Top? && Plug(c, Leaf) == tree && Follows(Value, node.key, c)
    {
      hide Mem;
      var temp, left;
      temp, left, c := DescendValue(start, node.key);
      ghost var m := Mem();
      Hang(temp, left, node);
      Attach(m, Mem(), c, node, root, sentinel);
    }

    // The descent for timers, whose keys wrap around.
    method DescendTimer(start: Node, key: Word) returns (temp: Node, left: bool, ghost c: Path)
      requires Zip(Top, tree, root) && tree.Bin? && start == root
      ensures temp in nodes && !c.Top? && temp == c.node && (left <==> c.InLeft?)
      ensures At(Mem(), c, Leaf, sentinel, root, sentinel) && PathNodes(c) == nodes
      ensures Plug(c, Leaf) == tree && Follows(Timer, key, c)
    {
      temp := start;
      ghost var t := tree;
      c := Top;
      left := Signed(Minus(key, temp.key)) < 0;
      while (if left then temp.left else temp.right) != sentinel
        invariant Zip(c, t, temp) && t.Bin? && Plug(c, t) == tree
        invariant left <==> Less(Timer, key, temp.key)
        invariant Follows(Timer, key, c)
        decreases t
      {
        Step(c, t, left);
        temp := if left then temp.left else temp.right;
        c, t := Below(c, t, left).0, Below(c, t, left).1;
        left := Signed(Minus(key, temp.key)) < 0;
      }
      Step(c, t, left);
      c := Below(c, t, left).0;
    }

    method InsertTimerValue(start: Node, node: Node) returns (ghost c: Path)
      requires Zip(Top, tree, root) && tree.Bin? && start == root && node !in nodes && node != sentinel
      modifies `nodes, nodes, node
      ensures nodes == old(nodes) + {node} && node.key == old(node.key)
      ensures Zip(c, Bin(Leaf, node, node.key, true, Leaf), node)
      ensures !c.Top? && Plug(c, Leaf) == tree && Follows(Timer, node.key, c)
    {
      hide Mem;
      var temp, left;
      temp, left, c := DescendTimer(start, node.key);
      ghost var m := Mem();
      Hang(temp, left, node);
      Attach(m, Mem(), c, node, root, sentinel);
    }

    // The insertion loop.
    method RaiseInserted(start: Node, ghost c0: Path, ghost t0: Tree) returns (node: Node, ghost c: Path, ghost t: Tree)
      requires Zip(c0, t0, start) && !sentinel.red && InsertGap(c0, t0)
      modifies `root, nodes`left, nodes`right, nodes`parent, nodes`red
      ensures Zip(c, t, node) && InsertGap(c, t) && Items(c, t) == Items(c0, t0) && !PathRed(c)
    {
      node, c, t := start, c0, t0;
      while node != root && (Links(c, t, node); node.parent.red)
        invariant Zip(c, t, node) && InsertGap(c, t) && Items(c, t) == Items(c0, t0)
        decreases Depth(c)
      {
        GrandparentLinks(c, t, node);
        if node.parent == node.parent.parent.left {
          node, c, t := RaiseFromLeft(node, c, t);
        } else {
          node, c, t := RaiseFromRight(node, c, t);
        }
      }
      Links(c, t, node);
    }

    method RebalanceInserted(start: Node, ghost c0: Path, ghost t0: Tree)
      requires Zip(c0, t0, start) && !sentinel.red && InsertGap(c0, t0)
      modifies `root, `tree, nodes`left, nodes`right, nodes`parent, nodes`red
      ensures Valid() && Inorder(tree) == Items(c0, t0)
    {
      var node;
      ghost var c, t;
      node, c, t := RaiseInserted(start, c0, t0);
      InsertDone(c, t);
      PlugInorder(c, t);
      BlackenRoot(node, c, t);
    }

    method BlackenRoot(node: Node, ghost c: Path, ghost t: Tree)
      requires Zip(c, t, node) && !sentinel.red && t.Bin?
      modifies `tree, nodes`red
      ensures Zip(Top, tree, root) && !sentinel.red && tree == Blacken(Plug(c, t))
    {
      hide Mem, Inorder;
      Links(c, t, node);
      PlugNodes(c, t);
      BlackenKeeps(Plug(c, t));
      GoTop(Mem(), c, t, node, root, sentinel);
      PaintTop(Mem(), Top, Plug(c, t), false, root, sentinel);
      Black(root);
      tree := Blacken(Plug(c, t));
    }

    // What the loop's guard reads.
    lemma Links(c: Path, t: Tree, node: Node)
      requires Zip(c, t, node) && t.Bin?
      ensures node == root <==> c.Top?
      ensures !c.Top? ==> node.parent != null && node.parent == c.node && node.parent.red == c.red
    {
      WhereItHangs(Mem(), c, t, node, root, sentinel);
    }

    // The first node of an empty tree.
    method InsertFirst(node: Node)
      requires Valid() && root == sentinel && node !in nodes && node != sentinel
      modifies this, node
      ensures Valid() && nodes == {node} && node.key == old(node.key)
      ensures old(tree) == Leaf && tree == Bin(Leaf, node, node.key, false, Leaf)
    {
      HoldsNodes(Mem(), tree, root, sentinel);
      node.parent := null;
      node.left := sentinel;
      node.right := sentinel;
      node.red := false;
      root := node;
      nodes := {node};
      tree := Bin(Leaf, node, node.key, false, Leaf);
      assert Mem()[node] == Cell(node.key, sentinel, sentinel, null, false);
      assert Holds(Mem(), tree, root, sentinel);
    }

    // The tree's own insert function.
    method InsertByOrder(node: Node) returns (ghost c: Path)
      requires Zip(Top, tree, root) && tree.Bin? && node !in nodes && node != sentinel
      modifies `nodes, nodes, node
      ensures nodes == old(nodes) + {node} && node.key == old(node.key)
      ensures Zip(c, Bin(Leaf, node, node.key, true, Leaf), node)
      ensures !c.Top? && Plug(c, Leaf) == tree && Follows(order, node.key, c)
    {
      if order.Value? {
        c := InsertValue(root, node);
      } else {
        c := InsertTimerValue(root, node);
      }
    }

    // The tree insert and the loop that repairs it.
    method InsertDeeper(node: Node) returns (ghost c: Path)
      requires Valid() && root != sentinel && node !in nodes && node != sentinel
      modifies this, nodes, node
      ensures Valid() && nodes == old(nodes) + {node} && node.key == old(node.key)
      ensures Follows(order, node.key, c) && old(Inorder(tree)) == Before(c) + After(c)
      ensures Inorder(tree) == Before(c) + [Item(node, node.key)] + After(c)
    {
      HoldsNodes(Mem(), tree, root, sentinel);
      assert tree.Bin?;
      c := InsertByOrder(node);
      InsertStarts(c, node, node.key);
      RebalanceInserted(node, c, Bin(Leaf, node, node.key, true, Leaf));
    }

    // What the test in the loop reads.
    lemma GrandparentLinks(c: Path, t: Tree, node: Node)
      requires Zip(c, t, node) && t.Bin? && InsertGap(c, t) && !c.Top?
      requires node.parent != null && node.parent.red
      ensures PathRed(c) && node.parent.parent != null && (c.up.InLeft? || c.up.InRight?)
      ensures node.parent == node.parent.parent.left <==> c.up.InLeft?
    {
      Links(c, t, node);
      FamilyLinks(Mem(), c, t, root, sentinel);
    }

    method Insert(node: Node, ghost base: Word) returns (ghost at: nat)
      requires Valid() && node !in nodes && node != sentinel
      modifies this, nodes, node
      ensures Valid() && nodes == old(nodes) + {node} && node.key == old(node.key)
      ensures Places(order, base, old(Inorder(tree)), Item(node, node.key), Inorder(tree), at)
    {
      ghost var c: Path := Top;
      if root == sentinel {
        InsertFirst(node);
      } else {
        c := InsertDeeper(node);
      }
      FollowedPlaces(order, base, node, node.key, c);
      at := |Before(c)|;
    }

    // ----- deletion

    // The focus of the deletion loop, which may be on the sentinel: its parent
    // link is the one the loop follows.
    ghost predicate Focus(c: Path, t: Tree, p: Node)
      reads `root, `nodes, nodes, p
    {
      Zip(c, t, p) && (!c.Top? ==> p.parent == c.node)
    }

    method PaintSwap(p: Node, w: Node)
      modifies p`red, w`red
      ensures Mem() == Painted(Painted(old(Mem()), w, false), p, true)
    {
      Black(w);
      Red(p);
    }

    method PaintNear(near: Node, w: Node)
      modifies near`red, w`red
      ensures Mem() == Painted(Painted(old(Mem()), near, false), w, true)
    {
      Black(near);
      Red(w);
    }

    method PaintFar(p: Node, w: Node, far: Node)
      modifies p`red, w`red, far`red
      ensures Mem() == Painted(Painted(Painted(old(Mem()), w, old(p.red)), p, false), far, false)
    {
      CopyColor(w, p);
      Black(p);
      Black(far);
    }

    method RecolorFar(p: Node, w: Node, far: Node, ghost temp: Node, ghost c: Path, ghost t: Tree)
      requires Zip(c, t, temp) && !c.Top? && p == c.node && p.red == c.red
      requires Beside(c).Bin? && w == Beside(c).node && Far(c).Bin? && far == Far(c).node
      modifies nodes`red
      ensures At(Mem(), FarPainted(c), t, temp, root, sentinel)
      ensures if c.InLeft? then MayRotateLeft(Mem(), c.node, root, sentinel) else MayRotateRight(Mem(), c.node, root, sentinel)
    {
      FarPaintedMemory(Mem(), c, t, temp, root, sentinel);
      PaintFar(p, w, far);
    }

    // A red sibling rotates over the parent.
    method TurnSiblingFromLeft(temp: Node, w: Node, ghost c: Path, ghost t: Tree)
      requires Focus(c, t, temp) && c.InLeft? && Beside(c).Bin? && w == Beside(c).node
      modifies `root, nodes`left, nodes`right, nodes`parent, nodes`red
      ensures Focus(SiblingTurned(c), t, temp)
    {
      hide At, Inorder;
      SiblingTurnedKeeps(c, t);
      SwappedMemory(Mem(), c, t, temp, root, sentinel);
      PaintSwap(temp.parent, w);
      ghost var m, oldRoot := Mem(), root;
      LeftRotate(temp.parent);
      SiblingTurnedMemory(m, Mem(), c, t, temp, oldRoot, root, sentinel);
      HangsFrom(SiblingTurned(c), t, temp);
    }

    // The near child of the sibling rotates over it.
    method TurnNearFromLeft(temp: Node, w: Node, near: Node, ghost c: Path, ghost t: Tree)
      requires Focus(c, t, temp) && c.InLeft? && Beside(c).Bin? && w == Beside(c).node
      requires Near(c).Bin? && near == Near(c).node
      modifies `root, nodes`left, nodes`right, nodes`parent, nodes`red
      ensures Focus(NearTurned(c), t, temp)
    {
      NearTurnedKeeps(c, t);
      NearPaintedMemory(Mem(), c, t, temp, root, sentinel);
      PaintNear(near, w);
      ghost var m, oldRoot := Mem(), root;
      RightRotate(w);
      NearTurnedMemory(m, Mem(), c, t, temp, oldRoot, root, sentinel);
    }

    // The sibling rotates over the parent, and the gap is gone.
    method TurnFarFromLeft(temp: Node, w: Node, far: Node, ghost c: Path, ghost t: Tree)
      requires Focus(c, t, temp) && c.InLeft? && Beside(c).Bin? && w == Beside(c).node
      requires Far(c).Bin? && far == Far(c).node && temp.parent.red == c.red
      modifies `root, nodes`left, nodes`right, nodes`parent, nodes`red
      ensures At(Mem(), Top, Plug(c.up, FarTurned(c, t)), root, root, sentinel)
    {
      RecolorFar(temp.parent, w, far, temp, c, t);
      ghost var m, oldRoot := Mem(), root;
      LeftRotate(temp.parent);
      FarTurnedMemory(m, Mem(), c, t, temp, oldRoot, root, sentinel);
    }

    // The red child of a black sibling comes to the far side.
    method ReddenFarFromLeft(temp: Node, w0: Node, ghost c0: Path, ghost t: Tree) returns (w: Node, far: Node, ghost c: Path)
      requires Focus(c0, t, temp) && DeleteGap(c0, t) && c0.InLeft? && !sentinel.red
      requires Beside(c0).Bin? && !Beside(c0).red && w0 == Beside(c0).node
      requires IsRed(Near(c0)) || IsRed(Far(c0))
      modifies `root, nodes`left, nodes`right, nodes`parent, nodes`red
      ensures Focus(c, t, temp) && DeleteGap(c, t) && c.InLeft? && Items(c, t) == Items(c0, t)
      ensures Beside(c).Bin? && !Beside(c).red && w == Beside(c).node && IsRed(Far(c)) && far == Far(c).node
      ensures temp.parent.red == c.red
    {
      SiblingLinks(Mem(), c0, t, temp, root, sentinel);
      w, c := w0, c0;
      if !w.right.red {
        DeleteTurnsNear(c, t);
        NearTurnedKeeps(c, t);
        TurnNearFromLeft(temp, w, w.left, c, t);
        c := NearTurned(c);
        SiblingLinks(Mem(), c, t, temp, root, sentinel);
        w := temp.parent.right;
      }
      far := w.right;
    }

    // A black sibling with a red child.
    method CloseGapFromLeft(temp: Node, w0: Node, ghost c0: Path, ghost t: Tree) returns (ghost whole: Tree)
      requires Focus(c0, t, temp) && DeleteGap(c0, t) && !IsRed(t) && c0.InLeft? && !sentinel.red
      requires Beside(c0).Bin? && !Beside(c0).red && w0 == Beside(c0).node
      requires IsRed(Near(c0)) || IsRed(Far(c0))
      modifies `root, nodes`left, nodes`right, nodes`parent, nodes`red
      ensures Zip(Top, whole, root) && RedBlack(whole) && Inorder(whole) == Items(c0, t)
    {
      hide At, Items, Inorder, RedBlack, DeleteGap, HoldsPath, Holds, Balanced;
      var w, far;
      ghost var c;
      w, far, c := ReddenFarFromLeft(temp, w0, c0, t);
      TurnFarFromLeft(temp, w, far, c, t);
      DeleteTurnsFar(c, t);
      FarTurnedKeeps(c, t);
      whole := Plug(c.up, FarTurned(c, t));
    }

    // A black sibling without red children.
    method RaiseGapLeft(start: Node, w: Node, ghost c: Path, ghost t: Tree) returns (temp: Node)
      requires Focus(c, t, start) && c.InLeft? && Beside(c).Bin? && w == Beside(c).node
      modifies nodes`red
      ensures temp == c.node && Focus(c.up, SiblingReddened(c, t), temp)
    {
      CloseKeeps(c, t);
      assert Nodes(SiblingReddened(c, t)) == Nodes(Close(c, t));
      ReddenedMemory(Mem(), c, t, start, root, sentinel);
      Red(w);
      temp := start.parent;
    }

    // The rest of a turn, once the sibling is black.
    method SettleFromLeft(start: Node, w: Node, ghost c0: Path, ghost t0: Tree) returns (temp: Node, ghost c: Path, ghost t: Tree)
      requires Focus(c0, t0, start) && DeleteGap(c0, t0) && !IsRed(t0) && c0.InLeft? && !sentinel.red
      requires Beside(c0).Bin? && !Beside(c0).red && w == Beside(c0).node
      modifies `root, nodes`left, nodes`right, nodes`parent, nodes`red
      ensures Focus(c, t, temp) && DeleteGap(c, t) && Items(c, t) == Items(c0, t0)
      ensures c.Top? || (c == c0.up && (IsRed(t) <==> c0.red))
    {
      hide At, Inorder, Distinct, Nodes;
      SiblingLinks(Mem(), c0, t0, start, root, sentinel);
      if !w.left.red && !w.right.red {
        DeleteReddens(c0, t0);
        temp := RaiseGapLeft(start, w, c0, t0);
        c, t := c0.up, SiblingReddened(c0, t0);
      } else {
        t := CloseGapFromLeft(start, w, c0, t0);
        temp, c := root, Top;
      }
    }

    // One turn of the deletion loop at a left child.
    method LowerFromLeft(start: Node, ghost c0: Path, ghost t0: Tree) returns (temp: Node, ghost c: Path, ghost t: Tree)
      requires Focus(c0, t0, start) && DeleteGap(c0, t0) && !IsRed(t0) && c0.InLeft? && !sentinel.red
      modifies `root, nodes`left, nodes`right, nodes`parent, nodes`red
      ensures Focus(c, t, temp) && DeleteGap(c, t) && Items(c, t) == Items(c0, t0)
      ensures Depth(c) < Depth(c0) || (Depth(c) == Depth(c0) && IsRed(t))
    {
      SiblingThere(c0, t0);
      SiblingLinks(Mem(), c0, t0, start, root, sentinel);
      var w := start.parent.right;
      c := c0;
      if w.red {
        DeleteTurnsSibling(c, t0);
        SiblingTurnedKeeps(c, t0);
        TurnSiblingFromLeft(start, w, c, t0);
        c := SiblingTurned(c);
        SiblingLinks(Mem(), c, t0, start, root, sentinel);
        w := start.parent.right;
      }
      temp, c, t := SettleFromLeft(start, w, c, t0);
    }

    // A red sibling rotates over the parent.
    method TurnSiblingFromRight(temp: Node, w: Node, ghost c: Path, ghost t: Tree)
      requires Focus(c, t, temp) && c.InRight? && Beside(c).Bin? && w == Beside(c).node
      modifies `root, nodes`left, nodes`right, nodes`parent, nodes`red
      ensures Focus(SiblingTurned(c), t, temp)
    {
      hide At, Inorder, Mem;
      SiblingTurnedKeeps(c, t);
      SwappedMemory(Mem(), c, t, temp, root, sentinel);
      PaintSwap(temp.parent, w);
      ghost var m, oldRoot := Mem(), root;
      RightRotate(temp.parent);
      SiblingTurnedMemory(m, Mem(), c, t, temp, oldRoot, root, sentinel);
      HangsFrom(SiblingTurned(c), t, temp);
    }

    // The near child of the sibling rotates over it.
    method TurnNearFromRight(temp: Node, w: Node, near: Node, ghost c: Path, ghost t: Tree)
      requires Focus(c, t, temp) && c.InRight? && Beside(c).Bin? && w == Beside(c).node
      requires Near(c).Bin? && near == Near(c).node
      modifies `root, nodes`left, nodes`right, nodes`parent, nodes`red
      ensures Focus(NearTurned(c), t, temp)
    {
      NearTurnedKeeps(c, t);
      NearPaintedMemory(Mem(), c, t, temp, root, sentinel);
      PaintNear(near, w);
      ghost var m, oldRoot := Mem(), root;
      LeftRotate(w);
      NearTurnedMemory(m, Mem(), c, t, temp, oldRoot, root, sentinel);
    }

    // The sibling rotates over the parent, and the gap is gone.
    method TurnFarFromRight(temp: Node, w: Node, far: Node, ghost c: Path, ghost t: Tree)
      requires Focus(c, t, temp) && c.InRight? && Beside(c).Bin? && w == Beside(c).node
      requires Far(c).Bin? && far == Far(c).node && temp.parent.red == c.red
      modifies `root, nodes`left, nodes`right, nodes`parent, nodes`red
      ensures At(Mem(), Top, Plug(c.up, FarTurned(c, t)), root, root, sentinel)
    {
      RecolorFar(temp.parent, w, far, temp, c, t);
      ghost var m, oldRoot := Mem(), root;
      RightRotate(temp.parent);
      FarTurnedMemory(m, Mem(), c, t, temp, oldRoot, root, sentinel);
    }

    // The red child of a black sibling comes to the far side.
    method ReddenFarFromRight(temp: Node, w0: Node, ghost c0: Path, ghost t: Tree) returns (w: Node, far: Node, ghost c: Path)
      requires Focus(c0, t, temp) && DeleteGap(c0, t) && c0.InRight? && !sentinel.red
      requires Beside(c0).Bin? && !Beside(c0).red && w0 == Beside(c0).node
      requires IsRed(Near(c0)) || IsRed(Far(c0))
      modifies `root, nodes`left, nodes`right, nodes`parent, nodes`red
      ensures Focus(c, t, temp) && DeleteGap(c, t) && c.InRight? && Items(c, t) == Items(c0, t)
      ensures Beside(c).Bin? && !Beside(c).red && w == Beside(c).node && IsRed(Far(c)) && far == Far(c).node
      ensures temp.parent.red == c.red
    {
      SiblingLinks(Mem(), c0, t, temp, root, sentinel);
      w, c := w0, c0;
      if !w.left.red {
        DeleteTurnsNear(c, t);
        NearTurnedKeeps(c, t);
        TurnNearFromRight(temp, w, w.right, c, t);
        c := NearTurned(c);
        SiblingLinks(Mem(), c, t, temp, root, sentinel);
        w := temp.parent.left;
      }
      far := w.left;
    }

    // A black sibling with a red child.
    method CloseGapFromRight(temp: Node, w0: Node, ghost c0: Path, ghost t: Tree) returns (ghost whole: Tree)
      requires Focus(c0, t, temp) && DeleteGap(c0, t) && !IsRed(t) && c0.InRight? && !sentinel.red
      requires Beside(c0).Bin? && !Beside(c0).red && w0 == Beside(c0).node
      requires IsRed(Near(c0)) || IsRed(Far(c0))
      modifies `root, nodes`left, nodes`right, nodes`parent, nodes`red
      ensures Zip(Top, whole, root) && RedBlack(whole) && Inorder(whole) == Items(c0, t)
    {
      hide At, Items, Inorder, RedBlack, DeleteGap, HoldsPath, Holds, Balanced;
      var w, far;
      ghost var c;
      w, far, c := ReddenFarFromRight(temp, w0, c0, t);
      TurnFarFromRight(temp, w, far, c, t);
      DeleteTurnsFar(c, t);
      FarTurnedKeeps(c, t);
      whole := Plug(c.up, FarTurned(c, t));
    }

    // A black sibling without red children.
    method RaiseGapRight(start: Node, w: Node, ghost c: Path, ghost t: Tree) returns (temp: Node)
      requires Focus(c, t, start) && c.InRight? && Beside(c).Bin? && w == Beside(c).node
      modifies nodes`red
      ensures temp == c.node && Focus(c.up, SiblingReddened(c, t), temp)
    {
      CloseKeeps(c, t);
      assert Nodes(SiblingReddened(c, t)) == Nodes(Close(c, t));
      ReddenedMemory(Mem(), c, t, start, root, sentinel);
      Red(w);
      temp := start.parent;
    }

    // The rest of a turn, once the sibling is black.
    method SettleFromRight(start: Node, w: Node, ghost c0: Path, ghost t0: Tree) returns (temp: Node, ghost c: Path, ghost t: Tree)
      requires Focus(c0, t0, start) && DeleteGap(c0, t0) && !IsRed(t0) && c0.InRight? && !sentinel.red
      requires Beside(c0).Bin? && !Beside(c0).red && w == Beside(c0).node
      modifies `root, nodes`left, nodes`right, nodes`parent, nodes`red
      ensures Focus(c, t, temp) && DeleteGap(c, t) && Items(c, t) == Items(c0, t0)
      ensures c.Top? || (c == c0.up && (IsRed(t) <==> c0.red))
    {
      hide At, Inorder;
      SiblingLinks(Mem(), c0, t0, start, root, sentinel);
      if !w.left.red && !w.right.red {
        DeleteReddens(c0, t0);
        temp := RaiseGapRight(start, w, c0, t0);
        c, t := c0.up, SiblingReddened(c0, t0);
      } else {
        t := CloseGapFromRight(start, w, c0, t0);
        temp, c := root, Top;
      }
    }

    // One turn of the deletion loop at a right child.
    method LowerFromRight(start: Node, ghost c0: Path, ghost t0: Tree) returns (temp: Node, ghost c: Path, ghost t: Tree)
      requires Focus(c0, t0, start) && DeleteGap(c0, t0) && !IsRed(t0) && c0.InRight? && !sentinel.red
      modifies `root, nodes`left, nodes`right, nodes`parent, nodes`red
      ensures Focus(c, t, temp) && DeleteGap(c, t) && Items(c, t) == Items(c0, t0)
      ensures Depth(c) < Depth(c0) || (Depth(c) == Depth(c0) && IsRed(t))
    {
      SiblingThere(c0, t0);
      SiblingLinks(Mem(), c0, t0, start, root, sentinel);
      var w := start.parent.left;
      c := c0;
      if w.red {
        DeleteTurnsSibling(c, t0);
        SiblingTurnedKeeps(c, t0);
        TurnSiblingFromRight(start, w, c, t0);
        c := SiblingTurned(c);
        SiblingLinks(Mem(), c, t0, start, root, sentinel);
        w := start.parent.left;
      }
      temp, c, t := SettleFromRight(start, w, c, t0);
    }

    lemma GapLinks(c: Path, t: Tree, temp: Node)
      requires Focus(c, t, temp) && !sentinel.red
      ensures temp == root <==> c.Top?
      ensures temp.red == IsRed(t) && (temp == sentinel <==> t.Leaf?)
      ensures !c.Top? ==> (temp.parent.left == temp && c.InLeft?) || (temp.parent.left != temp && c.InRight?) || t.Leaf?
    {
      WhereItHangs(Mem(), c, t, temp, root, sentinel);
    }

    // The deletion loop.
    method LowerDeleted(start: Node, ghost c0: Path, ghost t0: Tree) returns (temp: Node, ghost c: Path, ghost t: Tree)
      requires Focus(c0, t0, start) && DeleteGap(c0, t0) && !sentinel.red
      modifies `root, nodes`left, nodes`right, nodes`parent, nodes`red
      ensures Focus(c, t, temp) && DeleteGap(c, t) && Items(c, t) == Items(c0, t0)
      ensures c.Top? || IsRed(t)
    {
      temp, c, t := start, c0, t0;
      while temp != root && !temp.red
        invariant Focus(c, t, temp) && DeleteGap(c, t) && Items(c, t) == Items(c0, t0)
        decreases Depth(c), if IsRed(t) then 0 else 1
      {
        GapLinks(c, t, temp);
        if temp == temp.parent.left {
          temp, c, t := LowerFromLeft(temp, c, t);
        } else {
          temp, c, t := LowerFromRight(temp, c, t);
        }
      }
      GapLinks(c, t, temp);
    }

    method RebalanceDeleted(start: Node, ghost c0: Path, ghost t0: Tree)
      requires Focus(c0, t0, start) && DeleteGap(c0, t0) && !sentinel.red
      modifies `root, `tree, nodes`left, nodes`right, nodes`parent, nodes`red, sentinel`red
      ensures Valid() && Inorder(tree) == Items(c0, t0)
    {
      var temp;
      ghost var c, t;
      temp, c, t := LowerDeleted(start, c0, t0);
      DeleteDone(c, t);
      BlackenKeeps(t);
      PlugInorder(c, Blacken(t));
      BlackenTop(temp, c, t);
    }

    method BlackenTop(temp: Node, ghost c: Path, ghost t: Tree)
      requires Focus(c, t, temp) && !sentinel.red
      modifies `tree, nodes`red, sentinel`red
      ensures Zip(Top, tree, root) && !sentinel.red && tree == Plug(c, Blacken(t))
    {
      hide At, Inorder;
      GapLinks(c, t, temp);
      BlackenKeeps(t);
      PlugNodes(c, Blacken(t));
      if t.Bin? { ZipTop(c, t, temp); } else { ZipLeaf(c, t, temp); }
      if t.Bin? { PaintTop(Mem(), c, t, false, root, sentinel); }
      Black(temp);
      GoTop(Mem(), c, Blacken(t), temp, root, sentinel);
      tree := Plug(c, Blacken(t));
    }

    // The leftmost node below `start`.
    method Min(start: Node, ghost outer: Path, ghost t0: Tree) returns (node: Node, ghost inner: Path, ghost t: Tree)
      requires Zip(outer, t0, start) && t0.Bin?
      ensures Zip(Join(inner, outer), t, node) && t.Bin? && t.left.Leaf? && AllLeft(inner)
      ensures Plug(Join(inner, outer), t) == Plug(outer, t0) && Plug(inner, t) == t0
    {
      node, inner, t := start, Top, t0;
      while node.left != sentinel
        invariant Zip(Join(inner, outer), t, node) && t.Bin? && AllLeft(inner)
        invariant Plug(Join(inner, outer), t) == Plug(outer, t0) && Plug(inner, t) == t0
        decreases t
      {
        Step(Join(inner, outer), t, true);
        node := node.left;
        inner, t := InLeft(inner, t.node, t.key, t.red, t.right), t.left;
      }
      Step(Join(inner, outer), t, true);
    }

    // A node taken out of the tree forgets its links and its key.
    method Erase(node: Node)
      requires node in nodes
      modifies `nodes, node
      ensures nodes == old(nodes) - {node} && Mem() == old(Mem()) - {node}
      ensures node.left == null && node.right == null && node.parent == null && node.key == 0
    {
      node.left := null;
      node.right := null;
      node.parent := null;
      node.key := 0;
      nodes := nodes - {node};
    }

    // Links parent and child of a node with at most one child.
    method LinkAround(node: Node, temp: Node)
      requires node in nodes && Other(Mem(), node.parent, {node, temp}) && temp != node
      modifies node.parent`left, node.parent`right, temp`parent
      ensures CutsOut(old(Mem()), Mem(), node, temp) && Mem().Keys == old(Mem().Keys)
      ensures temp.parent == node.parent == old(node.parent)
    {
      if node == node.parent.left {
        node.parent.left := temp;
      } else {
        node.parent.right := temp;
      }
      temp.parent := node.parent;
    }

    // Links parent and right child of the successor of `node`.
    method UnlinkSuccessor(node: Node, subst: Node, temp: Node)
      requires subst in nodes && Other(Mem(), subst.parent, {subst, temp}) && temp != subst
      modifies subst.parent`left, subst.parent`right, temp`parent
      ensures Unlinks(old(Mem()), Mem(), node, subst, temp) && Mem().Keys == old(Mem().Keys)
      ensures temp.parent == (if subst.parent == node then subst else subst.parent) && subst.parent == old(subst.parent)
    {
      if subst == subst.parent.left {
        subst.parent.left := temp;
      } else {
        subst.parent.right := temp;
      }
      if subst.parent == node {
        temp.parent := subst;
      } else {
        temp.parent := subst.parent;
      }
    }

    // Puts the successor in the place of `node`.
    method TakePlace(node: Node, subst: Node)
      requires MayReplace(Mem(), node, subst, root, sentinel)
      modifies `root, nodes`left, nodes`right, nodes`parent, nodes`red
      ensures Replaces(old(Mem()), Mem(), node, subst, old(root), root, sentinel) && Mem().Keys == old(Mem().Keys)
    {
      subst.left := node.left;
      subst.right := node.right;
      subst.parent := node.parent;
      subst.red := node.red;

      if node == root {
        root := subst;
      } else {
        if node == node.parent.left {
          node.parent.left := subst;
        } else {
          node.parent.right := subst;
        }
      }

      if subst.left != sentinel {
        subst.left.parent := subst;
      }

      if subst.right != sentinel {
        subst.right.parent := subst;
      }
    }

    method Detach(node: Node, temp: Node, ghost c: Path, ghost t: Tree, ghost s: Tree)
      requires Zip(c, t, node) && !c.Top? && OneChild(t, s) && Holds(Mem(), s, temp, sentinel)
      modifies nodes`left, nodes`right, nodes`parent, nodes`red, sentinel`parent
      ensures At(Mem(), c, s, temp, root, sentinel) && temp.parent == c.node
    {
      MayCutOut(Mem(), c, t, s, temp, root, sentinel);
      HoldsNodes(Mem(), s, temp, sentinel);
      ghost var m := Mem();
      LinkAround(node, temp);
      CutOutMemory(m, Mem(), c, t, s, temp, root, sentinel);
    }

    // Takes out a node with at most one child that is not the root.
    method CutOut(node: Node, temp: Node, ghost c: Path, ghost t: Tree, ghost s: Tree)
      requires Zip(c, t, node) && !c.Top? && OneChild(t, s) && Holds(Mem(), s, temp, sentinel)
      modifies `nodes, nodes, sentinel`parent
      ensures Focus(c, s, temp) && nodes == old(nodes) - {node}
      ensures Erased(node) && forall n :: n in nodes ==> n.key == old(n.key)
    {
      CutOutNodes(c, t, s, node);
      HoldsNodes(Mem(), s, temp, sentinel);
      Detach(node, temp, c, t, s);
      ghost var m := Mem();
      Erase(node);
      AtFrame(m, Mem(), c, s, temp, root, sentinel, {node});
    }

    lemma CutOutNodes(c: Path, t: Tree, s: Tree, node: Node)
      requires OneChild(t, s) && t.node == node && Apart(c, t)
      ensures Nodes(s) + PathNodes(c) == Nodes(t) + PathNodes(c) - {node} && node !in Nodes(s) + PathNodes(c)
    {
    }

    ghost predicate Erased(node: Node)
      reads node
    {
      node.left == null && node.right == null && node.parent == null && node.key == 0
    }

    method DetachSuccessor(node: Node, subst: Node, temp: Node, ghost c: Path, ghost l: Tree, ghost k: Word, ghost red: bool, ghost inner: Path, ghost t: Tree)
      requires Zip(Join(inner, InRight(c, l, node, k, red)), t, subst) && t.Bin? && t.left.Leaf? && temp == subst.right
      modifies nodes`left, nodes`right, nodes`parent, nodes`red, sentinel`parent
      ensures Separate(c, l, node, inner, subst, t.right) && node in nodes && subst in nodes
      ensures Parts(Mem(), c, l, node, inner, temp, root, sentinel) && Mem()[node].red == red
      ensures Holds(Mem(), t.right, temp, sentinel) && HasParent(Mem(), t.right, if inner.Top? then subst else inner.node)
      ensures temp.parent == if inner.Top? then subst else inner.node
    {
      hide HoldsPath, DistinctPath, RedBlack;
      ghost var p := Join(inner, InRight(c, l, node, k, red));
      SeparateIff(c, l, node, k, red, inner, subst, t.key, t.red, t.right);
      TakeParts(Mem(), c, l, node, k, red, inner, t, subst, root, sentinel);
      WhereItHangs(Mem(), p, t, subst, root, sentinel);
      HoldsNodes(Mem(), t.right, temp, sentinel);
      ghost var m := Mem();
      assert p.node == if inner.Top? then node else inner.node;
      UnlinkSuccessor(node, subst, temp);
      UnlinkedParts(m, Mem(), c, l, node, inner, subst, t.right, temp, root, sentinel);
    }

    method SeatSuccessor(node: Node, subst: Node, ghost temp: Node, ghost c: Path, ghost l: Tree, ghost inner: Path, ghost tr: Tree)
      requires node in nodes && subst in nodes && sentinel !in nodes
      requires Separate(c, l, node, inner, subst, tr) && Parts(Mem(), c, l, node, inner, temp, root, sentinel)
      requires Holds(Mem(), tr, temp, sentinel) && HasParent(Mem(), tr, if inner.Top? then subst else inner.node)
      modifies `root, nodes`left, nodes`right, nodes`parent, nodes`red
      ensures At(Mem(), Join(inner, InRight(c, l, subst, subst.key, old(node.red))), tr, temp, root, sentinel)
    {
      ReplaceAllowed(Mem(), c, l, node, inner, subst, tr, temp, root, sentinel);
      ghost var m, oldRoot := Mem(), root;
      TakePlace(node, subst);
      ReplacedMemory(m, Mem(), c, l, node, inner, subst, subst.key, tr, temp, oldRoot, root, sentinel);
    }

    // Takes out a node with two children: its successor takes its place.
    method CutOutInner(node: Node, subst: Node, temp: Node, ghost c: Path, ghost l: Tree, ghost k: Word, ghost red: bool, ghost inner: Path, ghost t: Tree)
      requires Zip(Join(inner, InRight(c, l, node, k, red)), t, subst) && t.Bin? && t.left.Leaf? && temp == subst.right
      modifies `root, `nodes, nodes, sentinel`parent
      ensures Focus(Join(inner, InRight(c, l, subst, t.key, red)), t.right, temp) && nodes == old(nodes) - {node}
      ensures Erased(node) && forall n :: n in nodes ==> n.key == old(n.key)
    {
      hide At, Join, Separate, Nodes, PathNodes, Erased;
      SuccessorTop(c, l, inner, subst, t.key, red);
      MoveSuccessor(node, subst, temp, c, l, k, red, inner, t);
      SuccessorNodes(c, l, node, k, red, inner, subst, t);
      EraseApart(node, temp, Join(inner, InRight(c, l, subst, t.key, red)), t.right);
    }

    method MoveSuccessor(node: Node, subst: Node, temp: Node, ghost c: Path, ghost l: Tree, ghost k: Word, ghost red: bool, ghost inner: Path, ghost t: Tree)
      requires Zip(Join(inner, InRight(c, l, node, k, red)), t, subst) && t.Bin? && t.left.Leaf? && temp == subst.right
      modifies `root, nodes`left, nodes`right, nodes`parent, nodes`red, sentinel`parent
      ensures t.node == subst && node in nodes && Separate(c, l, node, inner, subst, t.right)
      ensures At(Mem(), Join(inner, InRight(c, l, subst, t.key, red)), t.right, temp, root, sentinel)
      ensures temp.parent == (if inner.Top? then subst else inner.node) && temp != node
    {
      hide At, Join, Parts, HasParent;
      ZipTop(Join(inner, InRight(c, l, node, k, red)), t, subst);
      DetachSuccessor(node, subst, temp, c, l, k, red, inner, t);
      assert Mem()[node].red == node.red;
      SeatSuccessor(node, subst, temp, c, l, inner, t.right);
      SuccessorTop(c, l, inner, subst, t.key, red);
      HangsFrom(Join(inner, InRight(c, l, subst, t.key, red)), t.right, temp);
    }

    lemma HangsFrom(c: Path, t: Tree, p: Node)
      requires At(Mem(), c, t, p, root, sentinel) && !c.Top?
      ensures if t.Leaf? then p == sentinel else p.parent == c.node && p in Nodes(t)
    {
    }

    lemma ZipLeaf(c: Path, t: Tree, p: Node)
      requires Zip(c, t, p) && t.Leaf?
      ensures p == sentinel
    {
    }

    lemma ZipTop(c: Path, t: Tree, p: Node)
      requires Zip(c, t, p) && t.Bin?
      ensures t.node == p && t.key == p.key && p in nodes
    {
    }

    method EraseApart(node: Node, temp: Node, ghost p: Path, ghost s: Tree)
      requires node in nodes && At(Mem(), p, s, temp, root, sentinel) && node !in Nodes(s) + PathNodes(p)
      modifies `nodes, node
      ensures nodes == old(nodes) - {node} && Erased(node) && At(Mem(), p, s, temp, root, sentinel)
    {
      hide At;
      ghost var m := Mem();
      Erase(node);
      AtFrame(m, Mem(), p, s, temp, root, sentinel, {node});
    }

    static lemma SuccessorNodes(c: Path, l: Tree, node: Node, k: Word, red: bool, inner: Path, subst: Node, t: Tree)
      requires t.Bin? && t.left.Leaf? && t.node == subst && Separate(c, l, node, inner, subst, t.right)
      ensures var p := Join(inner, InRight(c, l, subst, t.key, red));
        && Nodes(t.right) + PathNodes(p) == Nodes(t) + PathNodes(Join(inner, InRight(c, l, node, k, red))) - {node}
        && node !in Nodes(t.right) + PathNodes(p)
    {
      hide Distinct, DistinctPath, Join;
      DistinctJoin(inner, InRight(c, l, node, k, red));
      DistinctJoin(inner, InRight(c, l, subst, t.key, red));
      SwapOne(Nodes(t.right), PathNodes(inner), PathNodes(c), Nodes(l), node, subst);
    }

    static lemma SuccessorTop(c: Path, l: Tree, inner: Path, subst: Node, k: Word, red: bool)
      ensures var p := Join(inner, InRight(c, l, subst, k, red)); !p.Top? && p.node == if inner.Top? then subst else inner.node
    {
    }

    static lemma SwapOne(a: set<Node>, b: set<Node>, c: set<Node>, d: set<Node>, x: Node, y: Node)
      requires x != y && x !in a + b + c + d
      ensures a + (b + (c + {y} + d)) == ({y} + a) + (b + (c + {x} + d)) - {x}
    {
    }

    // The root goes, and its only child, if any, becomes the root.
    method DropRoot(node: Node, temp: Node, ghost s: Tree)
      requires Valid() && node == root && OneChild(tree, s) && Holds(Mem(), s, temp, sentinel)
      modifies this, nodes, sentinel`red
      ensures Valid() && nodes == old(nodes) - {node} && tree == Blacken(s)
      ensures Erased(node) && forall n :: n in nodes ==> n.key == old(n.key)
    {
      assert Balanced(tree.left) && Balanced(tree.right);
      CutOutNodes(Top, tree, s, node);
      ghost var m := Mem();
      root := temp;
      Erase(node);
      AtFrame(m, Mem(), Top, s, temp, temp, sentinel, {node});
      BlackenTop(temp, Top, s);
    }

    // A node with at most one child.
    method DeleteOuter(node: Node, temp: Node, ghost c: Path, ghost t: Tree, ghost s: Tree) returns (ghost at: nat)
      requires Valid() && Zip(c, t, node) && Plug(c, t) == tree && OneChild(t, s) && Holds(Mem(), s, temp, sentinel)
      modifies this, nodes, sentinel`parent, sentinel`red
      ensures Valid() && nodes == old(nodes) - {node}
      ensures Drops(old(Inorder(tree)), node, Inorder(tree), at)
      ensures Erased(node) && forall n :: n in nodes ==> n.key == old(n.key)
    {
      hide Balanced, Fits, DeleteGap, HoldsPath, PathNodes, Erased, Inorder, Nodes, DistinctPath, RedBlack, Apart;
      WhereItHangs(Mem(), c, t, node, root, sentinel);
      at := DeleteStarts(c, t, s);
      if node == root {
        BlackenKeeps(s);
        DropRoot(node, temp, s);
        return;
      }
      var red := node.red;
      CutOut(node, temp, c, t, s);
      Finish(temp, red, c, s);
    }

    // The fixup, needed only when a black node went.
    method Finish(temp: Node, red: bool, ghost c: Path, ghost t: Tree)
      requires Focus(c, t, temp) && !sentinel.red
      requires if red then RedBlack(Plug(c, t)) else DeleteGap(c, t)
      modifies `root, `tree, nodes`left, nodes`right, nodes`parent, nodes`red, sentinel`red
      ensures Valid() && Inorder(tree) == Items(c, t)
    {
      if red {
        GoTop(Mem(), c, t, temp, root, sentinel);
        PlugNodes(c, t);
        PlugInorder(c, t);
        tree := Plug(c, t);
        return;
      }
      RebalanceDeleted(temp, c, t);
    }

    // A node with two children.
    method DeleteInner(node: Node, subst: Node, ghost c: Path, ghost l: Tree, ghost k: Word, ghost red: bool, ghost inner: Path, ghost t: Tree) returns (ghost at: nat)
      requires Valid() && Zip(Join(inner, InRight(c, l, node, k, red)), t, subst) && AllLeft(inner)
      requires t.Bin? && t.left.Leaf? && Plug(Join(inner, InRight(c, l, node, k, red)), t) == tree
      modifies this, nodes, sentinel`parent, sentinel`red
      ensures Valid() && nodes == old(nodes) - {node}
      ensures Drops(old(Inorder(tree)), node, Inorder(tree), at)
      ensures Erased(node) && forall n :: n in nodes ==> n.key == old(n.key)
    {
      hide Balanced, Fits, RedBlack, DeleteGap, Drops, AllLeft, Inorder, Items, Plug, HoldsPath, Nodes, PathNodes, Erased, Join;
      HoldsNodes(Mem(), t.right, subst.right, sentinel);
      var temp: Node, isRed := subst.right, subst.red;
      at := DeleteStartsInner(c, l, node, k, red, inner, t);
      CutOutInner(node, subst, temp, c, l, k, red, inner, t);
      Finish(temp, isRed, Join(inner, InRight(c, l, subst, t.key, red)), t.right);
    }

    method Delete(node: Node) returns (ghost at: nat)
      requires Valid() && node in nodes
      modifies this, nodes, sentinel`parent, sentinel`red
      ensures Valid() && nodes == old(nodes) - {node}
      ensures Drops(old(Inorder(tree)), node, Inorder(tree), at)
      ensures Erased(node) && forall n :: n in nodes ==> n.key == old(n.key)
    {
      ghost var c, t := Find(node);
      if node.left == sentinel {
        at := DeleteOuter(node, node.right, c, t, t.right);
      } else if node.right == sentinel {
        at := DeleteOuter(node, node.left, c, t, t.left);
      } else {
        var subst;
        ghost var inner, u;
        Step(c, t, false);
        subst, inner, u := Min(node.right, InRight(c, t.left, node, t.key, t.red), t.right);
        at := DeleteInner(node, subst, c, t.left, t.key, t.red, inner, u);
      }
    }

    // Where a node of the tree is.
    lemma Find(node: Node) returns (c: Path, t: Tree)
      requires Valid() && node in nodes
      ensures Zip(c, t, node) && Plug(c, t) == tree && t.Bin? && t.node == node
      ensures node.left != null && Holds(Mem(), t.left, node.left, sentinel) && (node.left == sentinel <==> t.left.Leaf?)
      ensures node.right != null && Holds(Mem(), t.right, node.right, sentinel) && (node.right == sentinel <==> t.right.Leaf?)
    {
      var r := Locate(tree, node, Top);
      c, t := r.0, r.1;
      PlugNodes(c, t);
      GoDown(Mem(), c, t, root, sentinel);
      Step(c, t, true);
      Step(c, t, false);
    }

    // The leftmost node of the tree.
    method First() returns (node: Node)
      requires Valid() && root != sentinel
      ensures |Inorder(tree)| > 0 && node == Inorder(tree)[0].node
    {
      HoldsNodes(Mem(), tree, root, sentinel);
      ghost var inner, t;
      node, inner, t := Min(root, Top, tree);
      LeftmostIsFirst(inner, t);
    }

    // What comes right behind a node in order, or nothing.
    static ghost predicate IsNext(s: seq<Item>, node: Node, next: Node?) {
      exists at: nat :: at < |s| && s[at].node == node && next == Behind(s, at)
    }

    static ghost function Behind(s: seq<Item>, at: nat): Node? { if at + 1 < |s| then s[at + 1].node else null }

    // The next node in order.
    method Next(node: Node) returns (next: Node?)
      requires Valid() && node in nodes
      ensures IsNext(Inorder(tree), node, next)
    {
      hide Zip, HoldsPath, RedBlack, Plug, PathNodes, Before;
      ghost var c, t := Find(node);
      NextItemFollows(c, t);
      ghost var at := |Before(c)| + |Inorder(t.left)|;
      if node.right != sentinel {
        next := NextBelow(node, c, t);
      } else {
        next := Climb(node, c, t);
      }
      NextAt(Inorder(tree), at, node, next);
    }

    static lemma NextAt(s: seq<Item>, at: nat, node: Node, next: Node?)
      requires at < |s| && s[at].node == node && next == Behind(s, at)
      ensures IsNext(s, node, next)
    {
    }

    // The leftmost node of the right subtree.
    method NextBelow(node: Node, ghost c: Path, ghost t: Tree) returns (next: Node)
      requires Zip(c, t, node) && t.Bin? && t.node == node && !t.right.Leaf?
      requires node.right != null && Holds(Mem(), t.right, node.right, sentinel)
      ensures |Inorder(t.right)| > 0 && next == Inorder(t.right)[0].node
    {
      ghost var inner, u;
      Step(c, t, false);
      next, inner, u := Min(node.right, InRight(c, t.left, node, t.key, t.red), t.right);
      LeftmostIsFirst(inner, u);
    }

    // The nearest node above that has `node` on its left.
    method Climb(start: Node, ghost c0: Path, ghost t0: Tree) returns (next: Node?)
      requires Zip(c0, t0, start) && t0.Bin?
      ensures next == if After(c0) == [] then null else After(c0)[0].node
    {
      var node: Node := start;
      ghost var c, t := c0, t0;
      while true
        invariant Zip(c, t, node) && t.Bin? && After(c) == After(c0)
        decreases Depth(c)
      {
        var parent := node.parent;
        WhereItHangs(Mem(), c, t, node, root, sentinel);
        if node == root {
          return null;
        }
        CloseKeeps(c, t);
        GoUp(Mem(), c, t, node, root, sentinel);
        if node == parent.left {
          return parent;
        }
        node := parent;
        c, t := c.up, Close(c, t);
      }
    }
  }
}
