// The radix tree of IPv4 prefixes: a binary trie with parent links and a list
// of free nodes.
module Radix {
  import opened Options

  type Bits = seq<bool>

  const KeyBits: nat := 32

  // right also links the free list.
  datatype Node = Node(left: Option<nat>, right: Option<nat>, parent: Option<nat>, value: Option<nat>)

  datatype Rc = Ok | Busy | Error

  const Blank: Node := Node(None, None, None, None)

  function Child(n: Node, bit: bool): Option<nat> { if bit then n.right else n.left }

  function WithChild(n: Node, bit: bool, c: Option<nat>): Node { if bit then n.(right := c) else n.(left := c) }

  // ----- prefixes

  function Ext(p: Bits, bit: bool): (q: Bits)
    ensures q != [] && |q| == |p| + 1
  {
    p + [bit]
  }

  function Up(p: Bits): Bits
    requires p != []
  {
    p[..|p| - 1]
  }

  function LastBit(p: Bits): bool
    requires p != []
  {
    p[|p| - 1]
  }

  lemma ExtUp(p: Bits, bit: bool)
    ensures Up(Ext(p, bit)) == p && LastBit(Ext(p, bit)) == bit
  {
  }

  lemma UpExt(p: Bits)
    requires p != []
    ensures Ext(Up(p), LastBit(p)) == p
  {
  }

  // ----- the tree in memory

  function At(at: map<Bits, nat>, p: Bits): Option<nat> { if p in at then Some(at[p]) else None }

  // The node of a prefix points to those of the prefixes around it.
  ghost predicate NodeAt(nodes: seq<Node>, at: map<Bits, nat>, p: Bits) {
    && p in at && at[p] < |nodes| && |p| <= KeyBits
    && nodes[at[p]].left == At(at, Ext(p, false)) && nodes[at[p]].right == At(at, Ext(p, true))
    && nodes[at[p]].parent == (if p == [] then None else At(at, Up(p)))
    && (p != [] ==> Up(p) in at)
  }

  ghost predicate Linked(nodes: seq<Node>, at: map<Bits, nat>) {
    && [] in at
    && (forall p :: p in at ==> NodeAt(nodes, at, p))
    && (forall p, q :: p in at && q in at && at[p] == at[q] ==> p == q)
  }

  function NextSpare(spare: seq<nat>, k: nat): Option<nat> { if k + 1 < |spare| then Some(spare[k + 1]) else None }

  // The free list holds exactly the other nodes.
  ghost predicate Spared(nodes: seq<Node>, at: map<Bits, nat>, free: Option<nat>, spare: seq<nat>) {
    && free == (if spare == [] then None else Some(spare[0]))
    && (forall k :: 0 <= k < |spare| ==> spare[k] < |nodes|)
    && (forall k :: 0 <= k < |spare| ==> nodes[spare[k]].right == NextSpare(spare, k))
    && (forall j, k :: 0 <= j < k < |spare| ==> spare[j] != spare[k])
    && (forall p :: p in at ==> at[p] !in spare)
    && (forall i :: 0 <= i < |nodes| ==> i in spare || exists p :: p in at && at[p] == i)
  }

  predicate Leafless(at: map<Bits, nat>, p: Bits) { Ext(p, false) in at || Ext(p, true) in at }

  // No leaf but the root, or the one being worked at, is without a value.
  ghost predicate Pruned(nodes: seq<Node>, at: map<Bits, nat>, but: Bits) {
    forall p :: p in at && p != [] && p != but && at[p] < |nodes| && nodes[at[p]].value.None? ==> Leafless(at, p)
  }

  // What is stored: a value for some prefixes.
  ghost function Stored(nodes: seq<Node>, at: map<Bits, nat>): map<Bits, nat>
    requires Linked(nodes, at)
  {
    map p | p in at && InStore(nodes, at, p) :: nodes[at[p]].value.value
  }

  ghost predicate InStore(nodes: seq<Node>, at: map<Bits, nat>, p: Bits)
    requires Linked(nodes, at)
  {
    p in at && NodeAt(nodes, at, p) && nodes[at[p]].value.Some?
  }

  // Every prefix of a prefix in the tree is in the tree.
  lemma {:induction false} PrefixIn(nodes: seq<Node>, at: map<Bits, nat>, p: Bits, k: nat)
    requires Linked(nodes, at) && p in at && k <= |p|
    ensures p[..k] in at
    decreases |p|
  {
    assert NodeAt(nodes, at, p);
    if k < |p| {
      PrefixIn(nodes, at, Up(p), k);
      assert Up(p)[..k] == p[..k];
    } else {
      assert p[..k] == p;
    }
  }

  // ----- steps

  // A new node below p.
  function Grown(nodes: seq<Node>, at: map<Bits, nat>, p: Bits, bit: bool, id: nat): seq<Node>
    requires p in at && at[p] < |nodes| && id < |nodes|
  {
    var nodes1 := nodes[id := Node(None, None, Some(at[p]), None)];
    nodes1[at[p] := WithChild(nodes1[at[p]], bit, Some(id))]
  }

  lemma GrowStep(nodes: seq<Node>, at: map<Bits, nat>, p: Bits, bit: bool, id: nat)
    requires Linked(nodes, at) && p in at && |p| < KeyBits && Ext(p, bit) !in at
    requires id < |nodes| && forall q :: q in at ==> at[q] != id
    ensures at[p] < |nodes| && Linked(Grown(nodes, at, p, bit, id), at[Ext(p, bit) := id])
  {
    hide Grown, NodeAt;
    assert NodeAt(nodes, at, p);
    NodeIn(nodes, at, p);
    var nodes', at' := Grown(nodes, at, p, bit, id), at[Ext(p, bit) := id];
    forall q | q in at' ensures NodeAt(nodes', at', q) {
      if q == Ext(p, bit) {
        GrownNew(nodes, at, p, bit, id);
      } else {
        GrownOld(nodes, at, p, bit, id, q);
      }
    }
  }

  lemma NodeIn(nodes: seq<Node>, at: map<Bits, nat>, p: Bits)
    requires NodeAt(nodes, at, p)
    ensures p in at && at[p] < |nodes| && |p| <= KeyBits && (p != [] ==> Up(p) in at)
  {
  }

  lemma GrownNew(nodes: seq<Node>, at: map<Bits, nat>, p: Bits, bit: bool, id: nat)
    requires Linked(nodes, at) && p in at && |p| < KeyBits && Ext(p, bit) !in at
    requires id < |nodes| && forall q :: q in at ==> at[q] != id
    ensures at[p] < |nodes| && NodeAt(Grown(nodes, at, p, bit, id), at[Ext(p, bit) := id], Ext(p, bit))
  {
    assert NodeAt(nodes, at, p);
    ExtUp(p, bit);
    NoChildren(nodes, at, Ext(p, bit));
  }

  lemma GrownOld(nodes: seq<Node>, at: map<Bits, nat>, p: Bits, bit: bool, id: nat, q: Bits)
    requires NodeAt(nodes, at, p) && NodeAt(nodes, at, q) && Ext(p, bit) !in at && (at[q] == at[p] ==> q == p)
    requires id < |nodes| && at[q] != id && at[p] != id
    ensures NodeAt(Grown(nodes, at, p, bit, id), at[Ext(p, bit) := id], q)
  {
    ExtUp(p, bit);
    ExtUp(q, false);
    ExtUp(q, true);
    hide Ext, Up, LastBit;
  }

  // What is not in the tree has no children there.
  lemma NoChildren(nodes: seq<Node>, at: map<Bits, nat>, p: Bits)
    requires Linked(nodes, at) && p !in at
    ensures !Leafless(at, p)
  {
    ExtUp(p, false);
    ExtUp(p, true);
    assert Ext(p, false) in at ==> NodeAt(nodes, at, Ext(p, false));
    assert Ext(p, true) in at ==> NodeAt(nodes, at, Ext(p, true));
  }

  // A leaf is cut off.
  function Cut(nodes: seq<Node>, at: map<Bits, nat>, p: Bits, free: Option<nat>): seq<Node>
    requires p in at && at[p] < |nodes| && p != [] && Up(p) in at && at[Up(p)] < |nodes|
  {
    var nodes1 := nodes[at[Up(p)] := WithChild(nodes[at[Up(p)]], LastBit(p), None)];
    nodes1[at[p] := nodes1[at[p]].(right := free)]
  }

  lemma CutStep(nodes: seq<Node>, at: map<Bits, nat>, p: Bits, free: Option<nat>)
    requires Linked(nodes, at) && p in at && p != [] && !Leafless(at, p)
    ensures at[p] < |nodes| && Up(p) in at && at[Up(p)] < |nodes| && at[Up(p)] != at[p]
    ensures Linked(Cut(nodes, at, p, free), at - {p})
  {
    hide Cut, NodeAt;
    assert NodeAt(nodes, at, p);
    NodeIn(nodes, at, p);
    assert NodeAt(nodes, at, Up(p));
    NodeIn(nodes, at, Up(p));
    assert Up(p) != p;
    var nodes', at' := Cut(nodes, at, p, free), at - {p};
    forall q | q in at' ensures NodeAt(nodes', at', q) {
      CutOld(nodes, at, p, free, q);
    }
  }

  lemma CutOld(nodes: seq<Node>, at: map<Bits, nat>, p: Bits, free: Option<nat>, q: Bits)
    requires NodeAt(nodes, at, p) && p != [] && NodeAt(nodes, at, Up(p)) && NodeAt(nodes, at, q) && q != p && !Leafless(at, p)
    requires (at[q] == at[Up(p)] ==> q == Up(p)) && at[q] != at[p] && at[Up(p)] != at[p]
    ensures NodeAt(Cut(nodes, at, p, free), at - {p}, q)
  {
    UpExt(p);
    ExtUp(q, false);
    ExtUp(q, true);
    if q != [] { UpExt(q); }
    hide Ext, Up, LastBit;
  }

  // ----- what the steps do to what is stored

  lemma StoredIn(nodes: seq<Node>, at: map<Bits, nat>, p: Bits)
    requires Linked(nodes, at)
    ensures p in Stored(nodes, at) <==> p in at && at[p] < |nodes| && nodes[at[p]].value.Some?
    ensures p in Stored(nodes, at) ==> Stored(nodes, at)[p] == nodes[at[p]].value.value
  {
    assert p in at ==> NodeAt(nodes, at, p);
  }

  lemma GrowStored(nodes: seq<Node>, at: map<Bits, nat>, p: Bits, bit: bool, id: nat)
    requires Linked(nodes, at) && p in at && |p| < KeyBits && Ext(p, bit) !in at
    requires id < |nodes| && forall q :: q in at ==> at[q] != id
    ensures at[p] < |nodes| && Linked(Grown(nodes, at, p, bit, id), at[Ext(p, bit) := id])
    ensures Stored(Grown(nodes, at, p, bit, id), at[Ext(p, bit) := id]) == Stored(nodes, at)
  {
    hide NodeAt, Linked;
    GrowStep(nodes, at, p, bit, id);
    var nodes', at' := Grown(nodes, at, p, bit, id), at[Ext(p, bit) := id];
    forall q ensures q in Stored(nodes', at') <==> q in Stored(nodes, at) {
      StoredIn(nodes, at, q);
      StoredIn(nodes', at', q);
    }
    forall q | q in Stored(nodes, at) ensures Stored(nodes', at')[q] == Stored(nodes, at)[q] {
      StoredIn(nodes, at, q);
      StoredIn(nodes', at', q);
    }
  }

  lemma CutStored(nodes: seq<Node>, at: map<Bits, nat>, p: Bits, free: Option<nat>)
    requires Linked(nodes, at) && p in at && p != [] && !Leafless(at, p)
    ensures at[p] < |nodes| && Up(p) in at && at[Up(p)] < |nodes|
    ensures Linked(Cut(nodes, at, p, free), at - {p})
    ensures Stored(Cut(nodes, at, p, free), at - {p}) == Stored(nodes, at) - {p}
  {
    hide NodeAt, Linked;
    CutStep(nodes, at, p, free);
    var nodes', at' := Cut(nodes, at, p, free), at - {p};
    forall q ensures q in Stored(nodes', at') <==> q in Stored(nodes, at) && q != p {
      StoredIn(nodes, at, q);
      StoredIn(nodes', at', q);
    }
    forall q | q in Stored(nodes', at') ensures Stored(nodes', at')[q] == Stored(nodes, at)[q] {
      StoredIn(nodes, at, q);
      StoredIn(nodes', at', q);
    }
  }

  // A node's value alone changes.
  lemma ValueStep(nodes: seq<Node>, at: map<Bits, nat>, p: Bits, value: Option<nat>)
    requires Linked(nodes, at) && p in at
    ensures at[p] < |nodes|
    ensures var nodes' := nodes[at[p] := nodes[at[p]].(value := value)];
      && Linked(nodes', at)
      && Stored(nodes', at) == if value.Some? then Stored(nodes, at)[p := value.value] else Stored(nodes, at) - {p}
  {
    hide Linked, NodeAt;
    ValueLinked(nodes, at, p, value);
    var nodes' := nodes[at[p] := nodes[at[p]].(value := value)];
    var s := if value.Some? then Stored(nodes, at)[p := value.value] else Stored(nodes, at) - {p};
    forall q ensures q in Stored(nodes', at) <==> q in s {
      StoredIn(nodes, at, q);
      StoredIn(nodes', at, q);
      OwnNode(nodes, at, p, q);
    }
    forall q | q in s ensures Stored(nodes', at)[q] == s[q] {
      StoredIn(nodes, at, q);
      StoredIn(nodes', at, q);
      OwnNode(nodes, at, p, q);
    }
  }

  lemma ValueLinked(nodes: seq<Node>, at: map<Bits, nat>, p: Bits, value: Option<nat>)
    requires Linked(nodes, at) && p in at
    ensures at[p] < |nodes| && Linked(nodes[at[p] := nodes[at[p]].(value := value)], at)
  {
    assert NodeAt(nodes, at, p);
    forall q | q in at ensures NodeAt(nodes[at[p] := nodes[at[p]].(value := value)], at, q) {
      assert NodeAt(nodes, at, q);
    }
  }

  lemma OwnNode(nodes: seq<Node>, at: map<Bits, nat>, p: Bits, q: Bits)
    requires Linked(nodes, at) && p in at
    ensures q in at && at[q] == at[p] ==> q == p
  {
  }

  // ----- prefixes of a key

  // The length of the prefix that a mask gives: its leading ones.
  function Ones(mask: Bits): (n: nat)
    ensures n <= |mask| && (n < |mask| ==> !mask[n]) && forall i :: 0 <= i < n ==> mask[i]
  {
    if mask == [] || !mask[0] then 0 else 1 + Ones(mask[1..])
  }

  lemma NextPrefix(key: Bits, i: nat)
    requires i < |key|
    ensures key[..i + 1] == Ext(key[..i], key[i]) && key[..i + 1] != []
  {
  }

  // The value of the longest stored prefix of at least `from` and fewer than n
  // bits, if any.
  ghost predicate Longest(stored: map<Bits, nat>, key: Bits, n: nat, value: Option<nat>)
    requires n <= |key| + 1
  {
    match value
    case None => forall k: nat :: k < n ==> key[..k] !in stored
    case Some(v) => exists k: nat :: k < n && key[..k] in stored && stored[key[..k]] == v && forall j :: k < j < n ==> key[..j] !in stored
  }

  lemma LongestNext(stored: map<Bits, nat>, key: Bits, n: nat, value: Option<nat>)
    requires n <= |key| && Longest(stored, key, n, value)
    ensures Longest(stored, key, n + 1, if key[..n] in stored then Some(stored[key[..n]]) else value)
  {
    if key[..n] in stored {
      assert n < n + 1 && key[..n] in stored;
    } else if value.Some? {
      var k: nat :| k < n && key[..k] in stored && stored[key[..k]] == value.value && forall j :: k < j < n ==> key[..j] !in stored;
      assert forall j :: k < j < n + 1 ==> key[..j] !in stored;
    }
  }

  lemma LongerOut(nodes: seq<Node>, at: map<Bits, nat>, key: Bits, n: nat, k: nat)
    requires Linked(nodes, at) && n <= k <= |key|
    ensures key[..k] in at ==> key[..n] in at
  {
    if key[..k] in at {
      PrefixIn(nodes, at, key[..k], n);
      assert key[..k][..n] == key[..n];
    }
  }

  // Past the end of the tree nothing is stored.
  lemma LongestEnds(nodes: seq<Node>, at: map<Bits, nat>, key: Bits, n: nat, value: Option<nat>)
    requires Linked(nodes, at) && n <= |key| + 1 && Longest(Stored(nodes, at), key, n, value) && (n <= |key| ==> key[..n] !in at)
    ensures Longest(Stored(nodes, at), key, |key| + 1, value)
  {
    forall k | n <= k <= |key| ensures key[..k] !in Stored(nodes, at) {
      LongerOut(nodes, at, key, n, k);
    }
    if value.Some? {
      var s := Stored(nodes, at);
      var k: nat :| k < n && key[..k] in s && s[key[..k]] == value.value && forall j :: k < j < n ==> key[..j] !in s;
      assert k < |key| + 1 && key[..k] in s;
    }
  }

  // ----- the free list

  lemma SpareStep(nodes: seq<Node>, nodes': seq<Node>, at: map<Bits, nat>, at': map<Bits, nat>, spare: seq<nat>, spare': seq<nat>, free': Option<nat>, p: Bits, id: nat)
    requires |nodes'| == |nodes| || (|nodes'| == |nodes| + 1 && id == |nodes|)
    requires forall i :: 0 <= i < |nodes| && i in spare && i != id ==> nodes'[i].right == nodes[i].right
    requires exists free :: Spared(nodes, at, free, spare)
    requires id < |nodes'| && p !in at && at' == at[p := id]
    requires if spare != [] && id == spare[0] then spare' == spare[1..] else spare' == spare && id == |nodes| && spare == []
    requires free' == if spare' == [] then None else Some(spare'[0])
    ensures Spared(nodes', at', free', spare')
  {
    var free :| Spared(nodes, at, free, spare);
    forall k | 0 <= k < |spare'| ensures spare'[k] != id && spare'[k] < |nodes| && nodes'[spare'[k]].right == NextSpare(spare', k) {
      assert spare'[k] == spare[k + 1];
      assert NextSpare(spare', k) == NextSpare(spare, k + 1);
    }
    forall i | 0 <= i < |nodes'| ensures i in spare' || exists q :: q in at' && at'[q] == i {
      if i == id {
        assert p in at' && at'[p] == i;
      } else if i in spare {
        var k :| 0 <= k < |spare| && spare[k] == i;
        assert spare'[k - 1] == i;
      } else {
        var q :| q in at && at[q] == i;
        assert q in at' && at'[q] == i;
      }
    }
  }

  lemma GrowSpare(nodes: seq<Node>, nodes1: seq<Node>, at: map<Bits, nat>, spare: seq<nat>, spare': seq<nat>, free: Option<nat>, free': Option<nat>, p: Bits, bit: bool, id: nat)
    requires Linked(nodes, at) && Spared(nodes, at, free, spare) && p in at && Ext(p, bit) !in at
    requires if spare != [] then id == spare[0] && spare' == spare[1..] && nodes1 == nodes
             else id == |nodes| && spare' == [] && nodes1 == nodes + [Blank]
    requires free' == if spare' == [] then None else Some(spare'[0])
    ensures at[p] < |nodes1| && id < |nodes1| && Spared(Grown(nodes1, at, p, bit, id), at[Ext(p, bit) := id], free', spare')
  {
    assert NodeAt(nodes, at, p);
    SpareStep(nodes, Grown(nodes1, at, p, bit, id), at, at[Ext(p, bit) := id], spare, spare', free', Ext(p, bit), id);
  }

  lemma GrowPruned(nodes: seq<Node>, nodes1: seq<Node>, at: map<Bits, nat>, p: Bits, bit: bool, id: nat)
    requires Linked(nodes, at) && Pruned(nodes, at, p) && p in at && Ext(p, bit) !in at && id < |nodes1|
    requires (nodes1 == nodes || nodes1 == nodes + [Blank]) && forall q :: q in at ==> at[q] != id
    ensures at[p] < |nodes1| && Pruned(Grown(nodes1, at, p, bit, id), at[Ext(p, bit) := id], Ext(p, bit))
  {
    hide NodeAt, Leafless, Ext, Grown;
    assert NodeAt(nodes, at, p);
    NodeIn(nodes, at, p);
    GrownValues(nodes1, at, p, bit, id);
    var nodes', at' := Grown(nodes1, at, p, bit, id), at[Ext(p, bit) := id];
    forall q | q in at' && q != [] && q != Ext(p, bit) && at'[q] < |nodes'| && nodes'[at'[q]].value.None? ensures Leafless(at', q) {
      assert NodeAt(nodes, at, q);
      NodeIn(nodes, at, q);
      StillLeafless(at, p, bit, id, q);
    }
  }

  lemma GrownValues(nodes1: seq<Node>, at: map<Bits, nat>, p: Bits, bit: bool, id: nat)
    requires p in at && at[p] < |nodes1| && id < |nodes1|
    ensures |Grown(nodes1, at, p, bit, id)| == |nodes1|
    ensures forall i :: 0 <= i < |nodes1| && i != id ==> Grown(nodes1, at, p, bit, id)[i].value == nodes1[i].value
  {
  }

  lemma StillLeafless(at: map<Bits, nat>, p: Bits, bit: bool, id: nat, q: Bits)
    ensures Leafless(at, q) || q == p ==> Leafless(at[Ext(p, bit) := id], q)
  {
  }

  lemma CutSpare(nodes: seq<Node>, at: map<Bits, nat>, p: Bits, free: Option<nat>, spare: seq<nat>)
    requires Linked(nodes, at) && Spared(nodes, at, free, spare) && p in at && p != [] && !Leafless(at, p)
    ensures at[p] < |nodes| && Up(p) in at && at[Up(p)] < |nodes|
    ensures Spared(Cut(nodes, at, p, free), at - {p}, Some(at[p]), [at[p]] + spare)
  {
    hide NodeAt, Linked;
    CutStep(nodes, at, p, free);
    CutOwn(nodes, at, p);
    var d := [at[p]] + spare;
    CutList(nodes, at, p, free, spare);
    forall i | 0 <= i < |nodes| ensures i in d || exists q :: q in at - {p} && (at - {p})[q] == i {
      CutCover(nodes, at, p, free, spare, i);
    }
    forall q | q in at - {p} ensures at[q] !in d {}
  }

  lemma CutOwn(nodes: seq<Node>, at: map<Bits, nat>, p: Bits)
    requires Linked(nodes, at) && p in at
    ensures forall q :: q in at && q != p ==> at[q] != at[p]
  {
  }

  lemma CutList(nodes: seq<Node>, at: map<Bits, nat>, p: Bits, free: Option<nat>, spare: seq<nat>)
    requires Spared(nodes, at, free, spare) && p in at && at[p] < |nodes| && p != [] && Up(p) in at && at[Up(p)] < |nodes| && at[Up(p)] != at[p]
    ensures var nodes', d := Cut(nodes, at, p, free), [at[p]] + spare;
      && (forall k :: 0 <= k < |d| ==> d[k] < |nodes'|)
      && (forall k :: 0 <= k < |d| ==> nodes'[d[k]].right == NextSpare(d, k))
      && (forall j, k :: 0 <= j < k < |d| ==> d[j] != d[k])
  {
    var d := [at[p]] + spare;
    assert forall k :: 1 <= k < |d| ==> d[k] == spare[k - 1] && d[k] in spare;
  }

  lemma CutCover(nodes: seq<Node>, at: map<Bits, nat>, p: Bits, free: Option<nat>, spare: seq<nat>, i: nat)
    requires Spared(nodes, at, free, spare) && p in at && i < |nodes|
    ensures i in [at[p]] + spare || exists q :: q in at - {p} && (at - {p})[q] == i
  {
    var d := [at[p]] + spare;
    if i == at[p] {
      assert d[0] == i;
    } else if i in spare {
      var k :| 0 <= k < |spare| && spare[k] == i;
      assert d[k + 1] == i;
    } else {
      var q :| q in at && at[q] == i;
      assert q in at - {p} && (at - {p})[q] == i;
    }
  }

  lemma CutPruned(nodes: seq<Node>, at: map<Bits, nat>, p: Bits, free: Option<nat>)
    requires Linked(nodes, at) && Pruned(nodes, at, p) && p in at && p != [] && !Leafless(at, p)
    ensures at[p] < |nodes| && Up(p) in at && at[Up(p)] < |nodes| && Pruned(Cut(nodes, at, p, free), at - {p}, Up(p))
  {
    hide NodeAt;
    CutStep(nodes, at, p, free);
    UpExt(p);
    assert forall q :: q in at ==> NodeAt(nodes, at, q);
    forall q | q in at - {p} && q != [] && q != Up(p) && at[q] < |nodes| && nodes[at[q]].value.None? ensures Leafless(at - {p}, q) {
      NodeIn(nodes, at, q);
      ExtUp(q, false);
      ExtUp(q, true);
    }
  }

  // More room changes nothing.
  lemma RoomStep(nodes: seq<Node>, at: map<Bits, nat>)
    requires Linked(nodes, at)
    ensures Linked(nodes + [Blank], at) && Stored(nodes + [Blank], at) == Stored(nodes, at)
    ensures forall p :: p in at ==> at[p] < |nodes|
  {
    forall p | p in at ensures NodeAt(nodes + [Blank], at, p) && at[p] < |nodes| {
      assert NodeAt(nodes, at, p);
    }
    forall p ensures p in Stored(nodes + [Blank], at) <==> p in Stored(nodes, at) {
      StoredIn(nodes, at, p);
      StoredIn(nodes + [Blank], at, p);
    }
  }

  class RadixTree {
    var nodes: seq<Node>
    var root: nat
    var free: Option<nat>

    ghost var at: map<Bits, nat>    // the node of each prefix in the tree
    ghost var spare: seq<nat>       // the free list

    // In order but for the value of one leaf.
    ghost predicate Nearly(but: Bits)
      reads this
    {
      Linked(nodes, at) && at[[]] == root && Spared(nodes, at, free, spare) && Pruned(nodes, at, but)
    }

    ghost predicate Valid()
      reads this
    {
      Nearly([])
    }

    ghost function Contents(): map<Bits, nat>
      requires Linked(nodes, at)
      reads this
    {
      Stored(nodes, at)
    }

    constructor ()
      ensures Valid() && Contents() == map[]
    {
      nodes, root, free, at, spare := [Blank], 0, None, map[[] := 0], [];
      new;
      assert NodeAt(nodes, at, []);
      assert [] in at && at[[]] == 0;
      StoredIn(nodes, at, []);
    }

    // ngx_radix_alloc
    method Alloc() returns (id: nat)
      requires Linked(nodes, at) && Spared(nodes, at, free, spare)
      modifies `nodes, `free, `spare
      ensures id < |nodes| && Linked(nodes, at) && (forall p :: p in at ==> at[p] != id) && Contents() == old(Contents())
      ensures nodes == old(nodes) || nodes == old(nodes) + [Blank]
      ensures if old(spare) != [] then id == old(spare)[0] && spare == old(spare)[1..] && nodes == old(nodes)
              else id == |old(nodes)| && spare == [] && nodes == old(nodes) + [Blank]
      ensures free == if spare == [] then None else Some(spare[0])
    {
      hide NodeAt, Linked;
      RoomStep(nodes, at);
      if free.Some? {
        id := free.value;
        assert spare[0] == id && id in spare;
        assert nodes[spare[0]].right == NextSpare(spare, 0);
        free := nodes[id].right;
        spare := spare[1..];
      } else {
        id := |nodes|;
        nodes := nodes + [Blank];
      }
    }

    // A new node in the way of the key.
    method Extend(node: nat, bit: bool, ghost p: Bits) returns (next: nat)
      requires Nearly(p) && p in at && at[p] == node && |p| < KeyBits && Ext(p, bit) !in at
      modifies `nodes, `free, `spare, `at
      ensures Nearly(Ext(p, bit)) && Ext(p, bit) in at && at[Ext(p, bit)] == next && Contents() == old(Contents())
      ensures at == old(at)[Ext(p, bit) := next]
      ensures if old(spare) == [] then spare == [] && |nodes| == |old(nodes)| + 1 else |nodes| == |old(nodes)|
    {
      hide NodeAt, Linked, Spared, Pruned, Leafless, Ext;
      ghost var nodes0, at0, spare0, free0 := nodes, at, spare, free;
      next := Alloc();
      ghost var nodes1 := nodes;
      GrowStored(nodes, at, p, bit, next);
      GrowSpare(nodes0, nodes1, at0, spare0, spare, free0, free, p, bit, next);
      GrowPruned(nodes0, nodes1, at0, p, bit, next);
      nodes := nodes[next := Node(None, None, Some(node), None)];
      nodes := nodes[node := WithChild(nodes[node], bit, Some(next))];
      at := at[Ext(p, bit) := next];
      assert nodes == Grown(nodes1, at0, p, bit, next);
    }

    // ngx_radix32tree_find: the value of the longest stored prefix of the key.
    method Find(key: Bits) returns (value: Option<nat>)
      requires Valid() && |key| == KeyBits
      ensures Longest(Contents(), key, KeyBits + 1, value)
    {
      hide Spared, Pruned, NodeAt, Linked, Longest;
      var bit := 0;
      value := None;
      var node := Some(root);
      NothingYet(Contents(), key);
      Starts(key);
      while node.Some?
        invariant bit <= KeyBits + 1 && (node.Some? ==> bit <= KeyBits && key[..bit] in at && at[key[..bit]] == node.value)
        invariant node.None? && bit <= KeyBits ==> key[..bit] !in at
        invariant Longest(Contents(), key, bit, value)
        decreases KeyBits + 1 - bit
      {
        AtNode(key, bit);
        LongestNext(Contents(), key, bit, value);
        StoredIn(nodes, at, key[..bit]);
        if nodes[node.value].value.Some? {
          value := nodes[node.value].value;
        }
        if bit < KeyBits && key[bit] {
          node := nodes[node.value].right;
        } else {
          node := nodes[node.value].left;
        }
        bit := bit + 1;
      }
      LongestEnds(nodes, at, key, bit, value);
    }

    static lemma NothingYet(stored: map<Bits, nat>, key: Bits)
      ensures Longest(stored, key, 0, None)
    {
    }

    lemma Starts(key: Bits)
      requires Linked(nodes, at)
      ensures [] in at && key[..0] == []
    {
    }

    // The node of a prefix of the key, and where its links lead.
    lemma AtNode(key: Bits, bit: nat)
      requires Linked(nodes, at) && bit <= |key| == KeyBits && key[..bit] in at
      ensures at[key[..bit]] < |nodes|
      ensures bit < KeyBits ==> Child(nodes[at[key[..bit]]], key[bit]) == At(at, key[..bit + 1])
      ensures bit == KeyBits ==> nodes[at[key[..bit]]].left.None? && nodes[at[key[..bit]]].right.None?
    {
      assert NodeAt(nodes, at, key[..bit]);
      if bit < KeyBits {
        NextPrefix(key, bit);
      } else {
        assert Ext(key[..bit], false) in at ==> NodeAt(nodes, at, Ext(key[..bit], false));
        assert Ext(key[..bit], true) in at ==> NodeAt(nodes, at, Ext(key[..bit], true));
      }
    }

    // ngx_radix32tree_insert
    method Insert(key: Bits, mask: Bits, value: nat) returns (rc: Rc)
      requires Valid() && |key| == |mask| == KeyBits
      modifies this
      ensures Valid() && rc == if key[..Ones(mask)] in old(Contents()) then Busy else Ok
      ensures Contents() == if rc == Ok then old(Contents())[key[..Ones(mask)] := value] else old(Contents())
      ensures |nodes| > |old(nodes)| ==> spare == []
    {
      hide Spared, NodeAt, Linked, Pruned;
      var bit := 0;
      var node, next := root, Some(root);
      Starts(key);
      ghost var n := Ones(mask);
      while bit < KeyBits && mask[bit]
        invariant bit <= n && key[..bit] in at && at[key[..bit]] == node && next == Some(node)
        modifies {}
      {
        AtNode(key, bit);
        if key[bit] {
          next := nodes[node].right;
        } else {
          next := nodes[node].left;
        }
        if next.None? {
          break;
        }
        bit := bit + 1;
        node := next.value;
      }
      AtNode(key, bit);
      if next.Some? {
        rc := PutNew(node, key[..bit], value);
        return;
      }
      LongerOut(nodes, at, key, bit + 1, n);
      StoredIn(nodes, at, key[..n]);
      node := Build(key, mask, bit, node);
      Put(node, key[..n], value);
      rc := Ok;
    }

    // A value for a node that may have one.
    method PutNew(node: nat, ghost p: Bits, value: nat) returns (rc: Rc)
      requires Valid() && p in at && at[p] == node
      modifies `nodes
      ensures Valid() && rc == (if p in old(Contents()) then Busy else Ok)
      ensures Contents() == (if rc == Ok then old(Contents())[p := value] else old(Contents())) && |nodes| == |old(nodes)|
    {
      hide Spared, NodeAt, Linked, Pruned;
      ValueStep(nodes, at, p, None);
      StoredIn(nodes, at, p);
      if nodes[node].value.Some? {
        return Busy;
      }
      PrunedAll(p);
      Put(node, p, value);
      rc := Ok;
    }

    lemma PrunedAll(p: Bits)
      requires Pruned(nodes, at, [])
      ensures Pruned(nodes, at, p)
    {
    }

    method Put(node: nat, ghost p: Bits, value: nat)
      requires Nearly(p) && p in at && at[p] == node
      modifies `nodes
      ensures Valid() && Contents() == old(Contents())[p := value] && |nodes| == |old(nodes)|
    {
      hide NodeAt, Linked;
      ValueStep(nodes, at, p, Some(value));
      nodes := nodes[node := nodes[node].(value := Some(value))];
    }

    // The missing nodes on the way of the key.
    method Build(key: Bits, mask: Bits, bit0: nat, node0: nat) returns (node: nat)
      requires Valid() && |key| == |mask| == KeyBits && bit0 < Ones(mask) && key[..bit0] in at && at[key[..bit0]] == node0
      requires key[..bit0 + 1] !in at
      modifies this
      ensures Nearly(key[..Ones(mask)]) && key[..Ones(mask)] in at && at[key[..Ones(mask)]] == node && Contents() == old(Contents())
      ensures |nodes| > |old(nodes)| ==> spare == []
    {
      hide Spared, NodeAt, Linked, Pruned, Stored;
      ghost var n := Ones(mask);
      var bit := bit0;
      node := node0;
      PrunedAll(key[..bit]);
      while bit < KeyBits && mask[bit]
        invariant bit0 <= bit <= n && Nearly(key[..bit]) && key[..bit] in at && at[key[..bit]] == node
        invariant |nodes| >= |old(nodes)| && (|nodes| > |old(nodes)| ==> spare == [])
        invariant Contents() == old(Contents()) && (bit < n ==> key[..bit + 1] !in at)
      {
        NextPrefix(key, bit);
        if bit + 1 < n { LongerOut(nodes, at, key, bit + 1, bit + 2); }
        node := Extend(node, key[bit], key[..bit]);
        bit := bit + 1;
      }
    }

    ghost predicate Childless(node: nat)
      reads this
    {
      node < |nodes| && nodes[node].left.None? && nodes[node].right.None?
    }

    // The links of a prefix's node tell whether it is a leaf and whether it is
    // the root.
    lemma Links(p: Bits)
      requires Linked(nodes, at) && p in at
      ensures at[p] < |nodes| && (Childless(at[p]) <==> !Leafless(at, p)) && (nodes[at[p]].parent.None? <==> p == [])
      ensures p != [] ==> Up(p) in at && Up(p) != p && nodes[at[p]].parent == Some(at[Up(p)]) && at[Up(p)] < |nodes|
      ensures p != [] ==> (nodes[at[Up(p)]].right == Some(at[p]) <==> LastBit(p))
    {
      assert NodeAt(nodes, at, p);
      if p != [] {
        assert NodeAt(nodes, at, Up(p));
        UpExt(p);
        ExtUp(Up(p), true);
      }
    }

    lemma PrunedHere(p: Bits)
      requires Linked(nodes, at) && Pruned(nodes, at, p) && p in at
      requires p == [] || Leafless(at, p) || p in Contents()
      ensures Pruned(nodes, at, [])
    {
      StoredIn(nodes, at, p);
    }

    // The leaf of a prefix goes to the free list.
    method CutLeaf(node: nat, ghost p: Bits) returns (parent: nat)
      requires Nearly(p) && p in at && at[p] == node && p != [] && !Leafless(at, p)
      modifies `nodes, `free, `spare, `at
      ensures Nearly(Up(p)) && Up(p) in at && at[Up(p)] == parent && at == old(at) - {p}
      ensures Contents() == old(Contents()) - {p} && |nodes| == |old(nodes)|
    {
      hide NodeAt, Linked, Spared, Pruned, Leafless, Up, LastBit;
      CutStored(nodes, at, p, free);
      CutSpare(nodes, at, p, free, spare);
      CutPruned(nodes, at, p, free);
      Links(p);
      Starts(p);
      ghost var nodes0 := nodes;
      parent := nodes[node].parent.value;
      if nodes[parent].right == Some(node) {
        nodes := nodes[parent := nodes[parent].(right := None)];
      } else {
        nodes := nodes[parent := nodes[parent].(left := None)];
      }
      nodes := nodes[node := nodes[node].(right := free)];
      assert nodes == Cut(nodes0, at, p, free);
      free := Some(node);
      spare := [node] + spare;
      at := at - {p};
    }

    // ngx_radix32tree_delete. The empty prefix is not deleted from a childless
    // root, as the root has no parent to be cut off from.
    method Delete(key: Bits, mask: Bits) returns (rc: Rc)
      requires Valid() && |key| == |mask| == KeyBits && (Childless(root) ==> Ones(mask) > 0)
      modifies this
      ensures Valid() && rc == if key[..Ones(mask)] in old(Contents()) then Ok else Error
      ensures Contents() == old(Contents()) - {key[..Ones(mask)]} && |nodes| == |old(nodes)|
    {
      hide Spared, NodeAt, Linked, Pruned, Stored, Leafless;
      var bit := 0;
      var found := Some(root);
      Starts(key);
      ghost var n := Ones(mask);
      while found.Some? && bit < KeyBits && mask[bit]
        invariant bit <= n && if found.Some? then key[..bit] in at && at[key[..bit]] == found.value else key[..bit] !in at
        modifies {}
      {
        AtNode(key, bit);
        if key[bit] {
          found := nodes[found.value].right;
        } else {
          found := nodes[found.value].left;
        }
        bit := bit + 1;
      }
      StoredIn(nodes, at, key[..n]);
      if found.None? {
        LongerOut(nodes, at, key, bit, n);
        return Error;
      }
      var node := found.value;
      ghost var p := key[..n];
      Links(p);
      if nodes[node].right.Some? || nodes[node].left.Some? {
        if nodes[node].value.Some? {
          TakeValue(node, p);
          return Ok;
        }
        return Error;
      }
      LeafStored(p);
      PrunedAll(p);
      while true
        invariant Nearly(p) && p in at && at[p] == node && p != [] && !Leafless(at, p)
        invariant |nodes| == |old(nodes)| && Contents() - {key[..n]} == old(Contents()) - {key[..n]}
        invariant p == key[..n] || (p !in Contents() && key[..n] !in Contents())
        decreases |p|
      {
        node := CutLeaf(node, p);
        p := Up(p);
        Links(p);
        StoredIn(nodes, at, p);
        if nodes[node].right.Some? || nodes[node].left.Some? {
          PrunedHere(p);
          break;
        }
        if nodes[node].value.Some? {
          PrunedHere(p);
          break;
        }
        if nodes[node].parent.None? {
          break;
        }
      }
      rc := Ok;
    }

    lemma LeafStored(p: Bits)
      requires Linked(nodes, at) && Pruned(nodes, at, []) && p in at && p != [] && !Leafless(at, p)
      ensures p in Contents()
    {
      assert NodeAt(nodes, at, p);
      StoredIn(nodes, at, p);
    }

    // An inner node loses its value.
    method TakeValue(node: nat, ghost p: Bits)
      requires Valid() && p in at && at[p] == node && Leafless(at, p)
      modifies `nodes
      ensures Valid() && Contents() == old(Contents()) - {p} && |nodes| == |old(nodes)|
    {
      hide NodeAt, Linked;
      ValueStep(nodes, at, p, None);
      CutOwn(nodes, at, p);
      nodes := nodes[node := nodes[node].(value := None)];
    }
  }
}
