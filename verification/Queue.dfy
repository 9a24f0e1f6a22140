// Circular intrusive lists: a head and its members, each linked both ways. The
// stable insertion sort relinks the members in place.
module Queue {
  class Link {
    var prev: Link?
    var next: Link?

    // ngx_queue_init
    constructor ()
      ensures prev == next == this && Ring(this, [])
    {
      new;
      prev, next := this, this;
    }
  }

  // The head stands before the first member and after the last.
  function Spot(h: Link, s: seq<Link>, i: int): Link {
    if 1 <= i <= |s| then s[i - 1] else h
  }

  ghost predicate NoDup(h: Link, s: seq<Link>) {
    h !in s && forall i, j :: 0 <= i < j < |s| ==> s[i] != s[j]
  }

  ghost predicate LinkedAt(h: Link, s: seq<Link>, i: int)
    reads h, s
  {
    Spot(h, s, i).next == Spot(h, s, i + 1) && Spot(h, s, i + 1).prev == Spot(h, s, i)
  }

  ghost predicate Ring(h: Link, s: seq<Link>)
    reads h, s
  {
    NoDup(h, s) && forall i :: 0 <= i <= |s| ==> LinkedAt(h, s, i)
  }

  // A ring has one reading only.
  lemma {:induction false} RingIsDetermined(h: Link, s: seq<Link>, t: seq<Link>, i: nat)
    requires Ring(h, s) && Ring(h, t) && i <= |s|
    ensures i <= |t| && s[..i] == t[..i] && (i == |s| ==> s == t)
  {
    if i > 0 {
      RingIsDetermined(h, s, t, i - 1);
      assert LinkedAt(h, s, i - 1) && LinkedAt(h, t, i - 1);
      assert Spot(h, s, i - 1) == Spot(h, t, i - 1) by { if i > 1 { assert s[..i - 1][i - 2] == t[..i - 1][i - 2]; } }
      assert s[..i] == s[..i - 1] + [s[i - 1]];
      assert t[..i] == t[..i - 1] + [t[i - 1]];
    }
    if i == |s| {
      assert LinkedAt(h, s, i) && LinkedAt(h, t, i);
      assert Spot(h, s, i) == Spot(h, t, i) by { if i > 0 { assert s[..i][i - 1] == t[..i][i - 1]; } }
      assert |t| == |s|;
    }
  }

  // ----- the macros

  function Inserted(s: seq<Link>, k: nat, x: Link): seq<Link>
    requires k <= |s|
  {
    s[..k] + [x] + s[k..]
  }

  function Removed(s: seq<Link>, k: nat): seq<Link>
    requires k < |s|
  {
    s[..k] + s[k + 1..]
  }

  // Two spots of a ring are one only at the head, which stands on both ends.
  lemma SpotsApart(h: Link, s: seq<Link>)
    requires NoDup(h, s)
    ensures forall i, j :: 0 <= i <= |s| && 0 <= j <= |s| && Spot(h, s, i) == Spot(h, s, j) ==> i == j
    ensures forall i, j :: 1 <= i <= |s| + 1 && 1 <= j <= |s| + 1 && Spot(h, s, i) == Spot(h, s, j) ==> i == j
  {
  }

  lemma InsertedSpots(h: Link, s: seq<Link>, k: nat, x: Link)
    requires NoDup(h, s) && k <= |s| && x != h && x !in s
    ensures NoDup(h, Inserted(s, k, x)) && Spot(h, Inserted(s, k, x), k + 1) == x
    ensures forall i :: 0 <= i <= k ==> Spot(h, Inserted(s, k, x), i) == Spot(h, s, i)
    ensures forall i :: k + 2 <= i <= |s| + 2 ==> Spot(h, Inserted(s, k, x), i) == Spot(h, s, i - 1)
  {
  }

  // ngx_queue_insert_after and ngx_queue_insert_head
  method InsertAfter(p: Link, x: Link, ghost h: Link, ghost s: seq<Link>, ghost k: nat)
    requires Ring(h, s) && k <= |s| && p == Spot(h, s, k) && x != h && x !in s
    modifies h, s, x
    ensures Ring(h, Inserted(s, k, x))
  {
    ghost var t := Inserted(s, k, x);
    SpotsApart(h, s);
    InsertedSpots(h, s, k, x);
    assert LinkedAt(h, s, k);
    hide Inserted, Spot;
    x.next := p.next;
    x.next.prev := x;
    x.prev := p;
    p.next := x;
    forall i | 0 <= i <= |t| ensures LinkedAt(h, t, i) {
      if i < k {
        assert old(LinkedAt(h, s, i));
      } else if i > k + 1 {
        assert old(LinkedAt(h, s, i - 1));
      }
    }
  }

  // ngx_queue_insert_tail
  method InsertTail(h: Link, x: Link, ghost s: seq<Link>)
    requires Ring(h, s) && x != h && x !in s
    modifies h, s, x
    ensures Ring(h, s + [x])
  {
    ghost var t := Inserted(s, |s|, x);
    assert t == s + [x];
    SpotsApart(h, s);
    InsertedSpots(h, s, |s|, x);
    assert LinkedAt(h, s, |s|);
    x.prev := h.prev;
    x.prev.next := x;
    x.next := h;
    h.prev := x;
    forall i | 0 <= i <= |t| ensures LinkedAt(h, t, i) {
      if i < |s| {
        assert old(LinkedAt(h, s, i));
      }
    }
  }

  // ngx_queue_remove
  method Remove(x: Link, ghost h: Link, ghost s: seq<Link>, ghost k: nat)
    requires Ring(h, s) && k < |s| && s[k] == x
    modifies h, s
    ensures Ring(h, Removed(s, k))
  {
    ghost var t := Removed(s, k);
    SpotsApart(h, s);
    assert LinkedAt(h, s, k) && LinkedAt(h, s, k + 1);
    x.next.prev := x.prev;
    x.prev.next := x.next;
    forall i | 0 <= i <= |t| ensures LinkedAt(h, t, i) {
      assert old(LinkedAt(h, s, i)) && old(LinkedAt(h, s, i + 1));
      assert Spot(h, t, i) == Spot(h, s, if i <= k then i else i + 1);
      assert Spot(h, t, i + 1) == Spot(h, s, if i < k then i + 1 else i + 2);
    }
  }

  // ngx_queue_split: from q on the members move to the ring of n.
  method Split(h: Link, q: Link, n: Link, ghost s: seq<Link>, ghost k: nat)
    requires Ring(h, s) && k < |s| && s[k] == q && n != h && n !in s
    modifies h, s, n
    ensures Ring(h, s[..k]) && Ring(n, s[k..])
  {
    SpotsApart(h, s);
    assert LinkedAt(h, s, k) && LinkedAt(h, s, |s|);
    n.prev := h.prev;
    n.prev.next := n;
    n.next := q;
    h.prev := q.prev;
    h.prev.next := h;
    q.prev := n;
    forall i | 0 <= i <= k ensures LinkedAt(h, s[..k], i) {
      assert old(LinkedAt(h, s, i));
      assert Spot(h, s[..k], i) == Spot(h, s, i);
      assert i < k ==> Spot(h, s[..k], i + 1) == Spot(h, s, i + 1);
    }
    forall i | 0 <= i <= |s| - k ensures LinkedAt(n, s[k..], i) {
      assert old(LinkedAt(h, s, k + i));
      assert i > 0 ==> Spot(n, s[k..], i) == Spot(h, s, k + i);
      assert i < |s| - k ==> Spot(n, s[k..], i + 1) == Spot(h, s, k + i + 1);
    }
  }

  lemma NoDupBoth(h: Link, n: Link, s: seq<Link>, t: seq<Link>)
    requires NoDup(h, s) && NoDup(n, t) && h !in t && forall x :: x in s ==> x !in t
    ensures NoDup(h, s + t)
  {
    forall i, j | 0 <= i < j < |s + t| ensures (s + t)[i] != (s + t)[j] {
      assert i < |s| ==> s[i] in s;
      assert j >= |s| ==> t[j - |s|] in t;
    }
  }

  // ngx_queue_add: the members of n move to the end of h.
  method Add(h: Link, n: Link, ghost s: seq<Link>, ghost t: seq<Link>)
    requires Ring(h, s) && Ring(n, t) && h != n && h !in t && n !in s && forall x :: x in s ==> x !in t
    modifies h, s, n, t
    ensures Ring(h, s + t)
  {
    SpotsApart(h, s);
    SpotsApart(n, t);
    NoDupBoth(h, n, s, t);
    hide NoDup;
    assert LinkedAt(h, s, |s|) && LinkedAt(n, t, 0) && LinkedAt(n, t, |t|);
    h.prev.next := n.next;
    n.next.prev := h.prev;
    h.prev := n.prev;
    h.prev.next := h;
    forall i | 0 <= i <= |s + t| ensures LinkedAt(h, s + t, i) {
      if i < |s| {
        assert old(LinkedAt(h, s, i));
        assert Spot(h, s + t, i) == Spot(h, s, i) && Spot(h, s + t, i + 1) == Spot(h, s, i + 1);
      } else {
        assert old(LinkedAt(n, t, i - |s|));
        assert i > |s| ==> Spot(h, s + t, i) == Spot(n, t, i - |s|);
        assert i < |s + t| ==> Spot(h, s + t, i + 1) == Spot(n, t, i - |s| + 1);
        assert i == |s| ==> Spot(h, s + t, i) == Spot(h, s, i);
      }
    }
  }

  // ----- the middle

  // ngx_queue_middle
  method Middle(h: Link, ghost s: seq<Link>) returns (middle: Link)
    requires Ring(h, s)
    ensures middle == if s == [] then h else s[|s| / 2]
  {
    assert LinkedAt(h, s, 0) && LinkedAt(h, s, |s|);
    middle := h.next;
    if middle == h.prev {
      return;
    }
    var next := h.next;
    ghost var i := 0;
    while true
      invariant 2 * i < |s| - 1 && middle == s[i] && next == s[2 * i]
      decreases |s| - i
    {
      assert LinkedAt(h, s, i + 1) && LinkedAt(h, s, 2 * i + 1);
      middle := middle.next;
      next := next.next;
      if next == h.prev {
        return;
      }
      assert LinkedAt(h, s, 2 * i + 2);
      next := next.next;
      if next == h.prev {
        return;
      }
      i := i + 1;
    }
  }

  // ----- the sort

  // Behind the last member that does not compare greater.
  function InsertBack(cmp: (Link, Link) -> int, sorted: seq<Link>, x: Link): (r: seq<Link>)
    ensures |r| == |sorted| + 1
  {
    if sorted == [] then [x]
    else if cmp(sorted[|sorted| - 1], x) <= 0 then sorted + [x]
    else InsertBack(cmp, sorted[..|sorted| - 1], x) + [sorted[|sorted| - 1]]
  }

  function Sorted(cmp: (Link, Link) -> int, s: seq<Link>): seq<Link> {
    if s == [] then [] else InsertBack(cmp, Sorted(cmp, s[..|s| - 1]), s[|s| - 1])
  }

  // A total preorder on the members: each two compare, consistently.
  ghost predicate TotalPreorder(cmp: (Link, Link) -> int, s: seq<Link>) {
    && (forall x, y :: x in s && y in s ==> cmp(x, y) <= 0 || cmp(y, x) <= 0)
    && (forall x, y, z :: x in s && y in s && z in s && cmp(x, y) <= 0 && cmp(y, z) <= 0 ==> cmp(x, z) <= 0)
  }

  ghost predicate Ordered(cmp: (Link, Link) -> int, s: seq<Link>) {
    forall i, j :: 0 <= i < j < |s| ==> cmp(s[i], s[j]) <= 0
  }

  predicate Equal(cmp: (Link, Link) -> int, x: Link, y: Link) { cmp(x, y) <= 0 && cmp(y, x) <= 0 }

  // The members equal to z, in their order.
  function Class(cmp: (Link, Link) -> int, z: Link, s: seq<Link>): seq<Link> {
    if s == [] then []
    else if Equal(cmp, s[0], z) then [s[0]] + Class(cmp, z, s[1..])
    else Class(cmp, z, s[1..])
  }

  lemma {:induction false} InsertBackIs(cmp: (Link, Link) -> int, sorted: seq<Link>, x: Link, k: nat)
    requires k <= |sorted| && (forall i :: k <= i < |sorted| ==> cmp(sorted[i], x) > 0) && (k > 0 ==> cmp(sorted[k - 1], x) <= 0)
    ensures InsertBack(cmp, sorted, x) == Inserted(sorted, k, x)
    decreases |sorted|
  {
    if k < |sorted| {
      InsertBackIs(cmp, sorted[..|sorted| - 1], x, k);
    }
  }

  lemma {:induction false} InsertBackKeeps(cmp: (Link, Link) -> int, sorted: seq<Link>, x: Link)
    ensures multiset(InsertBack(cmp, sorted, x)) == multiset(sorted) + multiset{x}
  {
    if sorted != [] {
      var n := |sorted| - 1;
      assert sorted == sorted[..n] + [sorted[n]];
      InsertBackKeeps(cmp, sorted[..n], x);
    }
  }

  lemma Fewer(cmp: (Link, Link) -> int, s: seq<Link>, t: seq<Link>)
    requires TotalPreorder(cmp, s) && forall x :: x in t ==> x in s
    ensures TotalPreorder(cmp, t)
  {
  }

  lemma Compares(cmp: (Link, Link) -> int, s: seq<Link>, x: Link, y: Link, z: Link)
    requires TotalPreorder(cmp, s) && x in s && y in s && z in s
    ensures cmp(x, y) <= 0 || cmp(y, x) <= 0
    ensures cmp(x, y) <= 0 && cmp(y, z) <= 0 ==> cmp(x, z) <= 0
  {
  }

  lemma {:induction false} InsertBackOrders(cmp: (Link, Link) -> int, sorted: seq<Link>, x: Link)
    requires TotalPreorder(cmp, sorted + [x]) && Ordered(cmp, sorted)
    ensures Ordered(cmp, InsertBack(cmp, sorted, x))
    decreases |sorted|
  {
    hide TotalPreorder;
    if sorted == [] {
      return;
    }
    var n, all := |sorted| - 1, sorted + [x];
    var y := sorted[n];
    assert y in all && x in all;
    Compares(cmp, all, x, y, y);
    if cmp(y, x) > 0 {
      var r := InsertBack(cmp, sorted[..n], x);
      Fewer(cmp, all, sorted[..n] + [x]);
      InsertBackOrders(cmp, sorted[..n], x);
      InsertBackKeeps(cmp, sorted[..n], x);
      forall z | z in r ensures cmp(z, y) <= 0 {
        assert z in multiset(r);
      }
      OrderedPush(cmp, r, y);
    } else {
      forall z | z in sorted ensures cmp(z, x) <= 0 {
        assert z in all;
        Compares(cmp, all, z, y, x);
      }
      OrderedPush(cmp, sorted, x);
    }
  }

  lemma OrderedPush(cmp: (Link, Link) -> int, s: seq<Link>, y: Link)
    requires Ordered(cmp, s) && forall z :: z in s ==> cmp(z, y) <= 0
    ensures Ordered(cmp, s + [y])
  {
  }

  lemma {:induction false} ClassSplits(cmp: (Link, Link) -> int, z: Link, s: seq<Link>, t: seq<Link>)
    ensures Class(cmp, z, s + t) == Class(cmp, z, s) + Class(cmp, z, t)
  {
    if s == [] {
      assert s + t == t;
    } else {
      assert (s + t)[1..] == s[1..] + t;
      ClassSplits(cmp, z, s[1..], t);
    }
  }

  lemma {:induction false} InsertBackStable(cmp: (Link, Link) -> int, sorted: seq<Link>, x: Link, z: Link)
    requires TotalPreorder(cmp, sorted + [x, z])
    ensures Class(cmp, z, InsertBack(cmp, sorted, x)) == Class(cmp, z, sorted + [x])
    decreases |sorted|
  {
    hide TotalPreorder;
    if sorted == [] || cmp(sorted[|sorted| - 1], x) <= 0 {
      return;
    }
    var n, all := |sorted| - 1, sorted + [x, z];
    var y := sorted[n];
    assert y in all && x in all && z in all;
    Compares(cmp, all, y, z, x);
    Fewer(cmp, all, sorted[..n] + [x, z]);
    InsertBackStable(cmp, sorted[..n], x, z);
    ClassSwaps(cmp, z, sorted[..n], InsertBack(cmp, sorted[..n], x), x, y);
    assert sorted == sorted[..n] + [y];
  }

  // A member passes one that is not equal to it.
  lemma ClassSwaps(cmp: (Link, Link) -> int, z: Link, s: seq<Link>, t: seq<Link>, x: Link, y: Link)
    requires Class(cmp, z, t) == Class(cmp, z, s + [x]) && !(Equal(cmp, x, z) && Equal(cmp, y, z))
    ensures Class(cmp, z, t + [y]) == Class(cmp, z, s + [y] + [x])
  {
    ClassSplits(cmp, z, t, [y]);
    ClassSplits(cmp, z, s, [x]);
    ClassSplits(cmp, z, s, [y]);
    ClassSplits(cmp, z, s + [y], [x]);
  }

  // The result holds the same members, in order, equal ones as they were.
  lemma {:induction false} SortedIsStable(cmp: (Link, Link) -> int, s: seq<Link>)
    ensures multiset(Sorted(cmp, s)) == multiset(s) && |Sorted(cmp, s)| == |s|
    ensures TotalPreorder(cmp, s) ==> Ordered(cmp, Sorted(cmp, s)) && forall z :: z in s ==> Class(cmp, z, Sorted(cmp, s)) == Class(cmp, z, s)
  {
    SortedKeeps(cmp, s);
    if TotalPreorder(cmp, s) {
      SortedOrders(cmp, s);
      forall z | z in s ensures Class(cmp, z, Sorted(cmp, s)) == Class(cmp, z, s) {
        SortedClass(cmp, s, s, z);
      }
    }
  }

  lemma {:induction false} SortedKeeps(cmp: (Link, Link) -> int, s: seq<Link>)
    ensures multiset(Sorted(cmp, s)) == multiset(s) && |Sorted(cmp, s)| == |s|
    ensures forall x :: x in Sorted(cmp, s) ==> x in s
  {
    if s != [] {
      var n := |s| - 1;
      assert s == s[..n] + [s[n]];
      SortedKeeps(cmp, s[..n]);
      InsertBackKeeps(cmp, Sorted(cmp, s[..n]), s[n]);
      forall x | x in Sorted(cmp, s) ensures x in s { assert x in multiset(Sorted(cmp, s)); }
    }
  }

  lemma {:induction false} SortedOrders(cmp: (Link, Link) -> int, s: seq<Link>)
    requires TotalPreorder(cmp, s)
    ensures Ordered(cmp, Sorted(cmp, s))
  {
    hide TotalPreorder;
    if s != [] {
      var n := |s| - 1;
      SortedKeeps(cmp, s[..n]);
      Fewer(cmp, s, s[..n]);
      Fewer(cmp, s, Sorted(cmp, s[..n]) + [s[n]]);
      SortedOrders(cmp, s[..n]);
      InsertBackOrders(cmp, Sorted(cmp, s[..n]), s[n]);
    }
  }

  lemma {:induction false} SortedClass(cmp: (Link, Link) -> int, s: seq<Link>, among: seq<Link>, z: Link)
    requires TotalPreorder(cmp, among) && z in among && forall x :: x in s ==> x in among
    ensures Class(cmp, z, Sorted(cmp, s)) == Class(cmp, z, s)
  {
    hide TotalPreorder;
    if s != [] {
      var n := |s| - 1;
      var r := Sorted(cmp, s[..n]);
      assert s == s[..n] + [s[n]];
      SortedClass(cmp, s[..n], among, z);
      SortedKeeps(cmp, s[..n]);
      Fewer(cmp, among, r + [s[n], z]);
      InsertBackStable(cmp, r, s[n], z);
      ClassSplits(cmp, z, r, [s[n]]);
      ClassSplits(cmp, z, s[..n], [s[n]]);
    }
  }

  lemma {:induction false} ClassHolds(cmp: (Link, Link) -> int, z: Link, s: seq<Link>, x: Link)
    ensures x in Class(cmp, z, s) <==> x in s && Equal(cmp, x, z)
  {
    if s != [] {
      ClassHolds(cmp, z, s[1..], x);
    }
  }

  // An ordered list is known by its classes, so no other result is both ordered
  // and stable.
  lemma {:induction false} StableIsUnique(cmp: (Link, Link) -> int, s: seq<Link>, t: seq<Link>)
    requires TotalPreorder(cmp, s) && TotalPreorder(cmp, t) && Ordered(cmp, s) && Ordered(cmp, t)
    requires forall z :: z in s || z in t ==> Class(cmp, z, s) == Class(cmp, z, t)
    ensures s == t
    decreases |s|
  {
    hide TotalPreorder;
    if s == [] || t == [] {
      if s != [] { ClassHolds(cmp, s[0], s, s[0]); EqualToItself(cmp, s, s[0]); }
      if t != [] { ClassHolds(cmp, t[0], t, t[0]); EqualToItself(cmp, t, t[0]); }
      return;
    }
    SameHead(cmp, s, t);
    Fewer(cmp, s, s[1..]);
    Fewer(cmp, t, t[1..]);
    forall z | z in s[1..] || z in t[1..] ensures Class(cmp, z, s[1..]) == Class(cmp, z, t[1..]) {
      assert z in s || z in t;
      TailsAgree(cmp, z, s, t);
    }
    StableIsUnique(cmp, s[1..], t[1..]);
  }

  lemma TailsAgree(cmp: (Link, Link) -> int, z: Link, s: seq<Link>, t: seq<Link>)
    requires s != [] && t != [] && s[0] == t[0] && Class(cmp, z, s) == Class(cmp, z, t)
    ensures Class(cmp, z, s[1..]) == Class(cmp, z, t[1..])
  {
    if Equal(cmp, s[0], z) {
      assert Class(cmp, z, s)[1..] == Class(cmp, z, s[1..]);
      assert Class(cmp, z, t)[1..] == Class(cmp, z, t[1..]);
    }
  }

  lemma EqualToItself(cmp: (Link, Link) -> int, s: seq<Link>, x: Link)
    requires TotalPreorder(cmp, s) && x in s
    ensures Equal(cmp, x, x)
  {
  }

  lemma SameHead(cmp: (Link, Link) -> int, s: seq<Link>, t: seq<Link>)
    requires TotalPreorder(cmp, s) && TotalPreorder(cmp, t) && Ordered(cmp, s) && Ordered(cmp, t) && s != [] && t != []
    requires forall z :: z in s || z in t ==> Class(cmp, z, s) == Class(cmp, z, t)
    ensures s[0] == t[0]
  {
    hide TotalPreorder;
    var x, y := s[0], t[0];
    EqualToItself(cmp, s, x);
    EqualToItself(cmp, t, y);
    ClassHolds(cmp, x, s, x);
    ClassHolds(cmp, x, t, x);
    ClassHolds(cmp, y, t, y);
    ClassHolds(cmp, y, s, y);
    assert x in t && y in s;
    assert Equal(cmp, y, x);
    assert Class(cmp, x, s)[0] == x && Class(cmp, x, t)[0] == y;
  }

  // ngx_queue_sort
  method Sort(h: Link, cmp: (Link, Link) -> int, ghost s: seq<Link>)
    requires Ring(h, s)
    modifies h, s
    ensures Ring(h, Sorted(cmp, s))
  {
    hide InsertBack, Sorted;
    assert LinkedAt(h, s, 0) && LinkedAt(h, s, |s|);
    var q := h.next;
    SortedShort(cmp, s);
    if q == h.prev {
      assert |s| <= 1;
      return;
    }
    assert LinkedAt(h, s, 1);
    q := q.next;
    ghost var n := 1;
    ghost var done := s[..1];
    assert Spot(h, s, 2) == q;
    SortedShort(cmp, s[..1]);
    assert s[..1] + s[1..] == s;
    while q != h
      invariant 1 <= n <= |s| && done == Sorted(cmp, s[..n]) && Ring(h, done + s[n..]) && |done| == n
      invariant q == Spot(h, s, n + 1) && multiset(done) == multiset(s[..n])
      decreases |s| - n
    {
      Inside(cmp, s, n);
      q := Place(h, q, cmp, done, s[n..], s);
      SortedNext(cmp, s, n);
      done := Sorted(cmp, s[..n + 1]);
      n := n + 1;
    }
    SpotsApart(h, s);
    assert Spot(h, s, |s| + 1) == h;
    assert s[..n] == s && done + s[n..] == done;
  }

  lemma SortedShort(cmp: (Link, Link) -> int, s: seq<Link>)
    ensures |s| <= 1 ==> Sorted(cmp, s) == s
  {
  }

  lemma SortedNext(cmp: (Link, Link) -> int, s: seq<Link>, n: nat)
    requires n < |s|
    ensures Sorted(cmp, s[..n + 1]) == InsertBack(cmp, Sorted(cmp, s[..n]), s[n]) && s[n..][1..] == s[n + 1..]
    ensures multiset(Sorted(cmp, s[..n + 1])) == multiset(s[..n + 1]) && |Sorted(cmp, s[..n + 1])| == n + 1
  {
    assert s[..n + 1][..n] == s[..n];
    SortedKeeps(cmp, s[..n + 1]);
  }

  lemma Inside(cmp: (Link, Link) -> int, s: seq<Link>, n: nat)
    requires n <= |s|
    ensures var all := Sorted(cmp, s[..n]) + s[n..]; forall i :: 0 <= i < |all| ==> all[i] in s
  {
    SortedKeeps(cmp, s[..n]);
    var done := Sorted(cmp, s[..n]);
    forall i | 0 <= i < n ensures done[i] in s { assert done[i] in s[..n]; }
  }

  lemma InsertedAhead(s: seq<Link>, t: seq<Link>, k: nat, x: Link)
    requires k <= |s|
    ensures Inserted(s + t, k, x) == Inserted(s, k, x) + t
  {
    assert (s + t)[..k] == s[..k] && (s + t)[k..] == s[k..] + t;
  }

  lemma NoDupAt(h: Link, s: seq<Link>, k: nat)
    requires NoDup(h, s) && k < |s|
    ensures s[k] != h && s[k] !in Removed(s, k) && forall i :: 0 <= i < |s| ==> s[i] != h
  {
  }

  // One member finds its place among those sorted before it.
  method Place(h: Link, q: Link, cmp: (Link, Link) -> int, ghost done: seq<Link>, ghost rest: seq<Link>, ghost s: seq<Link>) returns (next: Link)
    requires done != [] && rest != [] && rest[0] == q && Ring(h, done + rest)
    requires forall i :: 0 <= i < |done + rest| ==> (done + rest)[i] in s
    modifies h, s
    ensures Ring(h, InsertBack(cmp, done, q) + rest[1..]) && next == Spot(h, rest, 2)
  {
    hide Inserted, InsertBack, NoDup;
    ghost var all := done + rest;
    NoDupAt(h, all, |done|);
    assert LinkedAt(h, all, |done|) && LinkedAt(h, all, |done| + 1);
    var prev := q.prev;
    next := q.next;
    Remove(q, h, all, |done|);
    ghost var left := done + rest[1..];
    assert Removed(all, |done|) == left;
    ghost var k := |done|;
    NoDupAt(h, left, 0);
    assert Spot(h, left, k) == prev;
    while true
      invariant 1 <= k <= |done| && prev == Spot(h, left, k) && Ring(h, left)
      invariant forall i :: k <= i < |done| ==> cmp(done[i], q) > 0
      decreases k
    {
      if cmp(prev, q) <= 0 {
        break;
      }
      assert LinkedAt(h, left, k - 1);
      prev := prev.prev;
      k := k - 1;
      if prev == h {
        break;
      }
    }
    InsertBackIs(cmp, done, q, k);
    InsertedAhead(done, rest[1..], k, q);
    InsertAfter(prev, q, h, left, k);
  }
}
