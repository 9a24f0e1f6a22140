// The page records of a slab pool as values: the doubly linked lists that run
// through them, and the runs of free and allocated pages they describe.
module SlabPages {

  // Which record a pointer names: Head(0) is the free list, Head(1 + i) slot i.
  datatype Link = Null | Head(h: nat) | Page(n: nat)

  // The two low bits of `prev`.
  datatype Tag = PageTag | Big | Exact | Small

  datatype Tagged = Tagged(ptr: Link, tag: Tag)

  // The word `slab` in the reading its page's tag gives it.
  datatype Slab =
    | Count(n: nat)                          // pages of a free run; 0 inside one
    | Start(n: nat)                          // pages of an allocated run
    | Busy                                   // inside an allocated run
    | SmallShift(shift: nat)                 // the chunk map is in the page
    | ExactMap(bits: seq<bool>)
    | BigMap(shift: nat, bits: seq<bool>)

  datatype Record = Record(slab: Slab, next: Link, prev: Tagged)

  type Memory = map<Link, Record>

  function WithNext(m: Memory, l: Link, next: Link): Memory
    requires l in m
  {
    m[l := m[l].(next := next)]
  }

  function WithPrev(m: Memory, l: Link, prev: Tagged): Memory
    requires l in m
  {
    m[l := m[l].(prev := prev)]
  }

  // ----- lists

  // A head and the pages of its list, as a ring; the head's prev is not used.
  ghost predicate ListAt(m: Memory, c: seq<Link>, tag: Tag) {
    && |c| > 0 && c[0].Head?
    && (forall i :: 0 <= i < |c| ==> c[i] in m)
    && (forall i :: 0 < i < |c| ==> c[i].Page?)
    && (forall i, j :: 0 <= i < j < |c| ==> c[i] != c[j])
    && (forall i :: 0 <= i < |c| - 1 ==> m[c[i]].next == c[i + 1])
    && m[c[|c| - 1]].next == c[0]
    && (forall i :: 0 < i < |c| ==> m[c[i]].prev == Tagged(c[i - 1], tag))
  }

  // Another memory has the same list if it agrees on its links.
  lemma ListFrame(m: Memory, m': Memory, c: seq<Link>, tag: Tag)
    requires ListAt(m, c, tag)
    requires forall i :: 0 <= i < |c| ==> c[i] in m' && m'[c[i]].next == m[c[i]].next
    requires forall i :: 0 < i < |c| ==> m'[c[i]].prev == m[c[i]].prev
    ensures ListAt(m', c, tag)
  {
  }

  // Only links of records in the list change; none becomes or stops being null,
  // and no page changes its tag.
  ghost predicate LinksOnly(m: Memory, m': Memory, c: seq<Link>) {
    && m'.Keys == m.Keys
    && (forall l :: l in m && l !in c ==> m'[l] == m[l])
    && (forall l :: l in m ==> m'[l].slab == m[l].slab && (m'[l].next == Null <==> m[l].next == Null))
    && (forall l :: l in m && l.Page? ==> m'[l].prev.tag == m[l].prev.tag)
  }

  // The neighbours of a page in a list are linked to each other.
  function Unlinked(m: Memory, l: Link): Memory
    requires l in m && m[l].prev.ptr in m && m[l].next in m
  {
    WithPrev(WithNext(m, m[l].prev.ptr, m[l].next), m[l].next, m[l].prev)
  }

  function Without(c: seq<Link>, i: nat): seq<Link>
    requires i < |c|
  {
    c[..i] + c[i + 1..]
  }

  function After(c: seq<Link>, i: nat): Link
    requires i < |c|
  {
    if i + 1 < |c| then c[i + 1] else c[0]
  }

  lemma RingAt(m: Memory, c: seq<Link>, tag: Tag, i: nat)
    requires ListAt(m, c, tag) && i < |c|
    ensures c[i] in m && m[c[i]].next == After(c, i) && m[c[i]].next != Null
    ensures c[i].Page? ==> m[c[i]].prev.tag == tag
  {
    assert i + 1 < |c| ==> c[i + 1].Page?;
    assert i > 0 ==> m[c[i]].prev == Tagged(c[i - 1], tag);
  }

  lemma UnlinkFields(m: Memory, c: seq<Link>, tag: Tag, i: nat)
    requires ListAt(m, c, tag) && 0 < i < |c|
    ensures m[c[i]].prev == Tagged(c[i - 1], tag) && m[c[i]].next == After(c, i) && After(c, i) in m
    ensures c[i - 1] in m && c[i - 1] != c[i] && After(c, i) != c[i]
    ensures var m', p, q := Unlinked(m, c[i]), c[i - 1], After(c, i);
      && m'.Keys == m.Keys && m'[p].next == q && m'[q].prev == Tagged(p, tag)
      && m'[p].slab == m[p].slab && m'[q].slab == m[q].slab
      && (p != q ==> m'[p].prev == m[p].prev && m'[q].next == m[q].next)
      && forall l :: l in m && l != p && l != q ==> m'[l] == m[l]
  {
    assert m[c[i]].prev == Tagged(c[i - 1], tag) && m[c[i]].next == After(c, i);
  }

  lemma UnlinkList(m: Memory, c: seq<Link>, tag: Tag, i: nat)
    requires ListAt(m, c, tag) && 0 < i < |c|
    ensures m[c[i]].prev == Tagged(c[i - 1], tag) && m[c[i]].next == After(c, i) && After(c, i) in m
    ensures var m' := Unlinked(m, c[i]);
      ListAt(m', Without(c, i), tag) && LinksOnly(m, m', c) && m'[c[i]] == m[c[i]]
  {
    hide Unlinked, WithNext, WithPrev, LinksOnly;
    UnlinkFields(m, c, tag, i);
    var m', d := Unlinked(m, c[i]), Without(c, i);
    forall j | 0 <= j < |d| ensures d[j] == c[if j < i then j else j + 1] {}
    forall j | 0 <= j < |d| - 1 ensures m'[d[j]].next == d[j + 1] {}
    forall j | 0 < j < |d| ensures m'[d[j]].prev == Tagged(d[j - 1], tag) {}
    assert m'[d[|d| - 1]].next == d[0];
    UnlinkLinksOnly(m, m', c, tag, i);
  }

  lemma UnlinkLinksOnly(m: Memory, m': Memory, c: seq<Link>, tag: Tag, i: nat)
    requires ListAt(m, c, tag) && 0 < i < |c| && m'.Keys == m.Keys
    requires var p, q := c[i - 1], After(c, i);
      && m[c[i]].next == q && q in m
      && m'[p].next == q && m'[q].prev == Tagged(p, tag) && m'[p].slab == m[p].slab && m'[q].slab == m[q].slab
      && (p != q ==> m'[p].prev == m[p].prev && m'[q].next == m[q].next)
      && forall l :: l in m && l != p && l != q ==> m'[l] == m[l]
    ensures LinksOnly(m, m', c)
  {
    var p, q := c[i - 1], After(c, i);
    assert p in c && q in c;
    RingAt(m, c, tag, i - 1);
    RingAt(m, c, tag, if i + 1 < |c| then i + 1 else 0);
  }

  // A page comes between the head of a list and its first page.
  function Pushed(m: Memory, head: Link, l: Link, tag: Tag): Memory
    requires l in m && head in m && m[head].next in m
  {
    var m1 := WithNext(WithPrev(m, l, Tagged(head, tag)), l, m[head].next);
    WithNext(WithPrev(m1, m[head].next, Tagged(l, tag)), head, l)
  }

  lemma PushList(m: Memory, c: seq<Link>, tag: Tag, l: Link)
    requires ListAt(m, c, tag) && l in m && l.Page? && l !in c
    ensures m[c[0]].next == After(c, 0) && After(c, 0) in m
    ensures var m' := Pushed(m, c[0], l, tag);
      && ListAt(m', [c[0], l] + c[1..], tag)
      && LinksOnly(m[l := m'[l]], m', c) && m'[l] == m[l].(next := After(c, 0), prev := Tagged(c[0], tag))
  {
    assert m[c[0]].next == After(c, 0);
    var q := After(c, 0);
    var m', d := Pushed(m, c[0], l, tag), [c[0], l] + c[1..];
    assert m'[l] == m[l].(next := q, prev := Tagged(c[0], tag)) && m'[c[0]].next == l && m'[q].prev == Tagged(l, tag);
    assert q != c[0] ==> m'[q].next == m[q].next;
    assert forall k :: k in m && k != l && k != q && k != c[0] ==> m'[k] == m[k];
    forall j | 2 <= j < |d| ensures d[j] == c[j - 1] {}
    forall j | 0 <= j < |d| - 1 ensures m'[d[j]].next == d[j + 1] {}
    forall j | 0 < j < |d| ensures m'[d[j]].prev == Tagged(d[j - 1], tag) {}
    assert m'[d[|d| - 1]].next == d[0];
  }

  // The record `l` takes the place of c[i]: it gets its links, and the
  // neighbours point at it.
  function Replaced(m: Memory, was: Link, l: Link): Memory
    requires l in m && was in m && m[was].prev.ptr in m && m[was].next in m
  {
    var m1 := WithPrev(WithNext(m, l, m[was].next), l, m[was].prev);
    WithPrev(WithNext(m1, m[was].prev.ptr, l), m[was].next, Tagged(l, m[was].prev.tag))
  }

  lemma ReplaceFields(m: Memory, c: seq<Link>, tag: Tag, i: nat, l: Link)
    requires ListAt(m, c, tag) && 0 < i < |c| && l in m && l.Page? && l !in c
    ensures m[c[i]].prev == Tagged(c[i - 1], tag) && m[c[i]].next == After(c, i) && After(c, i) in m
    ensures c[i - 1] in m && c[i - 1] != c[i] && After(c, i) != c[i]
    ensures var m', p, q := Replaced(m, c[i], l), c[i - 1], After(c, i);
      && m'.Keys == m.Keys && m'[l] == m[l].(next := q, prev := Tagged(p, tag))
      && m'[p].next == l && m'[q].prev == Tagged(l, tag) && m'[p].slab == m[p].slab && m'[q].slab == m[q].slab
      && (p != q ==> m'[p].prev == m[p].prev && m'[q].next == m[q].next)
      && forall k :: k in m && k != l && k != p && k != q ==> m'[k] == m[k]
  {
    assert m[c[i]].prev == Tagged(c[i - 1], tag) && m[c[i]].next == After(c, i);
  }

  lemma ReplaceList(m: Memory, c: seq<Link>, tag: Tag, i: nat, l: Link)
    requires ListAt(m, c, tag) && 0 < i < |c| && l in m && l.Page? && l !in c
    ensures m[c[i]].prev == Tagged(c[i - 1], tag) && m[c[i]].next == After(c, i) && After(c, i) in m
    ensures var m' := Replaced(m, c[i], l);
      && ListAt(m', c[i := l], tag)
      && LinksOnly(m[l := m'[l]], m', c) && m'[l] == m[l].(next := m[c[i]].next, prev := m[c[i]].prev)
      && m'[c[i]] == m[c[i]]
  {
    hide Replaced, WithNext, WithPrev, LinksOnly;
    ReplaceFields(m, c, tag, i, l);
    var m', d := Replaced(m, c[i], l), c[i := l];
    forall j | 0 <= j < |d| - 1 ensures m'[d[j]].next == d[j + 1] {}
    forall j | 0 < j < |d| ensures m'[d[j]].prev == Tagged(d[j - 1], tag) {}
    assert m'[d[|d| - 1]].next == d[0];
    ReplaceLinksOnly(m, m', c, tag, i, l);
  }

  lemma ReplaceLinksOnly(m: Memory, m': Memory, c: seq<Link>, tag: Tag, i: nat, l: Link)
    requires ListAt(m, c, tag) && 0 < i < |c| && m'.Keys == m.Keys && l in m && l.Page? && l !in c
    requires var p, q := c[i - 1], After(c, i);
      && m[c[i]].next == q && q in m
      && m'[p].next == l && m'[q].prev == Tagged(l, tag) && m'[p].slab == m[p].slab && m'[q].slab == m[q].slab
      && (p != q ==> m'[p].prev == m[p].prev && m'[q].next == m[q].next)
      && forall k :: k in m && k != l && k != p && k != q ==> m'[k] == m[k]
    ensures LinksOnly(m[l := m'[l]], m', c)
  {
    var p, q := c[i - 1], After(c, i);
    assert p in c && q in c;
    RingAt(m, c, tag, i - 1);
    RingAt(m, c, tag, if i + 1 < |c| then i + 1 else 0);
  }
}
