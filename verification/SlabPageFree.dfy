// Giving a run of pages back: it is cleared, joined with its free neighbours
// and put at the front of the free list.
module SlabPageFree {
  import opened SlabPages
  import opened SlabRuns
  import opened SlabPageOps

  // The run at s cleared: its length in the first record, zeros in the others.
  ghost predicate Cleared(m: Memory, m': Memory, s: nat, k: nat) {
    k > 0 && Page(s) in m && Stamped(m[Page(s) := m[Page(s)].(slab := Count(k))], m', s + 1, s + k, Zero)
  }

  lemma ClearedGood(m: Memory, m': Memory, n: nat, runs: Runs, c: seq<Link>, s: nat)
    requires Good(m, n, runs, c) && s in runs && runs[s].kind != FreeRun && Cleared(m, m', s, runs[s].len)
    ensures Good(m', n, Rekind(runs, s, Loose), c)
    ensures m'.Keys == m.Keys && (forall l :: l in m && !(l.Page? && s <= l.n < End(runs, s)) ==> m'[l] == m[l])
    ensures m'[Page(s)] == m[Page(s)].(slab := Count(runs[s].len))
  {
    hide Layout, Coalesced, ListAt;
    var r := Rekind(runs, s, Loose);
    RekindLayout(runs, n, s, Loose);
    RekindCoalesced(runs, s);
    ClearedList(m, m', runs, n, c, s);
    forall t | t in r ensures RunAt(m', t, r[t]) {
      ClearedRun(m, m', runs, n, s, t);
    }
  }

  lemma RekindCoalesced(runs: Runs, s: nat)
    requires Coalesced(runs) && s in runs
    ensures Coalesced(Rekind(runs, s, Loose))
  {
    var r := Rekind(runs, s, Loose);
    forall t | t in r && r[t].kind == FreeRun && End(r, t) in r ensures r[End(r, t)].kind != FreeRun {
      assert End(r, t) == End(runs, t);
    }
  }

  lemma ClearedRun(m: Memory, m': Memory, runs: Runs, n: nat, s: nat, t: nat)
    requires Layout(runs, n) && s in runs && t in runs && Cleared(m, m', s, runs[s].len) && RunAt(m, t, runs[t])
    ensures RunAt(m', t, Rekind(runs, s, Loose)[t])
  {
    if t == s {
      forall i | s <= i < End(runs, s) ensures Page(i) in m' {}
    } else {
      assert t + runs[t].len <= s || End(runs, s) <= t;
      forall i | t <= i < t + runs[t].len ensures Soft(m, m', Page(i)) {}
      SoftRun(m, m', t, runs[t]);
    }
  }

  lemma ClearedList(m: Memory, m': Memory, runs: Runs, n: nat, c: seq<Link>, s: nat)
    requires Layout(runs, n) && ListAt(m, c, PageTag) && FreeListed(runs, c) && s in runs && runs[s].kind != FreeRun
    requires Cleared(m, m', s, runs[s].len)
    ensures ListAt(m', c, PageTag) && FreeListed(Rekind(runs, s, Loose), c)
  {
    forall x | 0 <= x < |c| ensures c[x] in m' && m'[c[x]] == m[c[x]] {
      if x > 0 && s < c[x].n {
        assert c[x].n in runs;
      }
    }
    ListFrame(m, m', c, PageTag);
  }

  // ----- joining

  // The runs at a and b, one loose and the other, at f, free, become one.
  ghost predicate Joins(m: Memory, m': Memory, a: nat, b: nat, f: nat, len: nat) {
    && Page(a) in m && Page(b) in m && Page(f) in m && a != b && (f == a || f == b)
    && m[Page(f)].prev.ptr in m && m[Page(f)].next in m
    && m' == Unlinked(m[Page(a) := m[Page(a)].(slab := Count(len))], Page(f))[Page(b) := Zero]
  }

  lemma JoinLists(m: Memory, m': Memory, runs: Runs, n: nat, c: seq<Link>, i: nat, a: nat, b: nat, f: nat)
    requires Layout(runs, n) && ListAt(m, c, PageTag) && FreeListed(runs, c) && 0 < i < |c| && c[i] == Page(f)
    requires a in runs && b in runs && b == End(runs, a) && Joins(m, m', a, b, f, runs[a].len + runs[b].len)
    requires runs[f].kind == FreeRun && runs[if f == a then b else a].kind == Loose
    ensures ListAt(m', Without(c, i), PageTag) && FreeListed(Merged(runs, a, b), Without(c, i))
    ensures m'.Keys == m.Keys
    ensures m'[Page(a)].slab == Count(runs[a].len + runs[b].len) && m'[Page(b)] == Zero
    ensures forall p: nat :: Page(p) in m && p != a && p != b ==> Soft(m, m', Page(p))
    ensures forall l :: l in m && l !in c && l != Page(a) && l != Page(b) ==> m'[l] == m[l]
  {
    var other := if f == a then b else a;
    var m1 := m[Page(a) := m[Page(a)].(slab := Count(runs[a].len + runs[b].len))];
    NotListed(runs, c, other);
    JoinUnlink(m, m1, c, i, a);
    var m2 := Unlinked(m1, Page(f));
    JoinZero(m, m1, m2, m', c, i, a, b, f);
    JoinListed(runs, n, c, i, a, b, f);
  }

  lemma NotListed(runs: Runs, c: seq<Link>, s: nat)
    requires FreeListed(runs, c) && s in runs && runs[s].kind != FreeRun
    ensures Page(s) !in c
  {
    forall x | 0 <= x < |c| ensures c[x] != Page(s) {
      assert x == 0 || runs[c[x].n].kind == FreeRun;
    }
  }

  lemma JoinUnlink(m: Memory, m1: Memory, c: seq<Link>, i: nat, a: nat)
    requires ListAt(m, c, PageTag) && 0 < i < |c| && Page(a) in m && m1.Keys == m.Keys
    requires exists slab :: m1 == m[Page(a) := m[Page(a)].(slab := slab)]
    ensures ListAt(m1, c, PageTag) && m1[c[i]].prev.ptr in m1 && m1[c[i]].next in m1
    ensures ListAt(Unlinked(m1, c[i]), Without(c, i), PageTag) && LinksOnly(m1, Unlinked(m1, c[i]), c)
    ensures Unlinked(m1, c[i])[c[i]] == m1[c[i]]
  {
    ListFrame(m, m1, c, PageTag);
    UnlinkList(m1, c, PageTag, i);
  }

  lemma JoinZero(m: Memory, m1: Memory, m2: Memory, m': Memory, c: seq<Link>, i: nat, a: nat, b: nat, f: nat)
    requires ListAt(m1, c, PageTag) && 0 < i < |c| && c[i] == Page(f) && (f == a || f == b) && a != b
    requires Page(a) in m && Page(b) in m && m1.Keys == m.Keys && (forall l :: l in m && l != Page(a) ==> m1[l] == m[l])
    requires ListAt(m2, Without(c, i), PageTag) && LinksOnly(m1, m2, c) && m2[c[i]] == m1[c[i]]
    requires Page(if f == a then b else a) !in c && m' == m2[Page(b) := Zero]
    ensures ListAt(m', Without(c, i), PageTag) && m'.Keys == m.Keys
    ensures m'[Page(a)].slab == m1[Page(a)].slab && m'[Page(b)] == Zero
    ensures forall p: nat :: Page(p) in m && p != a && p != b ==> Soft(m, m', Page(p))
    ensures forall l :: l in m && l !in c && l != Page(a) && l != Page(b) ==> m'[l] == m[l]
  {
    var d := Without(c, i);
    forall x | 0 <= x < |d| ensures d[x] in m' && m'[d[x]] == m2[d[x]] {
      var y := if x < i then x else x + 1;
      assert d[x] == c[y] && c[y] in c && c[y] != c[i];
    }
    ListFrame(m2, m', d, PageTag);
    forall p: nat | Page(p) in m && p != a && p != b ensures Soft(m, m', Page(p)) {
      LinksAreSoft(m1, m2, c, PageTag, p);
    }
  }

  lemma JoinListed(runs: Runs, n: nat, c: seq<Link>, i: nat, a: nat, b: nat, f: nat)
    requires Layout(runs, n) && FreeListed(runs, c) && 0 < i < |c| && c[i] == Page(f) && (f == a || f == b)
    requires forall x, y :: 0 <= x < y < |c| ==> c[x] != c[y]
    requires a in runs && b in runs && a != b && runs[f].kind == FreeRun && runs[if f == a then b else a].kind == Loose
    ensures FreeListed(Merged(runs, a, b), Without(c, i))
  {
    var r, d := Merged(runs, a, b), Without(c, i);
    forall t | t in r && r[t].kind == FreeRun ensures Page(t) in d {
      assert t != a && t != b && Page(t) in c;
      var x :| 0 <= x < |c| && c[x] == Page(t);
      assert d[if x < i then x else x - 1] == Page(t);
    }
    forall x | 0 < x < |d| ensures d[x].Page? && d[x].n in r && r[d[x].n].kind == FreeRun {
      var y := if x < i then x else x + 1;
      assert d[x] == c[y] && c[y] != c[i];
    }
  }

  lemma JoinedRun(m: Memory, m': Memory, runs: Runs, n: nat, a: nat, b: nat, t: nat)
    requires Layout(runs, n) && a in runs && b in runs && b == End(runs, a)
    requires runs[a].kind == FreeRun || runs[a].kind == Loose
    requires runs[b].kind == FreeRun || runs[b].kind == Loose
    requires RunAt(m, a, runs[a]) && RunAt(m, b, runs[b]) && (t in runs ==> RunAt(m, t, runs[t])) && t in Merged(runs, a, b)
    requires m'.Keys == m.Keys && m'[Page(a)].slab == Count(runs[a].len + runs[b].len) && m'[Page(b)] == Zero
    requires forall p: nat :: Page(p) in m && p != a && p != b ==> Soft(m, m', Page(p))
    ensures RunAt(m', t, Merged(runs, a, b)[t])
  {
    if t == a {
      forall i | a < i < b + runs[b].len
        ensures Page(i) in m' && m'[Page(i)].slab == Count(0) && m'[Page(i)].next == Null && m'[Page(i)].prev.tag == PageTag
      {
        if i != b {
          assert Page(i) in m && Soft(m, m', Page(i));
        }
      }
    } else {
      assert t + runs[t].len <= a || b + runs[b].len <= t;
      SoftRun(m, m', t, runs[t]);
    }
  }

  lemma JoinGood(m: Memory, m': Memory, n: nat, runs: Runs, c: seq<Link>, i: nat, a: nat, b: nat, f: nat)
    requires Good(m, n, runs, c) && 0 < i < |c| && c[i] == Page(f)
    requires a in runs && b in runs && b == End(runs, a) && Joins(m, m', a, b, f, runs[a].len + runs[b].len)
    requires (f == a || f == b) && runs[f].kind == FreeRun && runs[if f == a then b else a].kind == Loose
    ensures Good(m', n, Merged(runs, a, b), Without(c, i))
    ensures ForeignKept(m, m', runs)
  {
    hide Layout, Coalesced, ListAt, RunAt;
    MergedLayout(runs, n, a, b);
    MergedCoalesced(runs, n, a, b);
    JoinLists(m, m', runs, n, c, i, a, b, f);
    forall t | t in Merged(runs, a, b) ensures RunAt(m', t, Merged(runs, a, b)[t]) {
      JoinedRun(m, m', runs, n, a, b, t);
    }
    forall l | l in m && Foreign(runs, l) ensures l in m' && m'[l] == m[l] {
      ForeignUnlisted(runs, c, l);
    }
  }

  // ----- what joining leaves

  // Only the run at s is on its way to the free list.
  ghost predicate OnlyLoose(runs: Runs, s: nat) {
    s in runs && runs[s].kind == Loose && forall t :: t in runs && t != s ==> runs[t].kind != Loose
  }

  // Every run but free ones and those in `but` is the same.
  ghost predicate SameTaken(runs: Runs, runs': Runs, but: set<nat>) {
    && (forall t :: t in runs && t !in but && runs[t].kind != FreeRun ==> t in runs' && runs'[t] == runs[t])
    && (forall t :: t in runs' && runs'[t].kind != FreeRun && runs'[t].kind != Loose ==> t in runs && runs[t] == runs'[t])
  }

  // The page after the run is not the first of a free run.
  ghost predicate ClearAfter(runs: Runs, s: nat) {
    s in runs && (End(runs, s) in runs ==> runs[End(runs, s)].kind != FreeRun)
  }

  // No free run ends where the run starts.
  ghost predicate ClearBefore(runs: Runs, s: nat) {
    forall t {:trigger End(runs, t)} :: t in runs && End(runs, t) == s ==> runs[t].kind != FreeRun
  }

  lemma MergedClears(runs: Runs, n: nat, a: nat, b: nat)
    requires Layout(runs, n) && Coalesced(runs) && a in runs && b in runs && b == End(runs, a)
    ensures runs[b].kind == FreeRun || ClearAfter(runs, b) ==> ClearAfter(Merged(runs, a, b), a)
    ensures runs[a].kind == FreeRun ==> ClearBefore(Merged(runs, a, b), a)
  {
    var r := Merged(runs, a, b);
    assert End(r, a) == End(runs, b);
    assert forall t :: t in r && t != a ==> End(r, t) == End(runs, t);
  }

  lemma MergedTaken(runs: Runs, a: nat, b: nat)
    requires a in runs && b in runs && a != b
    requires runs[a].kind == FreeRun || runs[a].kind == Loose
    requires runs[b].kind == FreeRun || runs[b].kind == Loose
    ensures SameTaken(runs, Merged(runs, a, b), {a, b})
    ensures forall l :: Foreign(Merged(runs, a, b), l) <==> Foreign(runs, l)
  {
  }

  // What the page allocator reads off a record tells the free runs apart.
  lemma StartsFreeRun(m: Memory, n: nat, runs: Runs, p: nat)
    requires RunsAt(m, runs) && p in runs && Page(p) in m
    requires runs[p].kind != Loose
    ensures m[Page(p)].prev.tag == PageTag && m[Page(p)].next != Null <==> runs[p].kind == FreeRun
  {
    assert RunAt(m, p, runs[p]);
  }

  // So does the record before a run, following the link of a last page.
  lemma EndsFreeRun(m: Memory, n: nat, runs: Runs, s: nat, t: nat)
    requires RunsAt(m, runs) && OnlyLoose(runs, s) && t in runs && End(runs, t) == s && t != s
    ensures Page(s - 1) in m && Page(t) in m
    ensures m[Page(s - 1)].prev.tag == PageTag && m[Page(s - 1)].slab == Count(0) ==> m[Page(s - 1)].prev.ptr == Page(t) && runs[t].kind == FreeRun
    ensures runs[t].kind == FreeRun ==> m[Page(s - 1)].prev.tag == PageTag && (m[Page(s - 1)].slab == Count(0) <==> runs[t].len > 1)
    ensures m[Page(s - 1)].prev.tag == PageTag && m[Page(s - 1)].slab != Count(0) && m[Page(s - 1)].next != Null ==> t == s - 1 && runs[t].kind == FreeRun
    ensures runs[t].kind == FreeRun ==> m[Page(t)].next != Null && m[Page(t)].slab == Count(runs[t].len)
  {
    assert RunAt(m, t, runs[t]);
    if runs[t].len == 1 { assert t == s - 1; }
  }

  ghost predicate SameOpen(runs: Runs, runs': Runs) {
    forall p :: IsOpen(runs', p) <==> IsOpen(runs, p)
  }

  // A step of the way: the run at s is now the run at s'.
  ghost predicate Grown(m: Memory, m': Memory, runs: Runs, runs': Runs, s: nat, s': nat) {
    && OnlyLoose(runs', s') && SameOpen(runs, runs') && SameTaken(runs, runs', {s})
    && ForeignKept(m, m', runs) && (forall l :: Foreign(runs', l) <==> Foreign(runs, l))
  }

  lemma JoinStep(m: Memory, m': Memory, n: nat, runs: Runs, c: seq<Link>, s: nat, a: nat, b: nat, f: nat) returns (i: nat)
    requires Good(m, n, runs, c) && OnlyLoose(runs, s)
    requires a in runs && b in runs && b == End(runs, a) && f in runs && runs[f].kind == FreeRun && ((f == a && s == b) || (f == b && s == a))
    requires Joins(m, m', a, b, f, runs[a].len + runs[b].len)
    ensures 0 < i < |c| && Good(m', n, Merged(runs, a, b), Without(c, i))
    ensures Grown(m, m', runs, Merged(runs, a, b), s, a)
  {
    hide Layout, Coalesced, RunsAt, ListAt, Joins, ForeignKept, IsOpen, Merged;
    assert Page(f) in c;
    i :| 0 <= i < |c| && c[i] == Page(f);
    JoinGood(m, m', n, runs, c, i, a, b, f);
    MergedTaken(runs, a, b);
    MergedLoose(runs, n, s, a, b);
  }

  lemma MergedLoose(runs: Runs, n: nat, s: nat, a: nat, b: nat)
    requires Layout(runs, n) && OnlyLoose(runs, s) && (s == a || s == b)
    requires a in runs && b in runs && b == End(runs, a) && runs[if s == a then b else a].kind == FreeRun
    ensures OnlyLoose(Merged(runs, a, b), a) && SameOpen(runs, Merged(runs, a, b)) && SameTaken(runs, Merged(runs, a, b), {s})
  {
    forall p ensures IsOpen(Merged(runs, a, b), p) <==> IsOpen(runs, p) {
      MergedOpen(runs, n, a, b, p);
    }
  }

  // Where the records of a free run lead.
  lemma FreeRunLinks(m: Memory, n: nat, runs: Runs, c: seq<Link>, f: nat)
    requires Good(m, n, runs, c) && f in runs && runs[f].kind == FreeRun
    ensures Page(f) in m && m[Page(f)].prev.ptr in m && m[Page(f)].next in m && m[Page(f)].slab == Count(runs[f].len)
  {
    hide Layout, Coalesced;
    var i :| 0 <= i < |c| && c[i] == Page(f);
    UnlinkList(m, c, PageTag, i);
    assert RunAt(m, f, runs[f]);
  }

  // ----- a page of chunks leaves its slot

  ghost predicate InSlot(m: Memory, runs: Runs, d: seq<Link>, i: nat, tag: Tag, s: nat) {
    ListAt(m, d, tag) && 0 < i < |d| && d[i] == Page(s) && forall l :: l in d ==> Foreign(runs, l)
  }

  lemma UnslotGood(m: Memory, m1: Memory, n: nat, runs: Runs, c: seq<Link>, d: seq<Link>, i: nat, tag: Tag, s: nat)
    requires s in runs && Good(m1, n, Rekind(runs, s, Loose), c) && InSlot(m, runs, d, i, tag, s)
    requires Page(s) in m && exists slab :: m1 == m[Page(s) := m[Page(s)].(slab := slab)]
    requires forall l :: l in c ==> l !in d
    ensures m1[Page(s)].prev.ptr in m1 && m1[Page(s)].next in m1 && m1[Page(s)].next != Null
    ensures m[Page(s)].prev.ptr in m && m[Page(s)].next in m
    ensures Good(Unlinked(m1, Page(s)), n, Rekind(runs, s, Loose), c)
    ensures forall l :: l in m && l != Page(s) ==> l in Unlinked(m1, Page(s)) && Unlinked(m1, Page(s))[l] == Unlinked(m, Page(s))[l]
  {
    hide Layout, Coalesced, RunAt, FreeListed, LinksOnly, Rekind;
    UnlinkFields(m, d, tag, i);
    ListFrame(m, m1, d, tag);
    UnlinkFields(m1, d, tag, i);
    UnlinkList(m1, d, tag, i);
    assert d[i - 1] in d && After(d, i) in d;
    forall x | 0 <= x < |c| ensures c[x] in c && c[x] in m1 {}
    var r, m' := Rekind(runs, s, Loose), Unlinked(m1, Page(s));
    ListFrame(m1, m', c, PageTag);
    forall t | t in r ensures RunAt(m', t, r[t]) {
      UnslotRun(m1, m', d, tag, t, r[t]);
    }
  }

  lemma UnslotRun(m1: Memory, m': Memory, d: seq<Link>, tag: Tag, t: nat, run: Run)
    requires ListAt(m1, d, tag) && LinksOnly(m1, m', d) && RunAt(m1, t, run)
    ensures RunAt(m', t, run)
  {
    forall p | t <= p < t + run.len ensures Soft(m1, m', Page(p)) {
      LinksAreSoft(m1, m', d, tag, p);
    }
    SoftRun(m1, m', t, run);
  }

  // An allocated run is in no list.
  lemma DetachRun(m: Memory, m1: Memory, n: nat, runs: Runs, c: seq<Link>, s: nat)
    requires Good(m, n, runs, c) && s in runs && runs[s].kind == PageRun && Cleared(m, m1, s, runs[s].len)
    ensures Good(m1, n, Rekind(runs, s, Loose), c)
    ensures Page(s) in m && Page(s) in m1 && m1[Page(s)].next == Null && ForeignKept(m, m1, runs - {s})
  {
    ClearedGood(m, m1, n, runs, c, s);
    assert RunAt(m, s, runs[s]);
    ClearedForeign(m, m1, n, runs, s);
  }

  lemma ClearedForeign(m: Memory, m1: Memory, n: nat, runs: Runs, s: nat)
    requires Layout(runs, n) && s in runs
    requires m1.Keys == m.Keys && (forall l :: l in m && !(l.Page? && s <= l.n < End(runs, s)) ==> m1[l] == m[l])
    ensures ForeignKept(m, m1, runs - {s})
  {
  }

  lemma DetachChunks(m: Memory, m1: Memory, n: nat, runs: Runs, c: seq<Link>, d: seq<Link>, i: nat, tag: Tag, s: nat)
    requires Good(m, n, runs, c) && s in runs && runs[s].kind == Chunked && Cleared(m, m1, s, runs[s].len)
    requires InSlot(m, runs, d, i, tag, s)
    ensures Page(s) in m && m[Page(s)].prev.ptr in m && m[Page(s)].next in m
    ensures Page(s) in m1 && m1[Page(s)].prev.ptr in m1 && m1[Page(s)].next in m1 && m1[Page(s)].next != Null
    ensures Good(Unlinked(m1, Page(s)), n, Rekind(runs, s, Loose), c)
    ensures ForeignKept(Unlinked(m, Page(s)), Unlinked(m1, Page(s)), runs - {s})
  {
    hide Layout, Coalesced, ListAt, FreeListed, Unlinked, Rekind;
    ClearedGood(m, m1, n, runs, c, s);
    assert RunAt(m, s, runs[s]);
    forall l | l in c ensures l !in d {
      if l in d { ForeignUnlisted(runs, c, l); }
    }
    assert m1 == m[Page(s) := m[Page(s)].(slab := Count(1))];
    UnslotGood(m, m1, n, runs, c, d, i, tag, s);
    UnlinkFields(m, d, tag, i);
    assert forall l :: Foreign(runs - {s}, l) ==> l != Page(s);
  }

  // ----- the run enters the free list

  // The last page of a run gets its head, the head enters the free list.
  function TailSet(m: Memory, s: nat, len: nat): Memory
    requires Page(s + len) in m
  {
    if len > 0 then WithPrev(m, Page(s + len), Tagged(Page(s), PageTag)) else m
  }

  lemma PushGood(m: Memory, n: nat, runs: Runs, c: seq<Link>, s: nat)
    requires Good(m, n, runs, c) && OnlyLoose(runs, s) && ClearAfter(runs, s) && ClearBefore(runs, s)
    ensures s in runs && |c| > 0 && Page(s) in m && Page(s + (runs[s].len - 1)) in m && Head(0) in m
    ensures var m1 := TailSet(m, s, runs[s].len - 1); Head(0) in m1 && m1[Head(0)].next in m1 && Page(s) in m1
    ensures var m1 := TailSet(m, s, runs[s].len - 1);
      var m' := Pushed(m1, Head(0), Page(s), PageTag);
      && Good(m', n, Rekind(runs, s, FreeRun), [c[0], Page(s)] + c[1..])
      && NoLoose(Rekind(runs, s, FreeRun)) && ForeignKept(m, m', runs)
  {
    hide Layout, Coalesced, ListAt, RunAt, ForeignKept, Pushed;
    PushParts(m, n, runs, c, s);
    var r := Rekind(runs, s, FreeRun);
    var m1 := TailSet(m, s, runs[s].len - 1);
    var m' := Pushed(m1, Head(0), Page(s), PageTag);
    RekindLayout(runs, n, s, FreeRun);
    ListedCoalesced(runs, s);
    PushListed(runs, c, s);
    forall t | t in r ensures RunAt(m', t, r[t]) {
      PushedRun(m, m1, m', n, runs, c, s, t);
    }
  }

  lemma PushParts(m: Memory, n: nat, runs: Runs, c: seq<Link>, s: nat)
    requires Good(m, n, runs, c) && OnlyLoose(runs, s)
    ensures runs[s].len > 0 && Page(s) in m && Page(s + (runs[s].len - 1)) in m && Head(0) in m
    ensures var m1 := TailSet(m, s, runs[s].len - 1); m1.Keys == m.Keys && Head(0) in m1 && m1[Head(0)].next in m1
    ensures var m1 := TailSet(m, s, runs[s].len - 1);
      var m' := Pushed(m1, Head(0), Page(s), PageTag);
      && ListAt(m1, c, PageTag) && LinksOnly(m1[Page(s) := m'[Page(s)]], m', c)
      && m'[Page(s)].slab == m1[Page(s)].slab && m'[Page(s)].next != Null && m'[Page(s)].prev.tag == PageTag
      && ListAt(m', [c[0], Page(s)] + c[1..], PageTag) && ForeignKept(m, m', runs)
  {
    hide Layout, Coalesced, ForeignKept;
    assert RunAt(m, s, runs[s]);
    NotListed(runs, c, s);
    TailUnlisted(m, n, runs, c, s);
    var m1 := TailSet(m, s, runs[s].len - 1);
    ListFrame(m, m1, c, PageTag);
    PushList(m1, c, PageTag, Page(s));
    PushForeign(m, m1, Pushed(m1, Head(0), Page(s), PageTag), n, runs, c, s);
  }

  lemma TailUnlisted(m: Memory, n: nat, runs: Runs, c: seq<Link>, s: nat)
    requires Good(m, n, runs, c) && OnlyLoose(runs, s)
    ensures Page(s + runs[s].len - 1) !in c && (s + runs[s].len - 1 in runs ==> runs[s].len == 1)
  {
    hide Coalesced, RunsAt, ListAt;
    var z := s + runs[s].len - 1;
    if runs[s].len == 1 {
      NotListed(runs, c, s);
    } else {
      assert z !in runs;
      forall x | 0 <= x < |c| ensures c[x] != Page(z) {}
    }
  }

  lemma PushForeign(m: Memory, m1: Memory, m': Memory, n: nat, runs: Runs, c: seq<Link>, s: nat)
    requires FreeListed(runs, c) && OnlyLoose(runs, s) && runs[s].len > 0 && Page(s) in m && Page(s + (runs[s].len - 1)) in m
    requires m1 == TailSet(m, s, runs[s].len - 1) && (s + runs[s].len - 1 in runs ==> runs[s].len == 1)
    requires Page(s) in m' && LinksOnly(m1[Page(s) := m'[Page(s)]], m', c)
    ensures ForeignKept(m, m', runs)
  {
    forall l | l in m && Foreign(runs, l) ensures l in m' && m'[l] == m[l] {
      ForeignUnlisted(runs, c, l);
      assert l != Page(s) && l != Page(s + runs[s].len - 1);
      assert m1[l] == m[l];
    }
  }

  lemma ListedCoalesced(runs: Runs, s: nat)
    requires Coalesced(runs) && OnlyLoose(runs, s) && ClearAfter(runs, s) && ClearBefore(runs, s) && runs[s].len > 0
    ensures Coalesced(Rekind(runs, s, FreeRun))
  {
    var r := Rekind(runs, s, FreeRun);
    forall t | t in r && r[t].kind == FreeRun && End(r, t) in r ensures r[End(r, t)].kind != FreeRun {
      assert End(r, t) == End(runs, t);
    }
  }

  lemma PushListed(runs: Runs, c: seq<Link>, s: nat)
    requires FreeListed(runs, c) && s in runs
    ensures FreeListed(Rekind(runs, s, FreeRun), [c[0], Page(s)] + c[1..])
  {
    var r, d := Rekind(runs, s, FreeRun), [c[0], Page(s)] + c[1..];
    forall t | t in r && r[t].kind == FreeRun ensures Page(t) in d {
      if t == s {
        assert d[1] == Page(t);
      } else {
        var x :| 0 <= x < |c| && c[x] == Page(t);
        assert d[x + 1] == Page(t);
      }
    }
    forall x | 0 < x < |d| ensures d[x].Page? && d[x].n in r && r[d[x].n].kind == FreeRun {
      assert x > 1 ==> d[x] == c[x - 1];
    }
  }

  lemma PushedRun(m: Memory, m1: Memory, m': Memory, n: nat, runs: Runs, c: seq<Link>, s: nat, t: nat)
    requires Layout(runs, n) && RunsAt(m, runs) && OnlyLoose(runs, s) && t in runs
    requires Page(s) in m && Page(s + (runs[s].len - 1)) in m && m1 == TailSet(m, s, runs[s].len - 1)
    requires Page(s) in m' && ListAt(m1, c, PageTag) && LinksOnly(m1[Page(s) := m'[Page(s)]], m', c) && Page(s) !in c
    requires m'[Page(s)].slab == m1[Page(s)].slab && m'[Page(s)].next != Null && m'[Page(s)].prev.tag == PageTag
    requires Page(s + runs[s].len - 1) !in c
    ensures RunAt(m', t, Rekind(runs, s, FreeRun)[t])
  {
    hide ListAt, LinksOnly, Soft;
    PushedSoft(m1, m', c, s);
    assert RunAt(m, t, runs[t]);
    if t != s {
      assert t + runs[t].len <= s || s + runs[s].len <= t;
      SoftRun(m, m1, t, runs[t]) by { TailElsewhere(m, m1, s, runs[s].len - 1, t, runs[t].len); }
      SoftRun(m1, m', t, runs[t]);
    } else {
      PushedHead(m, m1, m', c, s, runs[s].len);
    }
  }

  lemma PushedSoft(m1: Memory, m': Memory, c: seq<Link>, s: nat)
    requires Page(s) in m1 && Page(s) in m' && ListAt(m1, c, PageTag) && LinksOnly(m1[Page(s) := m'[Page(s)]], m', c) && Page(s) !in c
    ensures m'.Keys == m1.Keys && forall p: nat :: Page(p) in m1 && p != s ==> Soft(m1, m', Page(p))
    ensures forall l :: l in m1 && l !in c && l != Page(s) ==> m'[l] == m1[l]
  {
    var m2 := m1[Page(s) := m'[Page(s)]];
    ListFrame(m1, m2, c, PageTag);
    forall p: nat | Page(p) in m1 && p != s ensures Soft(m1, m', Page(p)) {
      LinksAreSoft(m2, m', c, PageTag, p);
    }
  }

  lemma TailElsewhere(m: Memory, m1: Memory, s: nat, k: nat, t: nat, len: nat)
    requires Page(s + k) in m && m1 == TailSet(m, s, k) && (t + len <= s || s + k < t)
    requires forall i :: t <= i < t + len ==> Page(i) in m
    ensures forall i :: t <= i < t + len ==> Soft(m, m1, Page(i))
  {
  }

  lemma PushedHead(m: Memory, m1: Memory, m': Memory, c: seq<Link>, s: nat, len: nat)
    requires RunAt(m, s, Run(len, Loose)) && m1 == TailSet(m, s, len - 1) && m'.Keys == m1.Keys
    requires forall p: nat :: Page(p) in m1 && p != s ==> Soft(m1, m', Page(p))
    requires forall l :: l in m1 && l !in c && l != Page(s) ==> m'[l] == m1[l]
    requires m'[Page(s)].slab == m1[Page(s)].slab && m'[Page(s)].next != Null && m'[Page(s)].prev.tag == PageTag
    requires Page(s + len - 1) !in c
    ensures RunAt(m', s, Run(len, FreeRun))
  {
    forall i | s < i < s + len
      ensures Page(i) in m' && m'[Page(i)].slab == Count(0) && m'[Page(i)].next == Null && m'[Page(i)].prev.tag == PageTag
    {
      assert Soft(m1, m', Page(i));
    }
    assert len > 1 ==> m'[Page(s + len - 1)] == m1[Page(s + len - 1)];
  }

  // ----- the whole way

  lemma StayedGrown(m: Memory, runs: Runs, s: nat)
    requires OnlyLoose(runs, s)
    ensures Grown(m, m, runs, runs, s, s)
  {
  }

  // What the page allocator reads off the record after a loose run.
  lemma NextRun(m: Memory, n: nat, runs: Runs, s: nat)
    requires Layout(runs, n) && RunsAt(m, runs) && OnlyLoose(runs, s)
    ensures Page(s) in m && m[Page(s)].slab == Count(runs[s].len)
    ensures End(runs, s) >= n ==> ClearAfter(runs, s)
    ensures End(runs, s) < n ==> End(runs, s) in runs && End(runs, s) != s && Page(End(runs, s)) in m
    ensures End(runs, s) < n ==>
      (m[Page(End(runs, s))].prev.tag == PageTag && m[Page(End(runs, s))].next != Null <==> runs[End(runs, s)].kind == FreeRun)
  {
    assert RunAt(m, s, runs[s]);
    if End(runs, s) < n {
      assert RunAt(m, End(runs, s), runs[End(runs, s)]);
      StartsFreeRun(m, n, runs, End(runs, s));
    }
  }

  lemma NothingBefore(m: Memory, n: nat, runs: Runs)
    requires Layout(runs, n)
    ensures ClearBefore(runs, 0)
  {
  }

  // What it reads off the record before one.
  lemma PrevRun(m: Memory, n: nat, runs: Runs, s: nat) returns (t: nat)
    requires Layout(runs, n) && RunsAt(m, runs) && OnlyLoose(runs, s) && s > 0
    ensures t in runs && End(runs, t) == s && t < s <= n && Page(s - 1) in m && Page(t) in m
    ensures runs[t].kind == FreeRun || ClearBefore(runs, s)
    ensures var r := m[Page(s - 1)];
      && (r.prev.tag == PageTag && r.slab == Count(0) ==> r.prev.ptr == Page(t) && m[Page(t)].next != Null && runs[t].kind == FreeRun)
      && (r.prev.tag == PageTag && r.slab != Count(0) && r.next != Null ==> t == s - 1 && runs[t].kind == FreeRun)
      && (runs[t].kind == FreeRun ==> r.prev.tag == PageTag && (r.slab == Count(0) || r.next != Null))
  {
    t := RunBefore(runs, n, s, 0);
    EndsFreeRun(m, n, runs, s, t);
    forall u | u in runs && End(runs, u) == s ensures u == t {
      assert InRun(runs, u, s - 1) && InRun(runs, t, s - 1);
    }
    assert RunAt(m, t, runs[t]);
  }

  // The steps from an allocated run at s to a free one at s' in one.
  lemma FreedPages(runs: Runs, r2: Runs, r3: Runs, n: nat, s: nat, s': nat)
    requires Layout(runs, n) && NoLoose(runs) && s in runs && runs[s].kind != FreeRun
    requires OnlyLoose(r2, s) && SameOpen(Rekind(runs, s, Loose), r2) && SameTaken(Rekind(runs, s, Loose), r2, {s})
    requires OnlyLoose(r3, s') && SameOpen(r2, r3) && SameTaken(r2, r3, {s})
    ensures NoLoose(Rekind(r3, s', FreeRun)) && SameTaken(runs, Rekind(r3, s', FreeRun), {s})
    ensures FreeSet(Rekind(r3, s', FreeRun), n) == FreeSet(runs, n) + Interval(s, End(runs, s))
    ensures |FreeSet(Rekind(r3, s', FreeRun), n)| == |FreeSet(runs, n)| + runs[s].len
  {
    hide Layout, IsOpen, FreeSet, Interval;
    var r4 := Rekind(r3, s', FreeRun);
    forall p ensures IsOpen(r4, p) <==> IsOpen(Rekind(runs, s, Loose), p) {
      ListedOpen(r3, s', p);
    }
    FreePagesGrow(runs, r4, n, s);
  }

  lemma FreedForeign(m: Memory, m1: Memory, m2: Memory, m3: Memory, m4: Memory, runs: Runs, r2: Runs, r3: Runs, s: nat, s': nat)
    requires s in runs && ForeignKept(m, m1, runs - {s})
    requires Grown(m1, m2, Rekind(runs, s, Loose), r2, s, s) && Grown(m2, m3, r2, r3, s, s') && ForeignKept(m3, m4, r3)
    ensures ForeignKept(m, m4, runs - {s})
  {
    forall l | l in m && Foreign(runs - {s}, l) ensures l in m4 && m4[l] == m[l] {
      assert Foreign(Rekind(runs, s, Loose), l);
    }
  }
}
