// What taking pages from the free list and giving them back do to the records
// of a pool.
module SlabPageOps {
  import opened SlabPages
  import opened SlabRuns
  import opened Counting

  const NoLinks: Tagged := Tagged(Null, PageTag)
  const Inside: Record := Record(Busy, Null, NoLinks)
  const Zero: Record := Record(Count(0), Null, NoLinks)

  // The pages from a up to b all hold the record r; nothing else changed.
  ghost predicate Stamped(m: Memory, m': Memory, a: nat, b: nat, r: Record) {
    && m'.Keys == m.Keys
    && (forall i :: a <= i < b ==> Page(i) in m' && m'[Page(i)] == r)
    && (forall l :: l in m && !(l.Page? && a <= l.n < b) ==> m'[l] == m[l])
  }

  // Outside the pages from a up to b, no record loses what its run says of it.
  ghost predicate SoftOutside(m: Memory, m': Memory, a: nat, b: nat) {
    m'.Keys == m.Keys && forall p: nat :: Page(p) in m && !(a <= p < b) ==> Soft(m, m', Page(p))
  }

  lemma SoftRuns(m: Memory, m': Memory, s: nat, run: Run, a: nat, b: nat)
    requires RunAt(m, s, run) && SoftOutside(m, m', a, b) && (s + run.len <= a || b <= s)
    ensures RunAt(m', s, run)
  {
    SoftRun(m, m', s, run);
  }

  lemma SoftThroughLinks(m: Memory, m1: Memory, m': Memory, c: seq<Link>, tag: Tag, a: nat, b: nat)
    requires m1.Keys == m.Keys && ListAt(m1, c, tag) && LinksOnly(m1, m', c)
    requires forall p: nat :: Page(p) in m && !(a <= p < b) ==> m1[Page(p)] == m[Page(p)]
    ensures SoftOutside(m, m', a, b)
  {
    forall p: nat | Page(p) in m && !(a <= p < b) ensures Soft(m, m', Page(p)) {
      LinksAreSoft(m1, m', c, tag, p);
    }
  }

  // ----- allocation

  // The free run at s, of len pages, is the i-th of the free list c.
  ghost predicate Ready(m: Memory, c: seq<Link>, i: nat, s: nat, len: nat) {
    && ListAt(m, c, PageTag) && 0 < i < |c| && c[i] == Page(s)
    && RunAt(m, s, Run(len, FreeRun))
    && (forall j :: s < j < s + len ==> Page(j) !in c)
  }

  lemma GoodReady(m: Memory, n: nat, runs: Runs, c: seq<Link>, i: nat)
    requires Good(m, n, runs, c) && 0 < i < |c|
    ensures c[i].Page? && c[i].n in runs && runs[c[i].n].kind == FreeRun
    ensures Ready(m, c, i, c[i].n, runs[c[i].n].len)
  {
    forall j | c[i].n < j < c[i].n + runs[c[i].n].len ensures Page(j) !in c {
      assert j !in runs;
    }
    assert RunAt(m, c[i].n, runs[c[i].n]);
  }

  // The last page of the rest points at its new head, which gets its length.
  function TailMarked(m: Memory, s: nat, len: nat, k: nat): Memory
    requires 0 < k < len && Page(s + k) in m && Page(s + len - 1) in m
  {
    var m1 := WithPrev(m, Page(s + len - 1), Tagged(Page(s + k), PageTag));
    m1[Page(s + k) := m1[Page(s + k)].(slab := Count(len - k))]
  }

  lemma TailMarkedList(m: Memory, c: seq<Link>, i: nat, s: nat, len: nat, k: nat)
    requires Ready(m, c, i, s, len) && 0 < k < len
    ensures Page(s + k) in m && Page(s + len - 1) in m
    ensures var m' := TailMarked(m, s, len, k);
      && m'.Keys == m.Keys && ListAt(m', c, PageTag) && (forall l :: l in c ==> m'[l] == m[l])
      && m'[c[i]].prev.ptr in m' && m'[c[i]].next in m'
  {
    var m' := TailMarked(m, s, len, k);
    assert forall j :: 0 <= j < |c| ==> c[j] in c;
    ListFrame(m, m', c, PageTag);
    UnlinkList(m', c, PageTag, i);
  }

  // The records once the first k pages of the run at s have left the free
  // list, which is now d.
  ghost predicate Taken(m: Memory, m': Memory, s: nat, len: nat, k: nat, c: seq<Link>, d: seq<Link>) {
    && ListAt(m', d, PageTag) && (forall j :: s <= j < s + k ==> Page(j) !in d)
    && SoftOutside(m, m', s, s + len)
    && (k < len ==> RunAt(m', s + k, Run(len - k, FreeRun)))
    && (forall l :: l in m && l !in c && !(l.Page? && s <= l.n < s + len) ==> l in m' && m'[l] == m[l])
  }

  lemma TakePart(m: Memory, c: seq<Link>, i: nat, s: nat, len: nat, k: nat) returns (m1: Memory)
    requires Ready(m, c, i, s, len) && 0 < k < len
    ensures Page(s + k) in m && Page(s + len - 1) in m && m1 == TailMarked(m, s, len, k)
    ensures Page(s) in m1 && Page(s + k) in m1 && m1[Page(s)].prev.ptr in m1 && m1[Page(s)].next in m1 && m1[Page(s)].prev.tag == PageTag
    ensures Taken(m, Replaced(m1, Page(s), Page(s + k)), s, len, k, c, c[i := Page(s + k)])
  {
    hide ListAt, LinksOnly;
    TailMarkedList(m, c, i, s, len, k);
    m1 := TailMarked(m, s, len, k);
    assert Page(s + k) !in c;
    ReplaceList(m1, c, PageTag, i, Page(s + k));
    var m' := Replaced(m1, Page(s), Page(s + k));
    RestAt(m, m', s, len, k, c);
    TakePartElsewhere(m, m1, m', c, s, len, k);
  }

  lemma TakePartElsewhere(m: Memory, m1: Memory, m': Memory, c: seq<Link>, s: nat, len: nat, k: nat)
    requires 0 < k < len && Page(s + k) in m && Page(s + len - 1) in m && Page(s + k) !in c
    requires m1 == TailMarked(m, s, len, k) && m1.Keys == m.Keys && ListAt(m1, c, PageTag)
    requires Page(s + k) in m' && LinksOnly(m1[Page(s + k) := m'[Page(s + k)]], m', c)
    ensures SoftOutside(m, m', s, s + len)
    ensures forall l :: l in m && l !in c && !(l.Page? && s <= l.n < s + len) ==> l in m' && m'[l] == m[l]
  {
    var m2 := m1[Page(s + k) := m'[Page(s + k)]];
    assert forall x :: 0 <= x < |c| ==> c[x] in c;
    ListFrame(m1, m2, c, PageTag);
    SoftThroughLinks(m, m2, m', c, PageTag, s, s + len);
  }

  lemma RestAt(m: Memory, m': Memory, s: nat, len: nat, k: nat, c: seq<Link>)
    requires RunAt(m, s, Run(len, FreeRun)) && 0 < k < len && m'.Keys == m.Keys
    requires m'[Page(s + k)] == Record(Count(len - k), m[Page(s)].next, m[Page(s)].prev)
    requires forall j :: s < j < s + len ==> Page(j) !in c
    requires LinksOnly(TailMarked(m, s, len, k)[Page(s + k) := m'[Page(s + k)]], m', c)
    ensures RunAt(m', s + k, Run(len - k, FreeRun))
  {
    var m2 := TailMarked(m, s, len, k)[Page(s + k) := m'[Page(s + k)]];
    assert forall j :: s < j < s + len ==> m'[Page(j)] == m2[Page(j)];
    assert forall j :: s < j < s + len && j != s + k ==> m2[Page(j)].slab == m[Page(j)].slab && m2[Page(j)].next == m[Page(j)].next && m2[Page(j)].prev.tag == PageTag;
  }

  lemma TakeAll(m: Memory, c: seq<Link>, i: nat, s: nat, len: nat)
    requires Ready(m, c, i, s, len)
    ensures Page(s) in m && m[Page(s)].prev.ptr in m && m[Page(s)].next in m
    ensures Taken(m, Unlinked(m, Page(s)), s, len, len, c, Without(c, i))
  {
    UnlinkList(m, c, PageTag, i);
    SoftThroughLinks(m, m, Unlinked(m, c[i]), c, PageTag, s, s + len);
  }

  // The records of a fresh allocation.
  ghost predicate Marked(m: Memory, m': Memory, s: nat, k: nat) {
    k > 0 && Page(s) in m && Stamped(m[Page(s) := Record(Slab.Start(k), Null, NoLinks)], m', s + 1, s + k, Inside)
  }

  lemma MarkedList(m: Memory, m': Memory, s: nat, k: nat, d: seq<Link>)
    requires ListAt(m, d, PageTag) && (forall j :: s <= j < s + k ==> Page(j) !in d) && Marked(m, m', s, k)
    ensures ListAt(m', d, PageTag)
    ensures forall l :: l in m && !(l.Page? && s <= l.n < s + k) ==> l in m' && m'[l] == m[l]
  {
    assert forall x :: 0 <= x < |d| ==> d[x] in d;
    ListFrame(m, m', d, PageTag);
  }

  lemma MarkedHead(m: Memory, m': Memory, s: nat, k: nat)
    requires Marked(m, m', s, k)
    ensures RunAt(m', s, Run(k, PageRun))
  {
    forall i | s <= i < s + k ensures Page(i) in m' {
      if i == s { assert Page(s) in m'; }
    }
  }

  // Where the runs of a split come from.
  lemma SplitOrigin(runs: Runs, n: nat, s: nat, k: nat, t: nat)
    requires Layout(runs, n) && s in runs && runs[s].kind == FreeRun && 0 < k <= runs[s].len && t in Split(runs, s, k)
    ensures var r := Split(runs, s, k);
      || (t == s && r[t] == Run(k, PageRun))
      || (t == s + k && k < runs[s].len && r[t] == Run(runs[s].len - k, FreeRun))
      || (t != s && t in runs && r[t] == runs[t] && (t + runs[t].len <= s || End(runs, s) <= t))
  {
    if k < runs[s].len { CutLayout(runs, n, s, k); }
  }

  lemma MarkedRun(m: Memory, m1: Memory, m': Memory, n: nat, runs: Runs, s: nat, k: nat, t: nat)
    requires Layout(runs, n) && s in runs && runs[s].kind == FreeRun && 0 < k <= runs[s].len
    requires t in Split(runs, s, k) && (t in runs ==> RunAt(m, t, runs[t]))
    requires SoftOutside(m, m1, s, End(runs, s)) && (k < runs[s].len ==> RunAt(m1, s + k, Run(runs[s].len - k, FreeRun)))
    requires Marked(m1, m', s, k)
    ensures RunAt(m', t, Split(runs, s, k)[t])
  {
    SplitOrigin(runs, n, s, k, t);
    if t == s {
      MarkedHead(m1, m', s, k);
    } else if t == s + k && k < runs[s].len {
      OtherKept(m1, m', s, k, s + k, Run(runs[s].len - k, FreeRun));
    } else {
      MarkedElsewhere(m, m1, m', s, runs[s].len, k, t, runs[t]);
    }
  }

  lemma MarkedRuns(m: Memory, m1: Memory, m': Memory, n: nat, runs: Runs, s: nat, k: nat)
    requires RunsAt(m, runs) && Layout(runs, n) && s in runs && runs[s].kind == FreeRun && 0 < k <= runs[s].len
    requires SoftOutside(m, m1, s, End(runs, s)) && (k < runs[s].len ==> RunAt(m1, s + k, Run(runs[s].len - k, FreeRun)))
    requires Marked(m1, m', s, k)
    ensures RunsAt(m', Split(runs, s, k))
  {
    forall t | t in Split(runs, s, k) ensures RunAt(m', t, Split(runs, s, k)[t]) {
      MarkedRun(m, m1, m', n, runs, s, k, t);
    }
  }

  lemma MarkedElsewhere(m: Memory, m1: Memory, m': Memory, s: nat, len: nat, k: nat, t: nat, run: Run)
    requires RunAt(m, t, run) && (t + run.len <= s || s + len <= t) && 0 < k <= len
    requires SoftOutside(m, m1, s, s + len) && Marked(m1, m', s, k)
    ensures RunAt(m', t, run)
  {
    SoftRuns(m, m1, t, run, s, s + len);
    OtherKept(m1, m', s, k, t, run);
  }

  lemma OtherKept(m: Memory, m': Memory, s: nat, k: nat, t: nat, run: Run)
    requires Marked(m, m', s, k) && RunAt(m, t, run) && (t + run.len <= s || s + k <= t)
    ensures RunAt(m', t, run)
  {
    assert forall i :: t <= i < t + run.len ==> m'[Page(i)] == m[Page(i)];
    SoftRun(m, m', t, run);
  }

  lemma ListOnce(m: Memory, c: seq<Link>, tag: Tag)
    requires ListAt(m, c, tag)
    ensures forall i, j :: 0 <= i < j < |c| ==> c[i] != c[j]
  {
  }

  lemma PartListed(m: Memory, runs: Runs, n: nat, c: seq<Link>, i: nat, k: nat)
    requires Layout(runs, n) && FreeListed(runs, c) && 0 < i < |c| && 0 < k < runs[c[i].n].len
    requires ListAt(m, c, PageTag)
    ensures FreeListed(Split(runs, c[i].n, k), c[i := Page(c[i].n + k)])
  {
    hide Layout, ListAt;
    ListOnce(m, c, PageTag);
    var s, r := c[i].n, Split(runs, c[i].n, k);
    var d := c[i := Page(s + k)];
    CutLayout(runs, n, s, k);
    SplitKinds(runs, s, k);
    hide Split;
    forall t | t in r && r[t].kind == FreeRun ensures Page(t) in d {
      if t == s + k {
        assert d[i] == Page(t);
      } else {
        assert Page(t) in c;
        var x :| 0 <= x < |c| && c[x] == Page(t);
        assert d[x] == Page(t);
      }
    }
    forall x | 0 < x < |d| ensures d[x].Page? && d[x].n in r && r[d[x].n].kind == FreeRun {
      assert x != i ==> d[x] == c[x] && c[x].n != s && c[x].n != s + k;
    }
  }

  lemma SplitKinds(runs: Runs, s: nat, k: nat)
    requires s in runs && 0 < k < runs[s].len && s + k !in runs && runs[s].kind == FreeRun
    ensures var r := Split(runs, s, k);
      && s in r && r[s].kind == PageRun && s + k in r && r[s + k].kind == FreeRun
      && forall t :: t != s && t != s + k ==> (t in r <==> t in runs) && (t in runs ==> r[t] == runs[t])
  {
  }

  lemma AllListed(m: Memory, runs: Runs, c: seq<Link>, i: nat, kind: Kind)
    requires FreeListed(runs, c) && 0 < i < |c| && kind != FreeRun
    requires ListAt(m, c, PageTag)
    ensures FreeListed(Rekind(runs, c[i].n, kind), Without(c, i))
  {
    hide ListAt;
    ListOnce(m, c, PageTag);
    var s, r, d := c[i].n, Rekind(runs, c[i].n, kind), Without(c, i);
    forall t | t in r && r[t].kind == FreeRun ensures Page(t) in d {
      assert Page(t) in c && t != s;
      var x :| 0 <= x < |c| && c[x] == Page(t);
      assert d[if x < i then x else x - 1] == Page(t);
    }
    forall x | 0 < x < |d| ensures d[x].Page? && d[x].n in r && r[d[x].n].kind == FreeRun {
      var y := if x < i then x else x + 1;
      assert d[x] == c[y] && c[y] != c[i];
    }
  }

  // Records of no concern to the page allocator: slots and pages of chunks.
  predicate Foreign(runs: Runs, l: Link) {
    (l.Head? && l.h != 0) || (l.Page? && l.n in runs && runs[l.n].kind == Chunked)
  }

  ghost predicate ForeignKept(m: Memory, m': Memory, runs: Runs) {
    forall l :: l in m && Foreign(runs, l) ==> l in m' && m'[l] == m[l]
  }

  lemma ForeignUnlisted(runs: Runs, c: seq<Link>, l: Link)
    requires FreeListed(runs, c) && Foreign(runs, l)
    ensures l !in c
  {
    forall x | 0 <= x < |c| ensures c[x] != l {
      assert x == 0 || runs[c[x].n].kind == FreeRun;
    }
  }

  lemma ForeignTaken(m: Memory, m1: Memory, m': Memory, n: nat, runs: Runs, c: seq<Link>, i: nat, k: nat, d: seq<Link>)
    requires Layout(runs, n) && FreeListed(runs, c) && 0 < i < |c| && c[i].Page? && c[i].n in runs && runs[c[i].n].kind == FreeRun
    requires 0 < k <= runs[c[i].n].len
    requires Taken(m, m1, c[i].n, runs[c[i].n].len, k, c, d) && Marked(m1, m', c[i].n, k)
    ensures ForeignKept(m, m', runs)
  {
    hide ListAt, RunAt, SoftOutside;
    var s := c[i].n;
    forall l | l in m && Foreign(runs, l) ensures l in m' && m'[l] == m[l] {
      ForeignUnlisted(runs, c, l);
      assert !(l.Page? && s <= l.n < End(runs, s));
      assert l in m1 && m1[l] == m[l];
    }
  }

  // An allocation of the first k pages of the i-th free run keeps the pool good.
  lemma AllocGood(m: Memory, m1: Memory, m': Memory, n: nat, runs: Runs, c: seq<Link>, i: nat, k: nat)
    requires Good(m, n, runs, c) && 0 < i < |c| && c[i].Page? && c[i].n in runs && runs[c[i].n].kind == FreeRun
    requires 0 < k <= runs[c[i].n].len
    requires var d := if k < runs[c[i].n].len then c[i := Page(c[i].n + k)] else Without(c, i);
      Taken(m, m1, c[i].n, runs[c[i].n].len, k, c, d) && Marked(m1, m', c[i].n, k)
    ensures Good(m', n, Split(runs, c[i].n, k), if k < runs[c[i].n].len then c[i := Page(c[i].n + k)] else Without(c, i))
    ensures ForeignKept(m, m', runs)
  {
    hide Layout, Coalesced, RunsAt, RunAt, ListAt, FreeListed, SoftOutside, Marked, Split, ForeignKept;
    var s := c[i].n;
    var d := if k < runs[s].len then c[i := Page(s + k)] else Without(c, i);
    ForeignTaken(m, m1, m', n, runs, c, i, k, d);
    SplitLayout(runs, n, s, k);
    MarkedList(m1, m', s, k, d);
    MarkedRuns(m, m1, m', n, runs, s, k);
    if k < runs[s].len {
      PartListed(m, runs, n, c, i, k);
    } else {
      AllListed(m, runs, c, i, PageRun);
      assert Split(runs, s, k) == Rekind(runs, s, PageRun) by { SplitWhole(runs, s); }
    }
  }

  lemma SplitWhole(runs: Runs, s: nat)
    requires s in runs && runs[s].len > 0
    ensures Split(runs, s, runs[s].len) == Rekind(runs, s, PageRun)
  {
  }
}
