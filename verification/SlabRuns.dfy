// How the page records of a pool divide into runs of pages, free ones in the
// free list and never next to each other.
module SlabRuns {
  import opened SlabPages
  import opened Counting

  // A loose run is one being freed: out of every list, not yet in the free list.
  datatype Kind = FreeRun | PageRun | Chunked | Loose

  datatype Run = Run(len: nat, kind: Kind)

  // The runs by their first pages.
  type Runs = map<nat, Run>

  // The first page after a run.
  function End(runs: Runs, s: nat): nat
    requires s in runs
  {
    s + runs[s].len
  }

  // The runs follow one another from page 0 to page n.
  ghost predicate Layout(runs: Runs, n: nat) {
    && (n > 0 ==> 0 in runs)
    && (forall s :: s in runs ==> 0 < runs[s].len && s + runs[s].len <= n)
    && (forall s {:trigger End(runs, s)} :: s in runs && End(runs, s) < n ==> End(runs, s) in runs)
    && (forall s, t :: s in runs && t in runs && s < t ==> s + runs[s].len <= t)
  }

  // No two free runs are neighbours.
  ghost predicate Coalesced(runs: Runs) {
    forall s {:trigger End(runs, s)} ::
      s in runs && runs[s].kind == FreeRun && End(runs, s) in runs ==> runs[End(runs, s)].kind != FreeRun
  }

  // The records of one run. The last record of a free run points back at the
  // first, unless no page follows: a new pool does not set it.
  ghost predicate RunAt(m: Memory, s: nat, run: Run) {
    && run.len > 0
    && (forall i :: s <= i < s + run.len ==> Page(i) in m)
    && match run.kind
      case FreeRun =>
        && Page(s) in m && m[Page(s)].slab == Count(run.len) && m[Page(s)].next != Null && m[Page(s)].prev.tag == PageTag
        && (forall i :: s < i < s + run.len ==> m[Page(i)].slab == Count(0) && m[Page(i)].next == Null && m[Page(i)].prev.tag == PageTag)
        && (run.len > 1 && Page(s + run.len) in m ==> m[Page(s + run.len - 1)].prev.ptr == Page(s))
      case PageRun =>
        && Page(s) in m && m[Page(s)].slab == Slab.Start(run.len) && m[Page(s)].next == Null && m[Page(s)].prev.tag == PageTag
        && (forall i :: s < i < s + run.len ==> m[Page(i)].slab == Busy && m[Page(i)].next == Null && m[Page(i)].prev.tag == PageTag)
      case Loose =>
        && Page(s) in m && m[Page(s)].slab == Count(run.len)
        && (forall i :: s < i < s + run.len ==> m[Page(i)].slab == Count(0) && m[Page(i)].next == Null && m[Page(i)].prev.tag == PageTag)
      case Chunked => run.len == 1 && Page(s) in m && m[Page(s)].prev.tag != PageTag
  }

  ghost predicate RunsAt(m: Memory, runs: Runs) {
    forall s :: s in runs ==> RunAt(m, s, runs[s])
  }

  ghost predicate FreeListed(runs: Runs, c: seq<Link>) {
    && |c| > 0 && c[0] == Head(0)
    && (forall i :: 0 < i < |c| ==> c[i].Page? && c[i].n in runs && runs[c[i].n].kind == FreeRun)
    && (forall s :: s in runs && runs[s].kind == FreeRun ==> Page(s) in c)
  }

  // The page layer of a pool of n pages, with the free list c.
  ghost predicate Good(m: Memory, n: nat, runs: Runs, c: seq<Link>) {
    Layout(runs, n) && Coalesced(runs) && RunsAt(m, runs) && ListAt(m, c, PageTag) && FreeListed(runs, c)
  }

  // ----- the free pages

  predicate InRun(runs: Runs, s: nat, p: int) { s in runs && s <= p < s + runs[s].len }

  ghost predicate IsFree(runs: Runs, p: int) {
    exists s :: InRun(runs, s, p) && runs[s].kind == FreeRun
  }

  ghost function FreeSet(runs: Runs, n: nat): set<int> {
    set p | 0 <= p < n && IsFree(runs, p)
  }

  predicate Within(p: int, a: int, b: int) { a <= p < b }

  function Interval(a: int, b: int): set<int> { set p | a <= p < b && Within(p, a, b) }

  lemma {:induction false} IntervalSize(a: int, b: int)
    requires a <= b
    ensures |Interval(a, b)| == b - a
    decreases b - a
  {
    if a < b {
      IntervalSize(a, b - 1);
      assert Interval(a, b) == Interval(a, b - 1) + {b - 1};
    } else {
      assert Interval(a, b) == {};
    }
  }

  // The k pages from page a on exist and are free.
  ghost predicate FreeStretch(runs: Runs, n: nat, a: nat, k: nat) {
    a + k <= n && forall p :: a <= p < a + k ==> IsFree(runs, p)
  }

  // ----- finding one's way in a layout

  // The run before the one that starts at s.
  lemma {:induction false} RunBefore(runs: Runs, n: nat, s: nat, from: nat) returns (t: nat)
    requires Layout(runs, n) && s in runs && from in runs && from < s
    ensures t in runs && t + runs[t].len == s
    decreases s - from
  {
    if End(runs, from) == s {
      t := from;
    } else {
      t := RunBefore(runs, n, s, End(runs, from));
    }
  }

  // Every page lies in a run.
  lemma {:induction false} RunOf(runs: Runs, n: nat, p: nat, from: nat) returns (s: nat)
    requires Layout(runs, n) && p < n && from in runs && from <= p
    ensures InRun(runs, s, p)
    decreases p - from
  {
    if p < from + runs[from].len {
      s := from;
    } else {
      s := RunOf(runs, n, p, End(runs, from));
    }
  }

  lemma RunUnique(runs: Runs, n: nat, s: nat, t: nat, p: int)
    requires Layout(runs, n) && InRun(runs, s, p) && InRun(runs, t, p)
    ensures s == t
  {
  }

  // Contiguous free pages lie in one free run.
  lemma {:induction false} ContiguousInOneRun(runs: Runs, n: nat, a: nat, k: nat) returns (s: nat)
    requires Layout(runs, n) && Coalesced(runs) && 0 < k && FreeStretch(runs, n, a, k)
    ensures s in runs && runs[s].kind == FreeRun && s <= a && a + k <= s + runs[s].len
    decreases k
  {
    if k == 1 {
      assert IsFree(runs, a);
      s :| InRun(runs, s, a) && runs[s].kind == FreeRun;
    } else {
      s := ContiguousInOneRun(runs, n, a, k - 1);
      assert IsFree(runs, a + k - 1);
      assert End(runs, s) in runs ==> runs[End(runs, s)].kind != FreeRun;
    }
  }

  // An allocation of k pages finds a long enough free run exactly if k
  // contiguous pages are free.
  lemma ServableIff(runs: Runs, n: nat, k: nat)
    requires Layout(runs, n) && Coalesced(runs) && 0 < k
    ensures (exists s :: s in runs && runs[s].kind == FreeRun && runs[s].len >= k)
       <==> (exists a: nat :: FreeStretch(runs, n, a, k))
  {
    if s :| s in runs && runs[s].kind == FreeRun && runs[s].len >= k {
      forall p | s <= p < s + k ensures IsFree(runs, p) {
        assert InRun(runs, s, p);
      }
      assert FreeStretch(runs, n, s, k);
    }
    if a: nat :| FreeStretch(runs, n, a, k) {
      var s := ContiguousInOneRun(runs, n, a, k);
      assert runs[s].len >= k;
    }
  }

  // When nothing is allocated, one free run is the whole pool.
  lemma AllFreeIsOneRun(runs: Runs, n: nat)
    requires Layout(runs, n) && Coalesced(runs) && n > 0
    requires forall s :: s in runs ==> runs[s].kind == FreeRun
    ensures runs == map[0 := Run(n, FreeRun)]
  {
    assert End(runs, 0) !in runs;
    assert forall s :: s in runs ==> s == 0;
  }

  // ----- frames

  // The record keeps what its run says of it.
  ghost predicate Soft(m: Memory, m': Memory, l: Link) {
    && l in m && l in m' && m'[l].slab == m[l].slab
    && (m[l].next == Null ==> m'[l] == m[l]) && (m'[l].next == Null ==> m[l].next == Null)
    && m'[l].prev.tag == m[l].prev.tag
  }

  lemma SoftRun(m: Memory, m': Memory, s: nat, run: Run)
    requires RunAt(m, s, run) && m'.Keys == m.Keys && forall i :: s <= i < s + run.len ==> Soft(m, m', Page(i))
    ensures RunAt(m', s, run)
  {
    assert Soft(m, m', Page(s));
    if run.kind == FreeRun && run.len > 1 {
      assert Soft(m, m', Page(s + run.len - 1));
    }
  }

  // Changing the links of a list is soft outside and inside of it.
  lemma LinksAreSoft(m: Memory, m': Memory, c: seq<Link>, tag: Tag, p: nat)
    requires ListAt(m, c, tag) && LinksOnly(m, m', c) && Page(p) in m
    ensures Soft(m, m', Page(p))
  {
    if Page(p) in c {
      var i :| 0 <= i < |c| && c[i] == Page(p);
      assert m[c[i]].next == After(c, i) && After(c, i) in c;
      assert m[Page(p)].next != Null by { if i + 1 < |c| { assert c[i + 1].Page?; } }
    }
  }

  // ----- allocating k pages from the free run at s

  // One run becomes two of the same kind.
  function Cut(runs: Runs, s: nat, k: nat): Runs
    requires s in runs && 0 < k < runs[s].len
  {
    runs[s := runs[s].(len := k)][s + k := runs[s].(len := runs[s].len - k)]
  }

  lemma CutLayout(runs: Runs, n: nat, s: nat, k: nat)
    requires Layout(runs, n) && s in runs && 0 < k < runs[s].len
    ensures s + k !in runs && Layout(Cut(runs, s, k), n)
  {
    var r := Cut(runs, s, k);
    forall t | t in r && End(r, t) < n ensures End(r, t) in r {
      assert t != s + k && t != s ==> End(r, t) == End(runs, t);
      assert End(r, s + k) == End(runs, s);
    }
  }

  lemma CutInRun(runs: Runs, n: nat, s: nat, k: nat, p: int)
    requires Layout(runs, n) && s in runs && 0 < k < runs[s].len && s + k !in runs
    ensures forall t :: InRun(Cut(runs, s, k), t, p) ==> InRun(runs, if t == s + k then s else t, p)
    ensures InRun(runs, s, p) ==> InRun(Cut(runs, s, k), if p < s + k then s else s + k, p)
  {
  }

  function Rekind(runs: Runs, s: nat, kind: Kind): Runs
    requires s in runs
  {
    runs[s := runs[s].(kind := kind)]
  }

  lemma RekindLayout(runs: Runs, n: nat, s: nat, kind: Kind)
    requires Layout(runs, n) && s in runs
    ensures Layout(Rekind(runs, s, kind), n)
    ensures forall p, t :: InRun(Rekind(runs, s, kind), t, p) <==> InRun(runs, t, p)
  {
    var r := Rekind(runs, s, kind);
    forall t | t in r && End(r, t) < n ensures End(r, t) in r {
      assert End(r, t) == End(runs, t);
    }
  }

  // Giving k pages of the free run at s away.
  function Split(runs: Runs, s: nat, k: nat): Runs
    requires s in runs && 0 < k <= runs[s].len
  {
    Rekind(if k < runs[s].len then Cut(runs, s, k) else runs, s, PageRun)
  }

  lemma SplitLayout(runs: Runs, n: nat, s: nat, k: nat)
    requires Layout(runs, n) && Coalesced(runs) && s in runs && runs[s].kind == FreeRun && 0 < k <= runs[s].len
    ensures Layout(Split(runs, s, k), n) && Coalesced(Split(runs, s, k))
  {
    hide Layout;
    if k < runs[s].len {
      CutLayout(runs, n, s, k);
      RekindLayout(Cut(runs, s, k), n, s, PageRun);
    } else {
      RekindLayout(runs, n, s, PageRun);
    }
    var r := Split(runs, s, k);
    forall t | t in r && r[t].kind == FreeRun && End(r, t) in r ensures r[End(r, t)].kind != FreeRun {
      if k < runs[s].len && t == s + k {
        assert End(r, t) == End(runs, s);
      } else {
        assert End(r, t) == End(runs, t);
      }
    }
  }

  lemma SplitNoLoose(runs: Runs, s: nat, k: nat)
    requires NoLoose(runs) && s in runs && 0 < k <= runs[s].len
    ensures NoLoose(Split(runs, s, k))
  {
  }

  lemma SplitFreePages(runs: Runs, n: nat, s: nat, k: nat)
    requires Layout(runs, n) && s in runs && runs[s].kind == FreeRun && 0 < k <= runs[s].len
    ensures Interval(s, s + k) <= FreeSet(runs, n)
    ensures FreeSet(Split(runs, s, k), n) == FreeSet(runs, n) - Interval(s, s + k)
    ensures |FreeSet(Split(runs, s, k), n)| == |FreeSet(runs, n)| - k
  {
    var runs' := Split(runs, s, k);
    forall p | Within(p, s, s + k) ensures IsFree(runs, p) && !IsFree(runs', p) {
      assert InRun(runs, s, p);
      if t :| InRun(runs', t, p) && runs'[t].kind == FreeRun {
        SplitRuns(runs, n, s, k, t, p);
      }
    }
    forall p | !Within(p, s, s + k) ensures IsFree(runs', p) <==> IsFree(runs, p) {
      SplitElsewhere(runs, n, s, k, p);
    }
    IntervalSize(s, s + k);
  }

  lemma SplitRuns(runs: Runs, n: nat, s: nat, k: nat, t: nat, p: int)
    requires Layout(runs, n) && s in runs && runs[s].kind == FreeRun && 0 < k <= runs[s].len
    requires InRun(Split(runs, s, k), t, p) && Split(runs, s, k)[t].kind == FreeRun
    ensures !Within(p, s, s + k) && IsFree(runs, p)
  {
    if k < runs[s].len { CutLayout(runs, n, s, k); CutInRun(runs, n, s, k, p); }
    if t == s + k && k < runs[s].len {
      assert InRun(runs, s, p);
    } else {
      assert InRun(runs, t, p) && t != s;
      if InRun(runs, s, p) { RunUnique(runs, n, s, t, p); }
    }
  }

  lemma SplitElsewhere(runs: Runs, n: nat, s: nat, k: nat, p: int)
    requires Layout(runs, n) && s in runs && runs[s].kind == FreeRun && 0 < k <= runs[s].len
    requires !Within(p, s, s + k)
    ensures IsFree(Split(runs, s, k), p) <==> IsFree(runs, p)
  {
    var runs' := Split(runs, s, k);
    if t :| InRun(runs, t, p) && runs[t].kind == FreeRun {
      if k < runs[s].len { CutLayout(runs, n, s, k); CutInRun(runs, n, s, k, p); }
      assert InRun(runs', if t == s then s + k else t, p);
    }
    if t :| InRun(runs', t, p) && runs'[t].kind == FreeRun {
      SplitRuns(runs, n, s, k, t, p);
    }
  }

  // ----- giving pages back

  // Two neighbouring runs become one loose run.
  function Merged(runs: Runs, a: nat, b: nat): Runs
    requires a in runs && b in runs && a != b
  {
    (runs - {b})[a := Run(runs[a].len + runs[b].len, Loose)]
  }

  lemma MergedLayout(runs: Runs, n: nat, a: nat, b: nat)
    requires Layout(runs, n) && a in runs && b in runs && b == End(runs, a)
    ensures Layout(Merged(runs, a, b), n)
  {
    var r := Merged(runs, a, b);
    forall t | t in r && End(r, t) < n ensures End(r, t) in r {
      if t == a {
        assert End(r, t) == End(runs, b);
      } else {
        assert End(r, t) == End(runs, t) && End(runs, t) != b;
      }
    }
  }

  lemma MergedCoalesced(runs: Runs, n: nat, a: nat, b: nat)
    requires Layout(runs, n) && Coalesced(runs) && a in runs && b in runs && b == End(runs, a)
    ensures Coalesced(Merged(runs, a, b))
  {
    var r := Merged(runs, a, b);
    forall t | t in r && r[t].kind == FreeRun && End(r, t) in r ensures r[End(r, t)].kind != FreeRun {
      assert End(r, t) == End(runs, t);
    }
  }

  // Pages of free runs and of runs on their way to the free list.
  ghost predicate IsOpen(runs: Runs, p: int) {
    exists s :: InRun(runs, s, p) && (runs[s].kind == FreeRun || runs[s].kind == Loose)
  }

  ghost predicate NoLoose(runs: Runs) { forall s :: s in runs ==> runs[s].kind != Loose }

  lemma OpenIsFree(runs: Runs, p: int)
    requires NoLoose(runs)
    ensures IsOpen(runs, p) <==> IsFree(runs, p)
  {
  }

  lemma LoosenOpens(runs: Runs, n: nat, s: nat, p: int)
    requires Layout(runs, n) && s in runs
    ensures IsOpen(Rekind(runs, s, Loose), p) <==> IsOpen(runs, p) || InRun(runs, s, p)
  {
    var r := Rekind(runs, s, Loose);
    if t :| InRun(runs, t, p) && (runs[t].kind == FreeRun || runs[t].kind == Loose) {
      assert InRun(r, t, p);
    }
    if InRun(runs, s, p) { assert InRun(r, s, p); }
    if t :| InRun(r, t, p) && (r[t].kind == FreeRun || r[t].kind == Loose) {
      assert InRun(runs, t, p);
    }
  }

  lemma MergedOpen(runs: Runs, n: nat, a: nat, b: nat, p: int)
    requires Layout(runs, n) && a in runs && b in runs && b == End(runs, a)
    requires runs[a].kind == FreeRun || runs[a].kind == Loose
    requires runs[b].kind == FreeRun || runs[b].kind == Loose
    ensures IsOpen(Merged(runs, a, b), p) <==> IsOpen(runs, p)
  {
    var r := Merged(runs, a, b);
    if t :| InRun(runs, t, p) && (runs[t].kind == FreeRun || runs[t].kind == Loose) {
      assert InRun(r, if t == b then a else t, p);
    }
    if t :| InRun(r, t, p) && (r[t].kind == FreeRun || r[t].kind == Loose) {
      assert InRun(runs, if t == a && p >= b then b else t, p);
    }
  }

  lemma ListedOpen(runs: Runs, s: nat, p: int)
    requires s in runs && runs[s].kind == Loose
    ensures IsOpen(Rekind(runs, s, FreeRun), p) <==> IsOpen(runs, p)
  {
    var r := Rekind(runs, s, FreeRun);
    if t :| InRun(runs, t, p) && (runs[t].kind == FreeRun || runs[t].kind == Loose) { assert InRun(r, t, p); }
    if t :| InRun(r, t, p) && (r[t].kind == FreeRun || r[t].kind == Loose) { assert InRun(runs, t, p); }
  }

  // The free pages after a run of k pages has been given back.
  lemma FreePagesGrow(runs: Runs, runs': Runs, n: nat, s: nat)
    requires Layout(runs, n) && NoLoose(runs) && NoLoose(runs') && s in runs && runs[s].kind != FreeRun
    requires forall p :: IsOpen(runs', p) <==> IsOpen(Rekind(runs, s, Loose), p)
    ensures FreeSet(runs', n) == FreeSet(runs, n) + Interval(s, End(runs, s))
    ensures |FreeSet(runs', n)| == |FreeSet(runs, n)| + runs[s].len
  {
    forall p ensures IsFree(runs', p) <==> IsFree(runs, p) || Within(p, s, End(runs, s)) {
      OpenIsFree(runs, p);
      OpenIsFree(runs', p);
      LoosenOpens(runs, n, s, p);
    }
    forall p | Within(p, s, End(runs, s)) ensures !IsFree(runs, p) {
      assert InRun(runs, s, p);
      if t :| InRun(runs, t, p) && runs[t].kind == FreeRun { RunUnique(runs, n, s, t, p); }
    }
    IntervalSize(s, End(runs, s));
  }

  // ----- a new pool

  lemma NewGood(m: Memory, n: nat)
    requires n > 0 && Head(0) in m && m[Head(0)].next == Page(0) && (forall i: nat :: Page(i) in m <==> i < n)
    requires m[Page(0)] == Record(Count(n), Head(0), Tagged(Head(0), PageTag))
    requires forall i :: 0 < i < n ==> m[Page(i)] == Record(Count(0), Null, Tagged(Null, PageTag))
    ensures var runs := map[0 := Run(n, FreeRun)];
      Good(m, n, runs, [Head(0), Page(0)]) && NoLoose(runs) && |FreeSet(runs, n)| == n
  {
    var runs := map[0 := Run(n, FreeRun)];
    assert RunAt(m, 0, runs[0]);
    forall p | 0 <= p < n ensures IsFree(runs, p) {
      assert InRun(runs, 0, p);
    }
    IntervalSize(0, n);
    assert FreeSet(runs, n) == Interval(0, n);
  }

  lemma EmptyList(m: Memory, h: nat, tag: Tag)
    requires Head(h) in m && m[Head(h)].next == Head(h)
    ensures ListAt(m, [Head(h)], tag)
  {
  }
}
