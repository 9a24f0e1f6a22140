// The slab pool: the page allocator over its page records.
module Slab {
  import opened SlabPages
  import opened SlabRuns
  import opened SlabPageOps
  import opened SlabPageFree
  import opened Counting

  class PagePool {
    const pages: array<Record>   // pool->pages up to pool->last
    const heads: array<Record>   // pool->free and the slots
    var pfree: nat

    ghost var runs: Runs
    ghost var list: seq<Link>    // the free list

    ghost function Mem(): (m: Memory)
      reads pages, heads
    {
      (map n: nat | n < pages.Length :: Page(n) := pages[n]) + (map h: nat | h < heads.Length :: Head(h) := heads[h])
    }

    lemma MemAt(l: Link)
      ensures l in Mem() <==> (l.Page? && l.n < pages.Length) || (l.Head? && l.h < heads.Length)
      ensures l in Mem() ==> Mem()[l] == if l.Page? then pages[l.n] else heads[l.h]
    {
    }

    // A pool of n pages and the given number of slots.
    constructor (n: nat, slots: nat)
      requires n > 0
      ensures Valid() && fresh(pages) && fresh(heads)
      ensures pages.Length == n && heads.Length == slots + 1 && pfree == n
      ensures runs == map[0 := Run(n, FreeRun)] && list == [Head(0), Page(0)]
      ensures forall i, tag :: 0 < i <= slots ==> ListAt(Mem(), [Head(i)], tag)
    {
      pages := new Record[n](i => if i == 0 then Record(Count(n), Head(0), Tagged(Head(0), PageTag)) else Zero);
      heads := new Record[slots + 1](h => Record(Count(0), if h == 0 then Page(0) else Head(h), NoLinks));
      pfree, runs, list := n, map[0 := Run(n, FreeRun)], [Head(0), Page(0)];
      new;
      NewPool(n, slots);
    }

    lemma NewPool(n: nat, slots: nat)
      requires pages != heads && n > 0 && pages.Length == n && heads.Length == slots + 1
      requires runs == map[0 := Run(n, FreeRun)] && list == [Head(0), Page(0)] && pfree == n
      requires heads[0].next == Page(0) && forall i :: 0 < i <= slots ==> heads[i].next == Head(i)
      requires pages[0] == Record(Count(n), Head(0), Tagged(Head(0), PageTag)) && forall i :: 0 < i < n ==> pages[i] == Zero
      ensures Valid()
      ensures forall i, tag :: 0 < i <= slots ==> ListAt(Mem(), [Head(i)], tag)
    {
      hide Good, ListAt, NoLoose, FreeSet;
      NewGood(Mem(), n);
      forall i, tag | 0 < i <= slots ensures ListAt(Mem(), [Head(i)], tag) {
        EmptyList(Mem(), i, tag);
      }
    }

    ghost predicate Sound()
      reads this, pages, heads
    {
      pages != heads && Good(Mem(), pages.Length, runs, list) && NoLoose(runs)
    }

    ghost predicate Valid()
      reads this, pages, heads
    {
      && Sound()
      && pfree == |FreeSet(runs, pages.Length)|
    }

    // The link to the next page of a list.
    function NextOf(l: Link): (next: Link)
      requires (l.Page? && l.n < pages.Length) || (l.Head? && l.h < heads.Length)
      reads pages, heads
    {
      if l.Head? then heads[l.h].next else pages[l.n].next
    }

    method SetNext(l: Link, next: Link)
      requires pages != heads && l in Mem()
      modifies pages, heads
      ensures Mem() == WithNext(old(Mem()), l, next)
    {
      if l.Head? {
        heads[l.h] := heads[l.h].(next := next);
      } else {
        pages[l.n] := pages[l.n].(next := next);
      }
    }

    method SetPrev(l: Link, prev: Tagged)
      requires pages != heads && l in Mem()
      modifies pages, heads
      ensures Mem() == WithPrev(old(Mem()), l, prev)
    {
      if l.Head? {
        heads[l.h] := heads[l.h].(prev := prev);
      } else {
        pages[l.n] := pages[l.n].(prev := prev);
      }
    }

    method SetSlab(n: nat, slab: SlabPages.Slab)
      requires pages != heads && n < pages.Length
      modifies pages
      ensures Mem() == old(Mem())[Page(n) := old(Mem())[Page(n)].(slab := slab)]
    {
      pages[n] := pages[n].(slab := slab);
    }

    method SetPage(n: nat, r: Record)
      requires pages != heads && n < pages.Length
      modifies pages
      ensures Mem() == old(Mem())[Page(n) := r]
    {
      pages[n] := r;
    }

    // Links the neighbours of a page to each other.
    method Unlink(n: nat)
      requires pages != heads && n < pages.Length && Mem()[Page(n)].prev.ptr in Mem() && Mem()[Page(n)].next in Mem()
      modifies pages, heads
      ensures Mem() == Unlinked(old(Mem()), Page(n))
    {
      var next, prev := pages[n].next, pages[n].prev;
      SetNext(prev.ptr, next);
      SetPrev(next, prev);
    }

    // Fills the records from a up to b.
    method Stamp(a: nat, b: nat, r: Record)
      requires pages != heads && b <= pages.Length
      modifies pages
      ensures Stamped(old(Mem()), Mem(), a, b, r)
    {
      var p := a;
      while p < b
        invariant a <= p && (p <= b || p == a)
        invariant forall i :: a <= i < p ==> pages[i] == r
        invariant forall i :: 0 <= i < pages.Length && !(a <= i < p) ==> pages[i] == old(pages[i])
      {
        pages[p] := r;
        p := p + 1;
      }
    }

    // The last page of the rest points at its new head, which gets its length.
    method MarkTail(s: nat, len: nat, k: nat)
      requires pages != heads && 0 < k < len && s + len <= pages.Length
      modifies pages, heads
      ensures Mem() == TailMarked(old(Mem()), s, len, k)
    {
      SetPrev(Page(s + len - 1), Tagged(Page(s + k), PageTag));
      SetSlab(s + k, Count(len - k));
    }

    // Page `to` takes the place of page `from` in its list.
    method Replace(from: nat, to: nat)
      requires pages != heads && from < pages.Length && to < pages.Length && from != to && Mem()[Page(from)].prev.tag == PageTag
      requires Mem()[Page(from)].prev.ptr in Mem() && Mem()[Page(from)].next in Mem()
      modifies pages, heads
      ensures Mem() == Replaced(old(Mem()), Page(from), Page(to))
    {
      ghost var m := Mem();
      var next, prev := pages[from].next, pages[from].prev;
      SetNext(Page(to), next);
      SetPrev(Page(to), prev);
      assert Mem() == WithPrev(WithNext(m, Page(to), m[Page(from)].next), Page(to), m[Page(from)].prev);
      SetNext(prev.ptr, Page(to));
      SetPrev(next, Tagged(Page(to), PageTag));
    }

    // The rest of the free run at s, from page s + k on, takes its place.
    method MoveHead(s: nat, len: nat, k: nat)
      requires pages != heads && 0 < k < len && s + len <= pages.Length
      requires var m1 := TailMarked(Mem(), s, len, k);
        m1[Page(s)].prev.ptr in m1 && m1[Page(s)].next in m1 && m1[Page(s)].prev.tag == PageTag
      modifies pages, heads
      ensures Mem() == Replaced(TailMarked(old(Mem()), s, len, k), Page(s), Page(s + k))
    {
      MarkTail(s, len, k);
      Replace(s, s + k);
    }

    method TakeWhole(s: nat, ghost i: nat, ghost len: nat)
      requires pages != heads && s + len <= pages.Length && s < pages.Length && Ready(Mem(), list, i, s, len)
      modifies pages, heads
      ensures Taken(old(Mem()), Mem(), s, len, len, list, Without(list, i))
    {
      TakeAll(Mem(), list, i, s, len);
      Unlink(s);
    }

    // The first k pages of the run at s leave the free list.
    method TakePages(s: nat, k: nat, ghost i: nat, ghost n: nat)
      requires pages != heads && s < pages.Length && s + n <= pages.Length
      requires Ready(Mem(), list, i, s, n) && 0 < k <= n
      modifies pages, heads
      ensures Taken(old(Mem()), Mem(), s, n, k, list, if k < n then list[i := Page(s + k)] else Without(list, i))
    {
      hide Taken, Ready, Mem;
      RunLength(s, i, n);
      var len := pages[s].slab.n;
      if len > k {
        TakeFront(s, k, i, len);
      } else {
        TakeWhole(s, i, len);
      }
    }

    lemma RunLength(s: nat, i: nat, n: nat)
      requires s < pages.Length && Ready(Mem(), list, i, s, n)
      ensures pages[s].slab == Count(n)
    {
      hide ListAt;
      assert Mem()[Page(s)].slab == Count(n);
    }

    method TakeFront(s: nat, k: nat, ghost i: nat, len: nat)
      requires pages != heads && s < pages.Length && s + len <= pages.Length
      requires Ready(Mem(), list, i, s, len) && 0 < k < len
      modifies pages, heads
      ensures Taken(old(Mem()), Mem(), s, len, k, list, list[i := Page(s + k)])
    {
      hide Taken, Ready, Mem, TailMarked, Replaced;
      ghost var m1 := TakePart(Mem(), list, i, s, len, k);
      MoveHead(s, len, k);
    }

    // The k pages from s on carry the marks of an allocation.
    method MarkPages(s: nat, k: nat)
      requires pages != heads && 0 < k && s + k <= pages.Length
      modifies pages
      ensures Marked(old(Mem()), Mem(), s, k)
    {
      hide Mem;
      MemAt(Page(s));
      SetPage(s, Record(SlabPages.Slab.Start(k), Null, NoLinks));
      Stamp(s + 1, s + k, Inside);
    }

    lemma Anchored()
      requires Valid()
      ensures 0 < |list| && 0 < heads.Length && forall j :: 0 < j < |list| ==> list[j].Page?
    {
      hide Layout, Coalesced, RunsAt;
      RingAt(Mem(), list, PageTag, 0);
    }

    lemma RingOf(i: nat)
      requires Valid() && i < |list|
      ensures |list| > 0 && list[0] == Head(0) && 0 < heads.Length && (i == 0 ==> heads[0].next == After(list, 0))
      ensures i > 0 ==> list[i].Page? && list[i].n in runs && list[i].n < pages.Length && pages[list[i].n].next == After(list, i)
      ensures i > 0 ==> pages[list[i].n].slab == Count(runs[list[i].n].len)
    {
      hide Layout, Coalesced;
      RingAt(Mem(), list, PageTag, i);
      RingAt(Mem(), list, PageTag, 0);
      if i > 0 {
        GoodReady(Mem(), pages.Length, runs, list, i);
      }
    }

    // Finds the first run in the free list with k pages.
    method FindRun(k: nat) returns (page: Link, ghost i: nat)
      requires Valid()
      ensures page == if i < |list| then list[i] else Head(0)
      ensures 0 < i <= |list| && (page == Head(0) <==> i == |list|)
      ensures forall j :: 0 < j < i ==> list[j].Page? && list[j].n in runs && runs[list[j].n].len < k
      ensures i < |list| ==> page.Page? && page.n in runs && runs[page.n].len >= k
    {
      hide Valid;
      Anchored();
      page := heads[0].next;
      i := 1;
      RingOf(0);
      while page != Head(0)
        invariant 0 < i <= |list| && page == if i < |list| then list[i] else Head(0)
        invariant forall j :: 0 < j < i ==> list[j].Page? && list[j].n in runs && runs[list[j].n].len < k
        decreases |list| - i
      {
        RingOf(i);
        if pages[page.n].slab.n >= k {
          return;
        }
        page := pages[page.n].next;
        i := i + 1;
      }
    }

    method AllocPages(k: nat) returns (page: Link)
      requires Valid() && 0 < k
      modifies this, pages, heads
      ensures Valid()
      ensures page == Null ==> runs == old(runs) && list == old(list) && Mem() == old(Mem()) && pfree == old(pfree)
      ensures page == Null <==> !exists a: nat :: FreeStretch(old(runs), pages.Length, a, k)
      ensures page != Null ==>
        && page.Page? && page.n in old(runs) && old(runs)[page.n].kind == FreeRun && k <= old(runs)[page.n].len
        && runs == Split(old(runs), page.n, k) && pfree == old(pfree) - k
      ensures ForeignKept(old(Mem()), Mem(), old(runs))
    {
      hide Layout, Coalesced, RunsAt, ListAt, FreeListed, FreeStretch, FreeSet, Split;
      ghost var i;
      page, i := FindRun(k);
      ServableIff(runs, pages.Length, k);
      if page == Head(0) {
        assert i == |list|;
        NoneLongEnough(k, i);
        return Null;
      }
      GoodReady(Mem(), pages.Length, runs, list, i);
      Take(page.n, k, i);
    }

    lemma NoneLongEnough(k: nat, i: nat)
      requires Valid() && i == |list| && forall j :: 0 < j < i ==> list[j].Page? && list[j].n in runs && runs[list[j].n].len < k
      ensures !exists s :: s in runs && runs[s].kind == FreeRun && runs[s].len >= k
    {
      forall s | s in runs && runs[s].kind == FreeRun ensures runs[s].len < k {
        assert Page(s) in list;
      }
    }

    method TakeMarked(s: nat, k: nat, ghost i: nat, ghost n: nat)
      requires Valid() && 0 < i < |list| && list[i] == Page(s) && s in runs && runs[s] == Run(n, FreeRun) && 0 < k <= n
      modifies pages, heads
      ensures Good(Mem(), pages.Length, Split(runs, s, k), if k < n then list[i := Page(s + k)] else Without(list, i))
      ensures ForeignKept(old(Mem()), Mem(), runs)
    {
      hide Good, Layout, RunAt, ListAt, Ready, Taken, Marked, FreeSet, Split, ForeignKept, Interval;
      InPool(s);
      GoodReady(Mem(), pages.Length, runs, list, i);
      TakePages(s, k, i, n);
      ghost var m1 := Mem();
      MarkPages(s, k);
      AllocGood(old(Mem()), m1, Mem(), pages.Length, runs, list, i, k);
    }

    method Take(s: nat, k: nat, ghost i: nat)
      requires Valid() && 0 < i < |list| && list[i] == Page(s) && s in runs && runs[s].kind == FreeRun && 0 < k <= runs[s].len
      modifies this, pages, heads
      ensures Valid() && runs == Split(old(runs), s, k) && pfree == old(pfree) - k
      ensures ForeignKept(old(Mem()), Mem(), old(runs))
    {
      hide Good, Layout, RunAt, ListAt, Ready, Taken, Marked, FreeSet, Split, ForeignKept, Interval;
      InPool(s);
      GoodReady(Mem(), pages.Length, runs, list, i);
      SplitFreePages(runs, pages.Length, s, k);
      SplitNoLoose(runs, s, k);
      ghost var n := runs[s].len;
      TakeMarked(s, k, i, n);
      list := if k < n then list[i := Page(s + k)] else Without(list, i);
      runs := Split(runs, s, k);
      pfree := pfree - k;
    }

    lemma InPool(s: nat)
      requires Sound() && s in runs
      ensures s < End(runs, s) <= pages.Length && Layout(runs, pages.Length)
    {
    }

    // The first record gets the length, the other ones nothing.
    method Clear(s: nat, k: nat)
      requires pages != heads && 0 < k && s + k <= pages.Length
      modifies pages
      ensures Cleared(old(Mem()), Mem(), s, k)
    {
      SetSlab(s, Count(k));
      Stamp(s + 1, s + k, Zero);
    }

    // The runs at a and b become one, the free one of them, f, leaving its list.
    method Join(a: nat, b: nat, f: nat)
      requires pages != heads && a < pages.Length && b < pages.Length && a != b && (f == a || f == b)
      requires Mem()[Page(f)].prev.ptr in Mem() && Mem()[Page(f)].next in Mem()
      requires pages[a].slab.Count? && pages[b].slab.Count?
      modifies pages, heads
      ensures Joins(old(Mem()), Mem(), a, b, f, old(pages[a].slab.n + pages[b].slab.n))
    {
      hide Mem;
      MemAt(Page(a));
      MemAt(Page(b));
      MemAt(Page(f));
      SetSlab(a, Count(pages[a].slab.n + pages[b].slab.n));
      Unlink(f);
      SetPage(b, Zero);
    }

    ghost predicate Loosened(s: nat)
      reads this, pages, heads
    {
      pages != heads && Good(Mem(), pages.Length, runs, list) && OnlyLoose(runs, s)
    }

    method JoinNext(s: nat) returns (more: nat)
      requires Loosened(s)
      modifies `runs, `list, pages, heads
      ensures Loosened(s) && ClearAfter(runs, s) && runs[s].len == old(runs[s].len) + more
      ensures Grown(old(Mem()), Mem(), old(runs), runs, s, s)
    {
      hide Layout, Coalesced, RunsAt, ListAt, FreeListed, Joins, Grown, Foreign;
      NextRun(Mem(), pages.Length, runs, s);
      StayedGrown(Mem(), runs, s);
      assert Mem()[Page(s)] == pages[s];
      var join := s + pages[s].slab.n;
      more := 0;
      if join < pages.Length {
        if pages[join].prev.tag == PageTag && pages[join].next != Null {
          FreeRunLinks(Mem(), pages.Length, runs, list, join);
          more := pages[join].slab.n;
          Join(s, join, join);
          ghost var i := JoinStep(old(Mem()), Mem(), pages.Length, runs, list, s, s, join, join);
          MergedClears(runs, pages.Length, s, join);
          runs, list := Merged(runs, s, join), Without(list, i);
        }
      }
    }

    method JoinPrev(s: nat) returns (page: nat, more: nat)
      requires Loosened(s) && ClearAfter(runs, s)
      modifies `runs, `list, pages, heads
      ensures Loosened(page) && ClearAfter(runs, page) && ClearBefore(runs, page) && page in runs && runs[page].len == old(runs[s].len) + more
      ensures Grown(old(Mem()), Mem(), old(runs), runs, s, page)
    {
      hide Layout, Coalesced, RunsAt, ListAt, FreeListed, Joins, Grown;
      page, more := s, 0;
      StayedGrown(Mem(), runs, s);
      if s == 0 {
        NothingBefore(Mem(), pages.Length, runs);
        return;
      }
      ghost var t := PrevRun(Mem(), pages.Length, runs, s);
      var join := s - 1;
      assert Mem()[Page(join)] == pages[join];
      if pages[join].prev.tag == PageTag {
        if pages[join].slab == Count(0) {
          join := pages[join].prev.ptr.n;
        }
        assert Mem()[Page(join)] == pages[join];
        if pages[join].next != Null {
          more := JoinInto(s, join);
          page := join;
        }
      }
    }

    // The run at s becomes the end of the free run before it.
    method JoinInto(s: nat, join: nat) returns (more: nat)
      requires Loosened(s) && ClearAfter(runs, s) && join in runs && runs[join].kind == FreeRun && End(runs, join) == s
      modifies `runs, `list, pages, heads
      ensures Loosened(join) && ClearAfter(runs, join) && ClearBefore(runs, join) && runs[join].len == old(runs[s].len) + more
      ensures Grown(old(Mem()), Mem(), old(runs), runs, s, join)
    {
      hide Layout, Coalesced, RunsAt, ListAt, FreeListed, Joins, Grown;
      NextRun(Mem(), pages.Length, runs, s);
      FreeRunLinks(Mem(), pages.Length, runs, list, join);
      more := pages[join].slab.n;
      Join(join, s, join);
      ghost var i := JoinStep(old(Mem()), Mem(), pages.Length, runs, list, s, join, s, join);
      MergedClears(runs, pages.Length, join, s);
      runs, list := Merged(runs, join, s), Without(list, i);
    }

    // The run enters the free list.
    method PushFree(s: nat, n: nat)
      requires Loosened(s) && ClearAfter(runs, s) && ClearBefore(runs, s) && runs[s].len == n + 1
      modifies `runs, `list, pages, heads
      ensures pages != heads && Good(Mem(), pages.Length, runs, list) && runs == Rekind(old(runs), s, FreeRun) && NoLoose(runs)
      ensures ForeignKept(old(Mem()), Mem(), old(runs))
    {
      hide Good, ForeignKept, ListAt, RunAt, Pushed, OnlyLoose, ClearAfter, ClearBefore, Rekind;
      PushGood(Mem(), pages.Length, runs, list, s);
      PushRecords(s, n);
      runs, list := Rekind(runs, s, FreeRun), [list[0], Page(s)] + list[1..];
    }

    method PushRecords(s: nat, n: nat)
      requires pages != heads && s + n < pages.Length && Page(s + n) in Mem()
      requires var m1 := TailSet(Mem(), s, n); Head(0) in m1 && m1[Head(0)].next in m1 && Page(s) in m1
      modifies pages, heads
      ensures Page(s + n) in old(Mem()) && Mem() == Pushed(TailSet(old(Mem()), s, n), Head(0), Page(s), PageTag)
    {
      hide TailSet, Pushed;
      MarkLast(s, n);
      PushHead(s);
    }

    method MarkLast(s: nat, n: nat)
      requires pages != heads && s + n < pages.Length
      modifies pages, heads
      ensures Mem() == TailSet(old(Mem()), s, n)
    {
      if n > 0 {
        SetPrev(Page(s + n), Tagged(Page(s), PageTag));
      }
    }

    // The page comes between the head of the free list and its first page.
    method PushHead(s: nat)
      requires pages != heads && Head(0) in Mem() && s < pages.Length && Mem()[Head(0)].next in Mem()
      modifies pages, heads
      ensures Mem() == Pushed(old(Mem()), Head(0), Page(s), PageTag)
    {
      SetPrev(Page(s), Tagged(Head(0), PageTag));
      SetNext(Page(s), heads[0].next);
      SetPrev(pages[s].next, Tagged(Page(s), PageTag));
      SetNext(Head(0), Page(s));
    }

    // The run at s leaves the allocated runs, a page of chunks also its slot.
    method Detach(s: nat, k: nat, ghost d: seq<Link>, ghost i: nat, ghost tag: Tag)
      requires Sound() && s in runs && runs[s].len == k
      requires runs[s].kind == PageRun || (runs[s].kind == Chunked && InSlot(Mem(), runs, d, i, tag, s))
      modifies `runs, pages, heads
      ensures Loosened(s) && runs == Rekind(old(runs), s, Loose)
      ensures Page(s) in old(Mem())
      ensures old(runs[s].kind) == PageRun ==> ForeignKept(old(Mem()), Mem(), old(runs) - {s})
      ensures old(runs[s].kind) == Chunked ==>
        && old(Mem())[Page(s)].prev.ptr in old(Mem()) && old(Mem())[Page(s)].next in old(Mem())
        && ForeignKept(Unlinked(old(Mem()), Page(s)), Mem(), old(runs) - {s})
    {
      hide Good, Cleared, InSlot, ForeignKept, Rekind, FreeSet, FreeListed, Stamped;
      InPool(s);
      Clear(s, k);
      if runs[s].kind == PageRun {
        DetachRun(old(Mem()), Mem(), pages.Length, runs, list, s);
      } else {
        DetachChunks(old(Mem()), Mem(), pages.Length, runs, list, d, i, tag, s);
      }
      assert Mem()[Page(s)] == pages[s];
      if pages[s].next != Null {
        Unlink(s);
      }
      Loosen(s);
      runs := Rekind(runs, s, Loose);
    }

    lemma Loosen(s: nat)
      requires s in runs && NoLoose(runs)
      ensures OnlyLoose(Rekind(runs, s, Loose), s)
    {
    }

    // Gives the run at s back; a page of chunks also leaves its slot's list d.
    method FreePages(s: nat, k: nat, ghost d: seq<Link>, ghost i: nat, ghost tag: Tag)
      requires Valid() && s in runs && runs[s].len == k
      requires runs[s].kind == PageRun || (runs[s].kind == Chunked && InSlot(Mem(), runs, d, i, tag, s))
      modifies this, pages, heads
      ensures Valid() && pfree == old(pfree) + k
      ensures FreeSet(runs, pages.Length) == FreeSet(old(runs), pages.Length) + Interval(s, s + k)
      ensures SameTaken(old(runs), runs, {s})
      ensures Page(s) in old(Mem())
      ensures old(runs[s].kind) == PageRun ==> ForeignKept(old(Mem()), Mem(), old(runs) - {s})
      ensures old(runs[s].kind) == Chunked ==>
        && old(Mem())[Page(s)].prev.ptr in old(Mem()) && old(Mem())[Page(s)].next in old(Mem())
        && ForeignKept(Unlinked(old(Mem()), Page(s)), Mem(), old(runs) - {s})
    {
      hide Good, Layout, Loosened, ForeignKept, SameTaken, FreeSet, Interval, InSlot, Mem;
      pfree := pfree + k;
      InPool(s);
      Detach(s, k, d, i, tag);
      Rejoin(s, k - 1, old(runs));
    }

    // The detached run at s, of n + 1 pages, joins its free neighbours.
    method Rejoin(s: nat, n: nat, ghost runs0: Runs)
      requires Loosened(s) && s in runs0 && runs == Rekind(runs0, s, Loose) && runs[s].len == n + 1
      requires Layout(runs0, pages.Length) && NoLoose(runs0) && runs0[s].kind != FreeRun
      modifies `runs, `list, pages, heads
      ensures Sound() && SameTaken(runs0, runs, {s})
      ensures FreeSet(runs, pages.Length) == FreeSet(runs0, pages.Length) + Interval(s, End(runs0, s))
      ensures |FreeSet(runs, pages.Length)| == |FreeSet(runs0, pages.Length)| + runs0[s].len
      ensures forall m :: ForeignKept(m, old(Mem()), runs0 - {s}) ==> ForeignKept(m, Mem(), runs0 - {s})
    {
      hide Good, Layout, Loosened, ForeignKept, SameTaken, Grown, ClearAfter, ClearBefore, FreeSet, Interval, Rekind;
      var more := JoinNext(s);
      ghost var m2, r2 := Mem(), runs;
      var page, more' := JoinPrev(s);
      ghost var m3, r3 := Mem(), runs;
      PushFree(page, n + more + more');
      Rejoined(old(Mem()), m2, m3, runs0, r2, r3, s, page);
    }

    lemma Rejoined(m1: Memory, m2: Memory, m3: Memory, runs0: Runs, r2: Runs, r3: Runs, s: nat, page: nat)
      requires Layout(runs0, pages.Length) && NoLoose(runs0) && s in runs0 && runs0[s].kind != FreeRun
      requires Grown(m1, m2, Rekind(runs0, s, Loose), r2, s, s) && Grown(m2, m3, r2, r3, s, page) && ForeignKept(m3, Mem(), r3)
      requires page in r3 && runs == Rekind(r3, page, FreeRun)
      ensures NoLoose(runs) && SameTaken(runs0, runs, {s})
      ensures FreeSet(runs, pages.Length) == FreeSet(runs0, pages.Length) + Interval(s, End(runs0, s))
      ensures |FreeSet(runs, pages.Length)| == |FreeSet(runs0, pages.Length)| + runs0[s].len
      ensures forall m :: ForeignKept(m, m1, runs0 - {s}) ==> ForeignKept(m, Mem(), runs0 - {s})
    {
      hide Layout, ForeignKept, SameTaken, SameOpen, FreeSet, Interval, Rekind;
      FreedPages(runs0, r2, r3, pages.Length, s, page);
      forall m | ForeignKept(m, m1, runs0 - {s}) ensures ForeignKept(m, Mem(), runs0 - {s}) {
        FreedForeign(m, m1, m2, m3, Mem(), runs0, r2, r3, s, page);
      }
    }
  }
}
