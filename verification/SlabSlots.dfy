// The slab pool: allocation and release of chunks and of whole pages.
module SlabSlots {
  import opened SlabPages
  import opened SlabRuns
  import opened SlabPageOps
  import opened SlabPageFree
  import opened SlabChunks
  import opened SlabSlotOps
  import opened SlabStats
  import opened SlabWords
  import opened Slab
  import opened Options

  class SlabPool {
    const pool: PagePool
    const end: nat                // the end of the pool, counted from the first page
    var maps: seq<seq<bool>>      // the chunk map in each page, if it has one
    var stats: seq<Stat>

    ghost var chunks: ChunkPages
    ghost var slots: Slots

    ghost predicate Sized()
      reads this, pool
    {
      pool.heads.Length == SlotCount + 1 && |maps| == pool.pages.Length && |stats| == SlotCount && |slots| == SlotCount
      && pool.pages.Length * PageSize <= end
    }

    // All is in order, but for the pages in `but` and the statistics.
    ghost predicate Nearly(but: set<nat>)
      reads this, pool, pool.pages, pool.heads
    {
      && Sized() && pool.Valid()
      && Tied(pool.Mem(), maps, pool.pages.Length, pool.runs, chunks, slots, but)
    }

    ghost predicate Valid()
      reads this, pool, pool.pages, pool.heads
    {
      Nearly({}) && StatsExact(stats, chunks)
    }

    // A pool of n pages with empty slots.
    constructor (n: nat, end: nat)
      requires n > 0 && n * PageSize <= end
      ensures Valid() && fresh(pool) && fresh(pool.pages) && fresh(pool.heads)
      ensures pool.pages.Length == n && this.end == end && forall b :: !Live(pool.runs, chunks, b)
    {
      hide Good, ListAt, PagePool.Mem, FreeSet, NoLoose, Tied, StatsExact;
      pool := new PagePool(n, SlotCount);
      this.end := end;
      maps, stats := seq(n, _ => []), seq(SlotCount, _ => Stat(0, 0, 0, 0));
      chunks, slots := map[], seq(SlotCount, i requires 0 <= i => [Head(i + 1)]);
      new;
      NewSlots();
    }

    lemma NewSlots()
      requires pool.pages.Length > 0 && Sized() && pool.Valid() && pool.runs == map[0 := Run(pool.pages.Length, FreeRun)] && chunks == map[]
      requires |slots| == SlotCount && forall i :: 0 <= i < SlotCount ==> slots[i] == [Head(i + 1)]
      requires forall i, tag :: 0 < i <= SlotCount ==> ListAt(pool.Mem(), [Head(i)], tag)
      requires forall i :: 0 <= i < SlotCount ==> stats[i].used == 0 && stats[i].total == 0
      ensures Valid()
      ensures forall b :: !Live(pool.runs, chunks, b)
    {
      hide Good, ListAt, StatsExact, PagePool.Mem, FreeSet, NoLoose;
      EmptyExact(stats);
      NewTied(pool.Mem(), maps, pool.pages.Length, slots);
    }

    // The pool is good with its new records.
    lemma PoolKept(m: Memory)
      requires pool.pages != pool.heads && Good(m, pool.pages.Length, pool.runs, pool.list) && NoLoose(pool.runs)
      requires pool.pfree == |FreeSet(pool.runs, pool.pages.Length)| && ForeignOnly(m, pool.Mem(), pool.runs)
      ensures pool.Valid()
    {
      ForeignGood(m, pool.Mem(), pool.pages.Length, pool.runs, pool.list);
    }

    lemma Facts(but: set<nat>, p: nat)
      requires Nearly(but) && p in chunks
      ensures p < pool.pages.Length && p < |maps| && Page(p) in pool.Mem() && pool.Mem()[Page(p)] == pool.pages[p]
      ensures Shows(pool.pages[p], maps[p], chunks[p]) && Formed(chunks[p])
      ensures p !in but ==> (AllSet(chunks[p].bits) <==> pool.pages[p].next == Null) && !NoneSet(chunks[p].bits, Reserved(chunks[p].shift))
    {
      pool.MemAt(Page(p));
    }

    // Sets or clears one bit of a chunk map, in the page or in its record.
    method SetBit(p: nat, shift: Shift, j: nat, bit: bool, ghost was: seq<bool>)
      requires pool.pages != pool.heads && p < pool.pages.Length && p < |maps| && j < |was|
      requires Shows(pool.pages[p], maps[p], ChunkPage(shift, was))
      modifies `maps, pool.pages
      ensures Page(p) in old(pool.Mem())
      ensures pool.Mem() == Remapped(old(pool.Mem()), p, shift, was[j := bit])
      ensures maps == RemappedIn(old(maps), p, shift, was[j := bit])
    {
      if shift < ExactShift {
        maps := maps[p := maps[p][j := bit]];
      } else if shift == ExactShift {
        pool.SetSlab(p, ExactMap(pool.pages[p].slab.bits[j := bit]));
      } else {
        pool.SetSlab(p, BigMap(shift, pool.pages[p].slab.bits[j := bit]));
      }
    }

    method MarkChunk(p: nat, shift: Shift, j: nat, bit: bool)
      requires Nearly({p}) && p in chunks && chunks[p].shift == shift && Reserved(shift) <= j < Chunks(shift)
      modifies `maps, `chunks, pool.pages
      ensures Nearly({p}) && j < |old(chunks)[p].bits| && chunks == Rebit(old(chunks), p, j, bit)
      ensures p < pool.pages.Length && (pool.pages[p].next == Null <==> old(pool.pages[p].next) == Null)
    {
      hide Good, Tied, ForeignOnly, FreeSet, Shows, Remapped, RemappedIn, PagePool.Mem;
      Facts({p}, p);
      ghost var m, bits := pool.Mem(), chunks[p].bits[j := bit];
      TiedRebit(m, maps, pool.pages.Length, pool.runs, chunks, slots, {p}, p, bits);
      RemappedSame(m, maps, p, shift, bits);
      SetBit(p, shift, j, bit, chunks[p].bits);
      chunks := Rebit(chunks, p, j, bit);
      PoolKept(m);
      pool.MemAt(Page(p));
    }

    // The page leaves its list: its links become null.
    method Unlink(p: nat, tag: Tag)
      requires pool.pages != pool.heads && p < pool.pages.Length
      requires pool.Mem()[Page(p)].prev.ptr in pool.Mem() && pool.Mem()[Page(p)].next in pool.Mem()
      modifies pool.pages, pool.heads
      ensures pool.Mem() == Unlisted(old(pool.Mem()), p, tag)
    {
      pool.Unlink(p);
      pool.SetNext(Page(p), Null);
      pool.SetPrev(Page(p), Tagged(Null, tag));
    }

    method Unslot(p: nat, shift: Shift)
      requires Nearly({p}) && p in chunks && chunks[p].shift == shift && p < pool.pages.Length && pool.pages[p].next != Null
      modifies `slots, pool.pages, pool.heads
      ensures Nearly({p}) && pool.pages[p].next == Null
    {
      hide Good, Tied, ForeignOnly, FreeSet, Unlisted, InSlot, PagePool.Mem;
      Facts({p}, p);
      ghost var m := pool.Mem();
      ghost var i := TiedUnlist(m, maps, pool.pages.Length, pool.runs, chunks, slots, {p}, p);
      UnlistedNext(m, p, TagFor(shift));
      Unlink(p, TagFor(shift));
      slots := slots[SlotOf(shift) := Without(slots[SlotOf(shift)], i)];
      PoolKept(m);
      pool.MemAt(Page(p));
    }

    // The page comes between the head of the slot and its first page.
    method PushSlot(p: nat, h: nat, tag: Tag)
      requires pool.pages != pool.heads && p < pool.pages.Length && Head(h) in pool.Mem()
      requires pool.Mem()[Head(h)].next in pool.Mem() && pool.Mem()[Head(h)].next != Page(p)
      modifies pool.pages, pool.heads
      ensures pool.Mem() == Pushed(old(pool.Mem()), Head(h), Page(p), tag)
    {
      ghost var m := pool.Mem();
      PushedInOrder(m, Head(h), Page(p), tag);
      hide Pushed, WithPrev, WithNext;
      pool.SetNext(Page(p), pool.heads[h].next);
      pool.SetNext(Head(h), Page(p));
      pool.SetPrev(Page(p), Tagged(Head(h), tag));
      pool.MemAt(Page(p));
      pool.SetPrev(pool.pages[p].next, Tagged(Page(p), tag));
    }

    method Reslot(p: nat, shift: Shift)
      requires Nearly({p}) && p in chunks && chunks[p].shift == shift && p < pool.pages.Length && pool.pages[p].next == Null
      modifies `slots, pool.pages, pool.heads
      ensures Nearly({p}) && pool.pages[p].next != Null
    {
      hide Good, Tied, ForeignOnly, FreeSet, Pushed, PagePool.Mem;
      Facts({p}, p);
      ghost var m := pool.Mem();
      TiedRelist(m, maps, pool.pages.Length, pool.runs, chunks, slots, {p}, p);
      NotFirst(p, shift);
      PushSlot(p, shift - 3 + 1, TagFor(shift));
      slots := slots[SlotOf(shift) := [slots[SlotOf(shift)][0], Page(p)] + slots[SlotOf(shift)][1..]];
      PoolKept(m);
      pool.MemAt(Page(p));
    }

    lemma NotFirst(p: nat, shift: Shift)
      requires Nearly({p}) && p in chunks && p < pool.pages.Length && pool.pages[p].next == Null
      ensures pool.Mem()[Head(SlotOf(shift) + 1)].next != Page(p)
    {
      hide Good, FreeSet, ForeignOnly;
      ghost var c := slots[SlotOf(shift)];
      assert SlotAt(pool.Mem(), chunks, c, shift);
      NullUnlisted(pool.Mem(), chunks, c, shift, Page(p)) by { pool.MemAt(Page(p)); }
      RingAt(pool.Mem(), c, TagFor(shift), 0);
    }

    // The page is in order again.
    lemma Settled(p: nat)
      requires Nearly({p}) && p in chunks && p < pool.pages.Length
      requires AllSet(chunks[p].bits) <==> pool.pages[p].next == Null
      requires !NoneSet(chunks[p].bits, Reserved(chunks[p].shift))
      ensures Nearly({})
    {
      hide Good, FreeSet, ChunkRuns, SlotsAt, Mapped, AllSet, NoneSet, Formed;
      pool.MemAt(Page(p));
    }

    lemma Unsettled(p: nat)
      requires Nearly({})
      ensures Nearly({p})
    {
      hide Good, FreeSet, ChunkRuns, SlotsAt, Mapped, AllSet, NoneSet, Formed;
    }

    // ----- allocation

    // The first free chunk of a page; as many as there are chunks if none is.
    method Scan(p: nat, shift: Shift) returns (j: nat)
      requires p < pool.pages.Length && p < |maps| && p in chunks && chunks[p].shift == shift
      requires Shows(pool.pages[p], maps[p], chunks[p]) && Formed(chunks[p])
      ensures j <= Chunks(shift) == |chunks[p].bits| && (forall i :: 0 <= i < j ==> chunks[p].bits[i])
      ensures j < Chunks(shift) ==> !chunks[p].bits[j] && Reserved(shift) <= j
      ensures j == Chunks(shift) <==> AllSet(chunks[p].bits)
    {
      Sizes(shift);
      if shift < ExactShift {
        j := FirstClearByWords(maps[p]);
      } else {
        j := FirstClear(pool.pages[p].slab.bits);
      }
    }

    // Whether chunk j was the last free one.
    method IsFull(p: nat, shift: Shift, j: nat) returns (full: bool)
      requires p < pool.pages.Length && p < |maps| && p in chunks && chunks[p].shift == shift && j < Chunks(shift)
      requires Shows(pool.pages[p], maps[p], chunks[p]) && Formed(chunks[p]) && forall i :: 0 <= i <= j ==> chunks[p].bits[i]
      ensures full <==> AllSet(chunks[p].bits)
    {
      Sizes(shift);
      if shift < ExactShift {
        full := FullFrom(maps[p], j);
      } else {
        full := AllSet(pool.pages[p].slab.bits);
      }
    }

    // A free chunk of a listed page.
    method TakeChunk(p: nat, shift: Shift, j: nat)
      requires Valid() && p in chunks && chunks[p].shift == shift && Reserved(shift) <= j < Chunks(shift)
      requires j < |chunks[p].bits| && !chunks[p].bits[j] && forall i :: 0 <= i < j ==> chunks[p].bits[i]
      modifies `maps, `chunks, `slots, `stats, pool.pages, pool.heads
      ensures Valid() && j < |old(chunks)[p].bits| && chunks == Rebit(old(chunks), p, j, true)
      ensures stats == Adjusted(old(stats), shift, 0, 1)
    {
      hide Nearly, UsedSet, UsableSet;
      Facts({}, p);
      RebitExact(stats, chunks, p, j, true);
      TakeBit(p, shift, j);
      Restat(Adjusted(stats, shift, 0, 1));
    }

    method Restat(stats': seq<Stat>)
      requires Nearly({}) && |stats'| == SlotCount
      modifies `stats
      ensures Nearly({}) && stats == stats'
    {
      hide Good, Tied, FreeSet;
      stats := stats';
    }

    method TakeBit(p: nat, shift: Shift, j: nat)
      requires Nearly({}) && p in chunks && chunks[p].shift == shift && Reserved(shift) <= j < Chunks(shift)
      requires j < |chunks[p].bits| && !chunks[p].bits[j] && forall i :: 0 <= i < j ==> chunks[p].bits[i]
      modifies `maps, `chunks, `slots, pool.pages, pool.heads
      ensures Nearly({}) && j < |old(chunks)[p].bits| && chunks == Rebit(old(chunks), p, j, true)
    {
      hide Nearly, Shows, NoneSet;
      Facts({}, p);
      Unsettled(p);
      MarkChunk(p, shift, j, true);
      Facts({p}, p);
      var full := IsFull(p, shift, j);
      if full {
        Unslot(p, shift);
      }
      SetNotNone(chunks[p].bits, Reserved(shift), j);
      Settled(p);
    }

    static lemma SetNotNone(bits: seq<bool>, k: nat, j: nat)
      requires k <= j < |bits| && bits[j]
      ensures !NoneSet(bits, k)
    {
    }

    // Fresh pages of the page allocator leave the slots alone.
    lemma PagesTaken(m: Memory, runs0: Runs, s: nat, k: nat)
      requires pool.Valid() && Sized() && Tied(m, maps, pool.pages.Length, runs0, chunks, slots, {})
      requires ForeignKept(m, pool.Mem(), runs0) && ChunksOf(runs0, pool.pages.Length, chunks)
      requires s in runs0 && runs0[s].kind == FreeRun && 0 < k <= runs0[s].len && pool.runs == Split(runs0, s, k)
      ensures Nearly({}) && !Live(runs0, chunks, Whole(s, k)) && s !in chunks && s < pool.pages.Length
      ensures forall o :: Live(pool.runs, chunks, o) <==> Live(runs0, chunks, o) || o == Whole(s, k)
      ensures s in pool.runs && pool.runs[s] == Run(k, PageRun) && ChunksOf(pool.runs, pool.pages.Length, chunks)
    {
      hide Live, Knit, Split, FreeSet, Coalesced, RunsAt, ListAt, FreeListed, ForeignKept, Sane;
      SplitLive(runs0, pool.pages.Length, chunks, s, k);
      SplitTaken(runs0, pool.pages.Length, s, k);
      KnitKept(m, pool.Mem(), maps, pool.pages.Length, runs0, chunks, slots, {});
    }

    lemma AllSane()
      requires Nearly({})
      ensures ChunksOf(pool.runs, pool.pages.Length, chunks)
    {
      hide Good, FreeSet;
    }

    lemma Unchanged(m: Memory, runs0: Runs)
      requires pool.Valid() && Sized() && Tied(m, maps, pool.pages.Length, runs0, chunks, slots, {})
      requires pool.Mem() == m && pool.runs == runs0
      ensures Nearly({})
    {
    }

    // k pages from the page allocator.
    method TakePages(k: nat) returns (page: Link)
      requires Nearly({}) && 0 < k
      modifies pool, pool.pages, pool.heads
      ensures Nearly({})
      ensures page == Null <==> !exists a: nat :: FreeStretch(old(pool.runs), pool.pages.Length, a, k)
      ensures page == Null ==> pool.runs == old(pool.runs)
      ensures page != Null ==>
        && page.Page? && page.n < pool.pages.Length && page.n !in chunks
        && page.n in pool.runs && pool.runs[page.n] == Run(k, PageRun)
        && !old(Live(pool.runs, chunks, Whole(page.n, k)))
        && forall o :: Live(pool.runs, chunks, o) <==> old(Live(pool.runs, chunks, o)) || o == Whole(page.n, k)
    {
      hide Good, Tied, FreeSet, Live, ChunksOf, Split, FreeStretch, ForeignKept;
      AllSane();
      ghost var m, runs0 := pool.Mem(), pool.runs;
      page := pool.AllocPages(k);
      if page != Null {
        PagesTaken(m, runs0, page.n, k);
      } else {
        Unchanged(m, runs0);
      }
    }

    // The page, with its map or size, alone in a list with the head of the slot.
    method WriteStart(s: nat, h: nat, slab: SlabPages.Slab, tag: Tag)
      requires pool.pages != pool.heads && s < pool.pages.Length && h < pool.heads.Length
      modifies pool.pages, pool.heads
      ensures Head(h) in old(pool.Mem()) && pool.Mem() == Started(old(pool.Mem()), s, h, slab, tag)
    {
      pool.pages[s] := Record(slab, Head(h), Tagged(Head(h), tag));
      pool.heads[h] := pool.heads[h].(next := Page(s));
    }

    // The chunk map of a new page; n of its chunks hold the map itself.
    method FirstMap(s: nat, shift: Shift) returns (slab: SlabPages.Slab, n: nat)
      requires s < |maps|
      modifies `maps
      ensures n == Reserved(shift) && slab == FirstSlab(NewPage(shift))
      ensures maps == if shift < ExactShift then old(maps)[s := NewPage(shift).bits] else old(maps)
    {
      Sizes(shift);
      if shift < ExactShift {
        var bits;
        bits, n := NewMap(shift);
        maps := maps[s := bits];
        slab := SmallShift(shift);
      } else if shift == ExactShift {
        n, slab := 0, ExactMap(Ones(1, WordBits));
      } else {
        n, slab := 0, BigMap(shift, Ones(1, Chunks(shift)));
      }
    }

    method WritePage(s: nat, shift: Shift) returns (n: nat)
      requires pool.pages != pool.heads && s < pool.pages.Length && Sized()
      modifies `maps, pool.pages, pool.heads
      ensures n == Reserved(shift) && Head(SlotOf(shift) + 1) in old(pool.Mem())
      ensures maps == if shift < ExactShift then old(maps)[s := NewPage(shift).bits] else old(maps)
      ensures pool.Mem() == Started(old(pool.Mem()), s, SlotOf(shift) + 1, FirstSlab(NewPage(shift)), TagFor(shift))
    {
      hide Started, FirstSlab, NewPage;
      var slab;
      slab, n := FirstMap(s, shift);
      WriteStart(s, shift - 3 + 1, slab, TagFor(shift));
    }

    lemma InMemory(s: nat)
      requires s < pool.pages.Length
      ensures Page(s) in pool.Mem()
    {
    }

    // An allocated page becomes the first page of an empty slot.
    method StartPage(s: nat, shift: Shift) returns (n: nat)
      requires Nearly({}) && s in pool.runs && pool.runs[s] == Run(1, PageRun) && s < pool.pages.Length
      requires slots[SlotOf(shift)] == [Head(SlotOf(shift) + 1)]
      modifies `maps, `chunks, `slots, pool`runs, pool.pages, pool.heads
      ensures Nearly({}) && n == Reserved(shift) && chunks == old(chunks)[s := NewPage(shift)]
      ensures pool.runs == Rekind(old(pool.runs), s, Chunked)
    {
      hide Good, Tied, FreeSet, ForeignOnly, Started, Sane, AllSet, FirstSlab, Rekind, NoLoose, PagePool.Mem, Ones;
      NewPageSane(shift);
      ghost var m := pool.Mem();
      InMemory(s);
      TiedStart(m, maps, pool.pages.Length, pool.runs, chunks, slots, s, NewPage(shift));
      n := WritePage(s, shift);
      ChunkedGood(m, pool.Mem(), pool.pages.Length, pool.runs, pool.list, s);
      pool.runs := Rekind(pool.runs, s, Chunked);
      chunks, slots := chunks[s := NewPage(shift)], slots[SlotOf(shift) := [Head(SlotOf(shift) + 1), Page(s)]];
    }

    // What the first link of a slot says.
    lemma FirstListed(shift: Shift)
      requires Nearly({})
      ensures pool.heads.Length == SlotCount + 1 && |slots| == SlotCount
      ensures var page := pool.heads[SlotOf(shift) + 1].next;
        if page.Page? then
          && page.n in chunks && chunks[page.n].shift == shift && page.n < pool.pages.Length && pool.pages[page.n].next != page
          && !AllSet(chunks[page.n].bits)
        else
          && page == Head(SlotOf(shift) + 1) && slots[SlotOf(shift)] == [page]
          && forall p :: p in chunks && chunks[p].shift == shift ==> AllSet(chunks[p].bits)
    {
      hide Good, FreeSet, AllSet, NoneSet;
      ghost var c := slots[SlotOf(shift)];
      assert SlotAt(pool.Mem(), chunks, c, shift);
      RingAt(pool.Mem(), c, TagFor(shift), 0);
      pool.MemAt(c[0]);
      if |c| > 1 {
        RingAt(pool.Mem(), c, TagFor(shift), 1);
        pool.MemAt(c[1]);
      } else {
        forall p | p in chunks && chunks[p].shift == shift ensures AllSet(chunks[p].bits) {
          assert Page(p) !in c;
        }
      }
    }

    ghost predicate Gained(runs0: Runs, chunks0: ChunkPages, b: Block)
      reads this, pool
    {
      !Live(runs0, chunks0, b) && forall o :: Live(pool.runs, chunks, o) <==> Live(runs0, chunks0, o) || o == b
    }

    method ServeListed(p: nat, shift: Shift, j: nat) returns (addr: nat, ghost b: Block)
      requires Valid() && p in chunks && chunks[p].shift == shift && Reserved(shift) <= j < Chunks(shift)
      requires j < |chunks[p].bits| && !chunks[p].bits[j] && forall i :: 0 <= i < j ==> chunks[p].bits[i]
      modifies `maps, `chunks, `slots, `stats, pool.pages, pool.heads
      ensures Valid() && b == Chunk(p, shift, j) && addr == Addr(b) && Gained(pool.runs, old(chunks), b)
      ensures stats == Adjusted(old(stats), shift, 0, 1)
    {
      hide Valid, Live, Rebit;
      TakeLive(pool.runs, chunks, p, j);
      TakeChunk(p, shift, j);
      b := Chunk(p, shift, j);
      addr := p * PageSize + j * Size(shift);
    }

    // A new page for an empty slot, or none.
    method ServeNew(shift: Shift) returns (addr: Option<nat>, ghost b: Block)
      requires Valid() && slots[SlotOf(shift)] == [Head(SlotOf(shift) + 1)]
      modifies `maps, `chunks, `slots, `stats, pool, pool.pages, pool.heads
      ensures Valid()
      ensures addr.None? <==> !exists a: nat :: FreeStretch(old(pool.runs), pool.pages.Length, a, 1)
      ensures addr.None? ==> pool.runs == old(pool.runs) && chunks == old(chunks) && stats == old(stats)
      ensures addr.Some? ==> b.Chunk? && b.shift == shift && addr.value == Addr(b) && Gained(old(pool.runs), old(chunks), b)
      ensures addr.Some? ==> stats == Adjusted(old(stats), shift, Chunks(shift) - Reserved(shift), 1)
    {
      hide Nearly, Live, FreeStretch, UsedSet, UsableSet, Chunks, Reserved;
      var page := TakePages(1);
      if page == Null {
        return None, Whole(0, 0);
      }
      StartExact(stats, chunks, page.n, shift);
      AllSane();
      ghost var runs1, chunks1 := pool.runs, chunks;
      var n := StartPage(page.n, shift);
      NewChunkLive(runs1, chunks1, page.n, shift);
      Restat(Adjusted(stats, shift, Chunks(shift) - n, 1));
      b := Chunk(page.n, shift, n);
      addr := Some(page.n * PageSize + n * Size(shift));
    }

    lemma NewChunkLive(runs1: Runs, chunks1: ChunkPages, s: nat, shift: Shift)
      requires ChunksOf(runs1, pool.pages.Length, chunks1) && s in runs1 && runs1[s] == Run(1, PageRun)
      requires pool.runs == Rekind(runs1, s, Chunked) && chunks == chunks1[s := NewPage(shift)]
      ensures forall o :: Live(pool.runs, chunks, o) <==> (Live(runs1, chunks1, o) && o != Whole(s, 1)) || o == Chunk(s, shift, Reserved(shift))
      ensures !Live(runs1, chunks1, Chunk(s, shift, Reserved(shift)))
    {
      NewPageSane(shift);
      StartLive(runs1, pool.pages.Length, chunks1, s, NewPage(shift));
    }

    // A chunk of the given size.
    method AllocChunk(shift: Shift) returns (addr: Option<nat>, ghost b: Block)
      requires Valid()
      modifies `maps, `chunks, `slots, `stats, pool, pool.pages, pool.heads
      ensures Valid()
      ensures addr.None? <==> old(SizeFull(pool.runs, pool.pages.Length, chunks, shift))
      ensures addr.None? ==> pool.runs == old(pool.runs) && chunks == old(chunks) && stats == old(stats)
      ensures addr.Some? ==> b.Chunk? && b.shift == shift && addr.value == Addr(b) && Gained(old(pool.runs), old(chunks), b)
      ensures |old(stats)| == SlotCount
      ensures addr.Some? ==> exists total :: stats == Adjusted(old(stats), shift, total, 1)
    {
      hide Nearly, Live, Gained, UsedSet, UsableSet, Chunks, Reserved, Shows, Formed;
      FirstListed(shift);
      var slot := shift - 3;
      var page := pool.heads[slot + 1].next;
      if pool.NextOf(page) != page {
        Facts({}, page.n);
        var j := Scan(page.n, shift);
        if j < Chunks(shift) {
          var a;
          a, b := ServeListed(page.n, shift, j);
          return Some(a), b;
        }
        // "page is busy" would be reported here
        assert false;
      }
      addr, b := ServeNew(shift);
    }

    // The statistics count one more request, and a failure if it was one.
    static predicate Counted(stats0: seq<Stat>, stats1: seq<Stat>, slot: nat, ok: bool) {
      && |stats0| == |stats1| && slot < |stats0|
      && stats1[slot].reqs == stats0[slot].reqs + 1
      && stats1[slot].fails == stats0[slot].fails + (if ok then 0 else 1)
      && forall i :: 0 <= i < |stats0| && i != slot ==> stats1[i] == stats0[i]
    }

    // A request cannot be served: no page of its size has a free chunk and no
    // page is free, or no contiguous free pages can hold it.
    ghost predicate Refused(size: nat)
      reads this, pool
    {
      if size <= MaxSize then SizeFull(pool.runs, pool.pages.Length, chunks, ShiftOf(size))
      else forall a: nat, k: nat :: FreeStretch(pool.runs, pool.pages.Length, a, k) ==> k * PageSize < size
    }

    // The fewest pages that hold so many bytes.
    static lemma FewestPages(runs: Runs, n: nat, size: nat, k: nat)
      requires size > MaxSize && size <= k * PageSize < size + PageSize
      ensures k > 0
      ensures (exists a: nat :: FreeStretch(runs, n, a, k)) <==> exists a: nat, l: nat :: FreeStretch(runs, n, a, l) && size <= l * PageSize
    {
      if a: nat, l: nat :| FreeStretch(runs, n, a, l) && size <= l * PageSize {
        assert k <= l;
        assert FreeStretch(runs, n, a, k);
      }
    }

    method AllocLocked(size: nat) returns (addr: Option<nat>, ghost b: Block)
      requires Valid()
      modifies `maps, `chunks, `slots, `stats, pool, pool.pages, pool.heads
      ensures Valid()
      ensures addr.None? <==> old(Refused(size))
      ensures addr.None? ==> pool.runs == old(pool.runs) && chunks == old(chunks)
      ensures addr.Some? ==> addr.value == Addr(b) && Gained(old(pool.runs), old(chunks), b)
      ensures if size <= MaxSize then Counted(old(stats), stats, SlotOf(ShiftOf(size)), addr.Some?) else stats == old(stats)
      ensures addr.Some? ==> size <= Bytes(b)
      ensures addr.Some? ==> if size <= MaxSize then b.Chunk? && b.shift == ShiftOf(size) else b.Whole? && Bytes(b) < size + PageSize
    {
      hide Nearly, Live, SizeFull, FreeStretch, UsedSet, UsableSet, Chunks, Reserved;
      if size > MaxSize {
        var k := size / PageSize + if size % PageSize != 0 then 1 else 0;
        FewestPages(pool.runs, pool.pages.Length, size, k);
        var page := TakePages(k);
        if page == Null {
          return None, Whole(0, 0);
        }
        b := Whole(page.n, k);
        return Some(page.n * PageSize), b;
      }
      var shift := FindShift(size);
      Count(shift - 3, 1, 0);
      addr, b := AllocChunk(shift);
      if addr == None {
        Count(shift - 3, 0, 1);
      }
    }

    // One more request of a slot, or one more that failed.
    method Count(slot: nat, reqs: int, fails: int)
      requires Valid() && slot < SlotCount
      modifies `stats
      ensures Valid() && |old(stats)| == SlotCount
      ensures stats == old(stats)[slot := old(stats)[slot].(reqs := old(stats)[slot].reqs + reqs, fails := old(stats)[slot].fails + fails)]
    {
      hide Nearly, UsedSet, UsableSet;
      Restat(stats[slot := stats[slot].(reqs := stats[slot].reqs + reqs, fails := stats[slot].fails + fails)]);
    }

    // ----- release

    // Whether no chunk of the page is in use.
    method IsEmpty(p: nat, shift: Shift) returns (empty: bool)
      requires p < pool.pages.Length && p < |maps| && p in chunks && chunks[p].shift == shift
      requires Shows(pool.pages[p], maps[p], chunks[p]) && |chunks[p].bits| == Chunks(shift)
      ensures empty <==> NoneSet(chunks[p].bits, Reserved(shift))
    {
      Sizes(shift);
      if shift < ExactShift {
        var n := Chunks(shift) / (Size(shift) * 8);
        if n == 0 {
          n := 1;
        }
        empty := EmptyFrom(maps[p], n);
      } else {
        empty := NoneSet(pool.pages[p].slab.bits, 0);
      }
    }

    // Whether the page is in no list: a full map for one kind of page, a null
    // link for the others.
    method IsOut(p: nat, shift: Shift) returns (out: bool)
      requires p < pool.pages.Length && p < |maps| && p in chunks && chunks[p].shift == shift
      requires Shows(pool.pages[p], maps[p], chunks[p]) && (AllSet(chunks[p].bits) <==> pool.pages[p].next == Null)
      ensures out <==> pool.pages[p].next == Null
    {
      if shift == ExactShift {
        out := AllSet(pool.pages[p].slab.bits);
      } else {
        out := pool.pages[p].next == Null;
      }
    }

    // Clears the chunk's bit; a page that was full is listed again.
    method ClearBit(p: nat, shift: Shift, j: nat)
      requires Nearly({}) && p in chunks && chunks[p].shift == shift && Reserved(shift) <= j < Chunks(shift)
      requires j < |chunks[p].bits| && chunks[p].bits[j]
      modifies `maps, `chunks, `slots, pool.pages, pool.heads
      ensures Nearly({p}) && j < |old(chunks)[p].bits| && chunks == Rebit(old(chunks), p, j, false)
      ensures p < pool.pages.Length && pool.pages[p].next != Null
    {
      hide Nearly, Shows, NoneSet, AllSet;
      Facts({}, p);
      var out := IsOut(p, shift);
      Unsettled(p);
      if out {
        Reslot(p, shift);
      }
      MarkChunk(p, shift, j, false);
    }

    // The page of index p left the pool's chunk pages.
    lemma PageGone(m: Memory, runs0: Runs, chunks0: ChunkPages, slots0: Slots, p: nat, i: nat)
      requires pool.Valid() && Sized() && Tied(m, maps, pool.pages.Length, runs0, chunks0, slots0, {p}) && p in chunks0 && m[Page(p)].next != Null
      requires var c := slots0[SlotOf(chunks0[p].shift)]; 0 < i < |c| && c[i] == Page(p)
      requires m[Page(p)].prev.ptr in m && m[Page(p)].next in m
      requires Tied(Unlisted(m, p, TagFor(chunks0[p].shift)), maps, pool.pages.Length, runs0, chunks0,
                    slots0[SlotOf(chunks0[p].shift) := Without(slots0[SlotOf(chunks0[p].shift)], i)], {p})
      requires ForeignKept(Unlinked(m, Page(p)), pool.Mem(), runs0 - {p})
      requires SameTaken(runs0, pool.runs, {p}) && IsFree(pool.runs, p)
      requires NoneSet(chunks0[p].bits, Reserved(chunks0[p].shift))
      requires chunks == chunks0 - {p} && slots == slots0[SlotOf(chunks0[p].shift) := Without(slots0[SlotOf(chunks0[p].shift)], i)]
      ensures Nearly({}) && forall o :: Live(pool.runs, chunks, o) <==> Live(runs0, chunks0, o)
    {
      hide RunsAt, ListAt, FreeListed, Coalesced, FreeSet, ForeignKept, Unlinked, Unlisted, SlotsAt, Mapped, FullOut, NoneSet, SameTaken, IsFree, Live;
      KnitGone(m, pool.Mem(), maps, pool.pages.Length, runs0, chunks0, slots0, p, i);
      FreedNotHeld(pool.runs, pool.pages.Length, p);
      hide ChunkRuns, Knit;
      GonePage(runs0, pool.runs, pool.pages.Length, chunks0, p);
    }

    method DropPage(p: nat, shift: Shift)
      requires Nearly({p}) && p in chunks && chunks[p].shift == shift && NoneSet(chunks[p].bits, Reserved(shift))
      requires p < pool.pages.Length && pool.pages[p].next != Null
      modifies `chunks, `slots, pool, pool.pages, pool.heads
      ensures Nearly({}) && chunks == old(chunks) - {p} && IsFree(pool.runs, p)
      ensures forall o :: Live(pool.runs, chunks, o) <==> old(Live(pool.runs, chunks, o))
    {
      hide Good, Tied, ForeignKept, Unlinked, Unlisted, NoneSet, SameTaken, IsFree, Live, InSlot, ForeignOnly, PagePool.Mem;
      Facts({p}, p);
      ghost var m, runs0, c := pool.Mem(), pool.runs, slots[SlotOf(shift)];
      ghost var i := TiedUnlist(m, maps, pool.pages.Length, pool.runs, chunks, slots, {p}, p);
      ChunkRun({p}, p);
      pool.FreePages(p, 1, c, i, TagFor(shift));
      FreedPage(runs0, p);
      ghost var chunks0, slots0 := chunks, slots;
      chunks, slots := chunks - {p}, slots[SlotOf(shift) := Without(c, i)];
      PageGone(m, runs0, chunks0, slots0, p, i);
    }

    lemma ChunkRun(but: set<nat>, p: nat)
      requires Nearly(but) && p in chunks
      ensures p in pool.runs && pool.runs[p].len == 1 && pool.runs[p].kind == Chunked
    {
    }

    lemma FreedPage(runs0: Runs, p: nat)
      requires FreeSet(pool.runs, pool.pages.Length) == FreeSet(runs0, pool.pages.Length) + Interval(p, p + 1)
      requires p < pool.pages.Length
      ensures IsFree(pool.runs, p)
    {
      hide IsFree;
      assert Within(p, p, p + 1);
      assert p in FreeSet(pool.runs, pool.pages.Length);
    }

    ghost predicate Lost(runs0: Runs, chunks0: ChunkPages, b: Block)
      reads this, pool
    {
      Live(runs0, chunks0, b) && forall o :: Live(pool.runs, chunks, o) <==> Live(runs0, chunks0, o) && o != b
    }

    // A live chunk is released; its page goes with the last one.
    method FreeChunk(p: nat, shift: Shift, j: nat)
      requires Valid() && p in chunks && chunks[p].shift == shift && Reserved(shift) <= j < Chunks(shift)
      requires j < |chunks[p].bits| && chunks[p].bits[j]
      modifies `maps, `chunks, `slots, `stats, pool, pool.pages, pool.heads
      ensures Valid() && Lost(old(pool.runs), old(chunks), Chunk(p, shift, j))
      ensures if NoneSet(old(chunks)[p].bits[j := false], Reserved(shift)) then chunks == old(chunks) - {p} && IsFree(pool.runs, p)
              else chunks == Rebit(old(chunks), p, j, false) && |slots| == SlotCount && Page(p) in slots[SlotOf(shift)]
    {
      hide Nearly, UsedSet, UsableSet, Chunks, Reserved, Live, Shows, NoneSet, AllSet, Rebit;
      Facts({}, p);
      DropLive(pool.runs, chunks, p, j);
      RebitExact(stats, chunks, p, j, false);
      ClearBit(p, shift, j);
      Rebitted(old(chunks), p, j, false);
      Facts({p}, p);
      var empty := IsEmpty(p, shift);
      if empty {
        PageGoneExact(Adjusted(stats, shift, 0, -1), chunks, p);
        DropPage(p, shift);
        Restat(Adjusted(stats, shift, Reserved(shift) - Chunks(shift), -1));
      } else {
        NotAll(chunks[p].bits, j);
        InList(p);
        Settled(p);
        Restat(Adjusted(stats, shift, 0, -1));
      }
    }

    // The page lists chunk j, which holds its chunk map, as its first free one.
    ghost predicate MapShownFree(p: nat, shift: Shift, j: nat)
      reads this, pool, pool.pages
    {
      && p < pool.pages.Length && pool.pages[p].next != Null && |slots| == SlotCount && Page(p) in slots[SlotOf(shift)]
      && p < |maps| && j < |maps[p]| && !maps[p][j] && forall i :: 0 <= i < j ==> maps[p][i]
    }

    // A chunk that holds the chunk map of its page is released like any other,
    // as no test tells it apart; the page stays, for the chunks in use.
    method FreeMapChunk(p: nat, shift: Shift, j: nat)
      requires Valid() && p in chunks && chunks[p].shift == shift && j < Reserved(shift)
      modifies `maps, `chunks, `slots, `stats, pool.pages, pool.heads
      ensures !Valid() && MapShownFree(p, shift, j) && j < |old(chunks)[p].bits| && chunks == Rebit(old(chunks), p, j, false)
      ensures |old(stats)| == SlotCount && stats == Adjusted(old(stats), shift, 0, -1)
    {
      hide Nearly, StatsExact, NoneSet, AllSet, Rebit, Reserved, Shows;
      InBounds();
      Facts({}, p);
      Sizes(shift);
      ghost var bits := chunks[p].bits;
      ClearMapBit(p, shift, j);
      Rebitted(old(chunks), p, j, false);
      var empty := IsEmpty(p, shift);
      StillSet(bits, Reserved(shift), j);
      assert !empty;
      stats := Adjusted(stats, shift, 0, -1);
      NotFormed(p, j);
    }

    method ClearMapBit(p: nat, shift: Shift, j: nat)
      requires Nearly({}) && p in chunks && chunks[p].shift == shift && j < Reserved(shift)
      modifies `maps, `chunks, `slots, pool.pages, pool.heads
      ensures MapShownFree(p, shift, j) && j < |old(chunks)[p].bits| && chunks == Rebit(old(chunks), p, j, false)
      ensures p in chunks && Shows(pool.pages[p], maps[p], chunks[p])
    {
      hide Good, Tied, FreeSet, AllSet, NoneSet, Remapped, RemappedIn, PagePool.Mem;
      Facts({}, p);
      Sizes(shift);
      var out := IsOut(p, shift);
      Unsettled(p);
      if out {
        Reslot(p, shift);
      }
      Facts({p}, p);
      InList(p);
      ghost var m, bits := pool.Mem(), chunks[p].bits;
      SmallRemapped(m, maps, p, shift, bits[j := false]);
      SetBit(p, shift, j, false, bits);
      pool.MemAt(Page(p));
      chunks := Rebit(chunks, p, j, false);
    }

    static lemma SmallRemapped(m: Memory, maps: seq<seq<bool>>, p: nat, shift: Shift, bits: seq<bool>)
      requires Page(p) in m && p < |maps| && shift < ExactShift
      ensures Remapped(m, p, shift, bits) == m && RemappedIn(maps, p, shift, bits) == maps[p := bits]
    {
    }

    lemma InList(p: nat)
      requires Nearly({p}) && p in chunks && p < pool.pages.Length && pool.pages[p].next != Null
      ensures |slots| == SlotCount && Page(p) in slots[SlotOf(chunks[p].shift)]
    {
      hide Good, FreeSet, ChunkRuns, Mapped, FullOut, NoneSet, Formed, SlotAt;
      pool.MemAt(Page(p));
    }

    static lemma StillSet(bits: seq<bool>, k: nat, j: nat)
      requires j < k && j < |bits| && !NoneSet(bits, k)
      ensures !NoneSet(bits[j := false], k)
    {
      var i :| k <= i < |bits| && bits[i];
      assert bits[j := false][i];
    }

    lemma NotFormed(p: nat, j: nat)
      requires p in chunks && j < Reserved(chunks[p].shift) && j < |chunks[p].bits| && !chunks[p].bits[j]
      ensures !Valid()
    {
      hide Tied, Good, StatsExact, Reserved;
      if Valid() {
        Facts({}, p);
        assert false;
      }
    }

    static lemma Rebitted(chunks0: ChunkPages, p: nat, j: nat, bit: bool)
      requires p in chunks0 && j < |chunks0[p].bits|
      ensures var c := Rebit(chunks0, p, j, bit); p in c && c[p].shift == chunks0[p].shift && c[p].bits == chunks0[p].bits[j := bit] && c - {p} == chunks0 - {p}
    {
      assert Rebit(chunks0, p, j, bit) - {p} == chunks0 - {p};
    }

    static lemma NotAll(bits: seq<bool>, j: nat)
      requires j < |bits| && !bits[j]
      ensures !AllSet(bits)
    {
    }

    // A run of whole pages is released.
    method FreeRunOfPages(s: nat, len: nat)
      requires Valid() && s in pool.runs && pool.runs[s] == Run(len, PageRun)
      modifies pool, pool.pages, pool.heads
      ensures Valid() && Lost(old(pool.runs), chunks, Whole(s, len))
    {
      hide Good, Knit, ForeignKept, SameTaken, IsFree, Live, UsedSet, UsableSet, FreeSet, NoLoose, Lost;
      AllSane();
      ghost var m, runs0 := pool.Mem(), pool.runs;
      pool.FreePages(s, len, [], 0, Small);
      RunGone(m, runs0, s);
    }

    lemma RunGone(m: Memory, runs0: Runs, s: nat)
      requires pool.Valid() && Sized() && Knit(m, maps, chunks, slots, {}) && ChunksOf(runs0, pool.pages.Length, chunks)
      requires s in runs0 && runs0[s].kind == PageRun && runs0[s].len > 0 && s < pool.pages.Length
      requires SameTaken(runs0, pool.runs, {s}) && ForeignKept(m, pool.Mem(), runs0 - {s})
      requires FreeSet(pool.runs, pool.pages.Length) == FreeSet(runs0, pool.pages.Length) + Interval(s, s + runs0[s].len)
      ensures Nearly({}) && Lost(runs0, chunks, Whole(s, runs0[s].len))
    {
      hide RunsAt, ListAt, FreeListed, Coalesced, ForeignKept, Knit, SameTaken, IsFree, Live;
      assert Within(s, s, s + runs0[s].len);
      assert s in FreeSet(pool.runs, pool.pages.Length);
      FreedNotHeld(pool.runs, pool.pages.Length, s);
      GoneLive(runs0, pool.runs, pool.pages.Length, chunks, s);
      KnitKept(m, pool.Mem(), maps, pool.pages.Length, runs0 - {s}, chunks, slots, {});
      assert Live(runs0, chunks, Whole(s, runs0[s].len)) by { WholeLive(runs0, chunks, s); }
    }

    static lemma WholeLive(runs0: Runs, chunks0: ChunkPages, s: nat)
      requires s in runs0 && runs0[s].kind == PageRun
      ensures Live(runs0, chunks0, Whole(s, runs0[s].len))
    {
    }

    // The record of a page says what Judge does.
    lemma PageRecord(p: nat)
      requires Valid() && p < pool.pages.Length
      ensures p in chunks <==> pool.pages[p].prev.tag != PageTag
      ensures p in chunks ==> Shows(pool.pages[p], maps[p], chunks[p]) && Formed(chunks[p])
      ensures p !in chunks ==> (pool.pages[p].slab.Count? <==> IsFree(pool.runs, p)) && !(IsFree(pool.runs, p) && p in pool.runs && pool.runs[p].kind != FreeRun)
      ensures p !in chunks && !IsFree(pool.runs, p) ==>
        if p in pool.runs then pool.runs[p].kind == PageRun && pool.pages[p].slab == SlabPages.Slab.Start(pool.runs[p].len) else pool.pages[p].slab == Busy
    {
      hide Coalesced, ListAt, FreeListed, SlotsAt, FullOut, FreeSet, NoneSet, AllSet, StatsExact, Shows, Formed;
      ghost var s := RunOf(pool.runs, pool.pages.Length, p, 0);
      pool.MemAt(Page(p));
      assert RunAt(pool.Mem(), s, pool.runs[s]);
      if p in chunks {
        Facts({}, p);
        TagOfChunks(pool.pages[p], maps[p], chunks[p]);
      }
      if t :| InRun(pool.runs, t, p) && pool.runs[t].kind == FreeRun {
        RunUnique(pool.runs, pool.pages.Length, s, t, p);
      }
      if p in pool.runs {
        assert InRun(pool.runs, p, p);
        RunUnique(pool.runs, pool.pages.Length, s, p, p);
      }
    }

    static lemma TagOfChunks(r: Record, inPage: seq<bool>, cp: ChunkPage)
      requires Shows(r, inPage, cp)
      ensures r.prev.tag == TagFor(cp.shift) != PageTag
    {
    }

    // Releases what starts at the address, counted from the first page: a live
    // block, or, as nothing keeps it from that, a chunk map. Past the last page
    // there is no record to read; what a free does there is not told.
    method FreeLocked(a: int) returns (r: Verdict, ghost b: Block)
      requires Valid()
      modifies `maps, `chunks, `slots, `stats, pool, pool.pages, pool.heads
      ensures r == Judge(old(pool.runs), pool.pages.Length, end, old(chunks), a) && (r == NoRecord <==> PastPages(pool.pages.Length, end, a))
      ensures r != NoRecord ==> (Valid() <==> !InMap(old(chunks), a))
      ensures r == Accept && !InMap(old(chunks), a) ==> Addr(b) == a && Lost(old(pool.runs), old(chunks), b)
      ensures InMap(old(chunks), a) ==> r == Accept && MapFreed(old(chunks), old(stats), a) && pool.runs == old(pool.runs)
      ensures r != Accept && r != NoRecord ==> pool.runs == old(pool.runs) && chunks == old(chunks) && maps == old(maps) && stats == old(stats)
      ensures r != Accept && r != NoRecord ==> pool.pfree == old(pool.pfree) && pool.Mem() == old(pool.Mem())
    {
      hide Nearly, Live, Lost, StatsExact, Formed, InMap, MapFreed;
      b := Whole(0, 0);
      OutsideMaps(a);
      if a < 0 || a > end {
        return OutsidePool, b;
      }
      var p := a / PageSize;
      PageBelow(a, pool.pages.Length);
      if p >= pool.pages.Length {
        return NoRecord, b;
      }
      PageRecord(p);
      if pool.pages[p].prev.tag != PageTag {
        r, b := FreeInPage(a, p);
        return;
      }
      if a % PageSize != 0 {
        return WrongChunk, b;
      }
      if pool.pages[p].slab.Count? {
        return PageFree, b;
      }
      if pool.pages[p].slab == Busy {
        return WrongPage, b;
      }
      b := Whole(p, pool.pages[p].slab.n);
      FreeRunOfPages(p, pool.pages[p].slab.n);
      r := Accept;
    }

    // Chunk maps are in pages of chunks.
    lemma OutsideMaps(a: int)
      requires Valid()
      ensures InMap(chunks, a) ==> 0 <= a < end && a / PageSize in chunks && a / PageSize < pool.pages.Length
    {
      hide Nearly, StatsExact, Reserved;
      if InMap(chunks, a) {
        Facts({}, a / PageSize);
        PageBelow(a, pool.pages.Length);
        assert pool.pages.Length * PageSize <= end by { InBounds(); }
      }
    }

    lemma InBounds()
      requires Nearly({})
      ensures |slots| == SlotCount && pool.pages.Length * PageSize <= end && |stats| == SlotCount
    {
      hide Good, Tied;
    }

    // The map at the address is shown as a free chunk, and the statistics of its
    // size have one in use less.
    ghost predicate MapFreed(chunks0: ChunkPages, stats0: seq<Stat>, a: int)
      reads this, pool, pool.pages
    {
      var p := a / PageSize;
      && p in chunks0 && |stats0| == SlotCount
      && var shift := chunks0[p].shift;
      var j := a % PageSize / Size(shift);
      MapShownFree(p, shift, j) && j < |chunks0[p].bits| && chunks == Rebit(chunks0, p, j, false) && stats == Adjusted(stats0, shift, 0, -1)
    }

    // The address is in a page of chunks.
    method FreeInPage(a: nat, p: nat) returns (r: Verdict, ghost b: Block)
      requires Valid() && a <= end && p == a / PageSize && p < pool.pages.Length && p in chunks
      modifies `maps, `chunks, `slots, `stats, pool, pool.pages, pool.heads
      ensures r == Judge(old(pool.runs), pool.pages.Length, end, old(chunks), a) && (Valid() <==> !InMap(old(chunks), a))
      ensures r == Accept && !InMap(old(chunks), a) ==> Addr(b) == a && Lost(old(pool.runs), old(chunks), b)
      ensures InMap(old(chunks), a) ==> r == Accept && MapFreed(old(chunks), old(stats), a) && pool.runs == old(pool.runs)
      ensures r != Accept ==> pool.runs == old(pool.runs) && chunks == old(chunks) && maps == old(maps) && stats == old(stats)
      ensures r != Accept ==> pool.pfree == old(pool.pfree) && pool.Mem() == old(pool.Mem())
    {
      hide Nearly, Live, Lost, StatsExact, Reserved, MapShownFree, Rebit, Adjusted;
      b := Whole(0, 0);
      Facts({}, p);
      var shift := ShiftIn(p);
      if a % PageSize % Size(shift) != 0 {
        return WrongChunk, b;
      }
      var j := a % PageSize / Size(shift);
      IndexBelow(a % PageSize, shift);
      Recompose(a % PageSize, shift);
      var used := BitAt(p, shift, j);
      if !used {
        return ChunkFree, b;
      }
      if j < Reserved(shift) {
        FreeMapChunk(p, shift, j);
        return Accept, b;
      }
      FreeChunk(p, shift, j);
      return Accept, Chunk(p, shift, j);
    }

    // The chunk size of a page: the exact size, or the one its record gives.
    function ShiftIn(p: nat): (shift: Shift)
      requires p < pool.pages.Length && p < |maps| && p in chunks && Shows(pool.pages[p], maps[p], chunks[p])
      reads this, pool, pool.pages
      ensures shift == chunks[p].shift
    {
      match pool.pages[p].slab
      case SmallShift(shift) => shift
      case BigMap(shift, _) => shift
      case _ => ExactShift
    }

    function BitAt(p: nat, shift: Shift, j: nat): (bit: bool)
      requires p < pool.pages.Length && p < |maps| && p in chunks && Shows(pool.pages[p], maps[p], chunks[p])
      requires shift == chunks[p].shift && j < |chunks[p].bits|
      reads this, pool, pool.pages
      ensures bit == chunks[p].bits[j]
    {
      if shift < ExactShift then maps[p][j] else pool.pages[p].slab.bits[j]
    }

    // ----- what holds between calls

    // Live allocations are inside the pool, aligned, and never overlap each
    // other or a chunk map.
    lemma AllocationsApart(a: Block, b: Block)
      requires Valid() && Live(pool.runs, chunks, a) && Live(pool.runs, chunks, b) && a != b
      ensures Disjoint(a, b) && Addr(a) + Bytes(a) <= pool.pages.Length * PageSize
      ensures Aligned(a) && forall p :: p in chunks ==> ClearOfMap(a, p, chunks[p].shift)
    {
      hide Nearly, Live, Chunks, ClearOfMap, Aligned, Disjoint;
      AllSane();
      LiveDisjoint(pool.runs, pool.pages.Length, chunks, a, b);
      LiveAligned(pool.runs, pool.pages.Length, chunks, a);
      forall p | p in chunks ensures ClearOfMap(a, p, chunks[p].shift) {
        LiveClearOfMaps(pool.runs, pool.pages.Length, chunks, a, p);
      }
    }

    // A slot lists exactly the pages of its size with a free chunk, and no page
    // of chunks is without one in use.
    lemma SlotListsNonFull(p: nat)
      requires Valid() && p in chunks
      ensures |slots| == SlotCount && (Page(p) in slots[SlotOf(chunks[p].shift)] <==> !AllSet(chunks[p].bits))
      ensures exists j :: InUse(chunks, p, chunks[p].shift, j)
    {
      hide Good, FreeSet, AllSet, StatsExact, Reserved;
      var c, shift := slots[SlotOf(chunks[p].shift)], chunks[p].shift;
      assert SlotAt(pool.Mem(), chunks, c, shift);
      pool.MemAt(Page(p));
      if pool.pages[p].next == Null { NullUnlisted(pool.Mem(), chunks, c, shift, Page(p)); }
      var j :| Reserved(shift) <= j < |chunks[p].bits| && chunks[p].bits[j];
      assert InUse(chunks, p, shift, j);
    }

    // When nothing is live the pool is one free run again.
    lemma NothingLive()
      requires Valid() && pool.pages.Length > 0 && forall b :: !Live(pool.runs, chunks, b)
      ensures pool.runs == map[0 := Run(pool.pages.Length, FreeRun)] && chunks == map[]
    {
      hide RunsAt, ListAt, FreeListed, FreeSet, AllSet, StatsExact, Knit;
      forall p ensures p !in chunks {
        if p in chunks {
          NoneLiveNoPage(p);
          assert false;
        }
      }
      forall s | s in pool.runs ensures pool.runs[s].kind == FreeRun {
        assert !Live(pool.runs, chunks, Whole(s, pool.runs[s].len));
      }
      AllFreeIsOneRun(pool.runs, pool.pages.Length);
    }

    lemma NoneLiveNoPage(p: nat)
      requires Valid() && p in chunks
      ensures exists b :: Live(pool.runs, chunks, b)
    {
      hide Nearly, StatsExact, Reserved;
      SlotListsNonFull(p);
      var j :| InUse(chunks, p, chunks[p].shift, j);
      assert Live(pool.runs, chunks, Chunk(p, chunks[p].shift, j));
    }
  }
}
