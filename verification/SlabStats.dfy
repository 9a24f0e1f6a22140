// What allocations and frees do to the live chunks, and the statistics of the
// slots.
module SlabStats {
  import opened SlabPages
  import opened SlabRuns
  import opened SlabPageOps
  import opened SlabPageFree
  import opened SlabChunks
  import opened SlabSlotOps
  import opened SlabWords
  import opened Counting

  datatype Stat = Stat(total: int, used: int, reqs: int, fails: int)

  // The chunks of one size in use, and those there are.
  function UsedSet(chunks: ChunkPages, shift: Shift): set<(nat, nat)> {
    set p, j | p in chunks && 0 <= j < PageSize && InUse(chunks, p, shift, j) :: (p, j)
  }

  predicate Usable(chunks: ChunkPages, shift: Shift, p: nat, j: nat) {
    p in chunks && chunks[p].shift == shift && Reserved(shift) <= j < Chunks(shift)
  }

  function UsableSet(chunks: ChunkPages, shift: Shift): set<(nat, nat)> {
    set p, j | p in chunks && 0 <= j < PageSize && Usable(chunks, shift, p, j) :: (p, j)
  }

  ghost predicate StatsExact(stats: seq<Stat>, chunks: ChunkPages) {
    && |stats| == SlotCount
    && forall shift: Shift ::
      stats[SlotOf(shift)].used == |UsedSet(chunks, shift)| && stats[SlotOf(shift)].total == |UsableSet(chunks, shift)|
  }

  lemma EmptyExact(stats: seq<Stat>)
    requires |stats| == SlotCount && forall i :: 0 <= i < SlotCount ==> stats[i].used == 0 && stats[i].total == 0
    ensures StatsExact(stats, map[])
  {
    forall shift: Shift ensures UsedSet(map[], shift) == {} && UsableSet(map[], shift) == {} {}
  }

  function Rebit(chunks: ChunkPages, p: nat, j: nat, bit: bool): ChunkPages
    requires p in chunks && j < |chunks[p].bits|
  {
    chunks[p := chunks[p].(bits := chunks[p].bits[j := bit])]
  }

  // Taking a free chunk.
  lemma TakeLive(runs: Runs, chunks: ChunkPages, p: nat, j: nat)
    requires p in chunks && Reserved(chunks[p].shift) <= j < |chunks[p].bits| && !chunks[p].bits[j]
    ensures var b := Chunk(p, chunks[p].shift, j);
      !Live(runs, chunks, b) && forall o :: Live(runs, Rebit(chunks, p, j, true), o) <==> Live(runs, chunks, o) || o == b
  {
  }

  lemma DropLive(runs: Runs, chunks: ChunkPages, p: nat, j: nat)
    requires p in chunks && Reserved(chunks[p].shift) <= j < |chunks[p].bits| && chunks[p].bits[j]
    ensures var b := Chunk(p, chunks[p].shift, j);
      Live(runs, chunks, b) && forall o :: Live(runs, Rebit(chunks, p, j, false), o) <==> Live(runs, chunks, o) && o != b
  {
  }

  lemma SmallIndex(chunks: ChunkPages, p: nat)
    requires p in chunks && |chunks[p].bits| == Chunks(chunks[p].shift)
    ensures |chunks[p].bits| < PageSize
  {
    Sizes(chunks[p].shift);
  }

  function Adjusted(stats: seq<Stat>, shift: Shift, total: int, used: int): seq<Stat>
    requires |stats| == SlotCount
  {
    var s := stats[SlotOf(shift)];
    stats[SlotOf(shift) := s.(total := s.total + total, used := s.used + used)]
  }

  lemma RebitExact(stats: seq<Stat>, chunks: ChunkPages, p: nat, j: nat, bit: bool)
    requires StatsExact(stats, chunks) && p in chunks && |chunks[p].bits| == Chunks(chunks[p].shift)
    requires Reserved(chunks[p].shift) <= j < |chunks[p].bits| && chunks[p].bits[j] != bit
    ensures StatsExact(Adjusted(stats, chunks[p].shift, 0, if bit then 1 else -1), Rebit(chunks, p, j, bit))
  {
    hide UsedSet, UsableSet, InUse, Usable;
    var chunks' := Rebit(chunks, p, j, bit);
    forall shift: Shift
      ensures UsableSet(chunks', shift) == UsableSet(chunks, shift)
      ensures |UsedSet(chunks', shift)| == |UsedSet(chunks, shift)| + if shift != chunks[p].shift then 0 else if bit then 1 else -1
    {
      UsableSame(chunks, chunks', shift);
      RebitSets(chunks, p, j, bit, shift);
    }
  }

  lemma RebitInUse(chunks: ChunkPages, p: nat, j: nat, bit: bool)
    requires p in chunks && Reserved(chunks[p].shift) <= j < |chunks[p].bits|
    ensures forall q, shift, i :: InUse(Rebit(chunks, p, j, bit), q, shift, i)
                             <==> if q == p && i == j && shift == chunks[p].shift then bit else InUse(chunks, q, shift, i)
  {
  }

  lemma RebitSets(chunks: ChunkPages, p: nat, j: nat, bit: bool, shift: Shift)
    requires p in chunks && |chunks[p].bits| == Chunks(chunks[p].shift)
    requires Reserved(chunks[p].shift) <= j < |chunks[p].bits| && chunks[p].bits[j] != bit
    ensures |UsedSet(Rebit(chunks, p, j, bit), shift)|
         == |UsedSet(chunks, shift)| + if shift != chunks[p].shift then 0 else if bit then 1 else -1
  {
    var chunks' := Rebit(chunks, p, j, bit);
    SmallIndex(chunks, p);
    RebitInUse(chunks, p, j, bit);
    assert InUse(chunks, p, chunks[p].shift, j) == !bit;
    hide InUse, Rebit;
    if shift != chunks[p].shift {
      assert UsedSet(chunks', shift) == UsedSet(chunks, shift);
    } else if bit {
      assert UsedSet(chunks', shift) == UsedSet(chunks, shift) + {(p, j)};
    } else {
      assert UsedSet(chunks', shift) == UsedSet(chunks, shift) - {(p, j)};
    }
  }

  lemma UsableSame(chunks: ChunkPages, chunks': ChunkPages, shift: Shift)
    requires chunks'.Keys == chunks.Keys && forall p :: p in chunks ==> chunks'[p].shift == chunks[p].shift
    ensures UsableSet(chunks', shift) == UsableSet(chunks, shift)
  {
  }

  function Column(p: nat, a: nat, b: nat): set<(nat, nat)> { set j | a <= j < b :: (p, j) }

  lemma {:induction false} ColumnSize(p: nat, a: nat, b: nat)
    requires a <= b
    ensures |Column(p, a, b)| == b - a
    decreases b - a
  {
    if a < b {
      ColumnSize(p, a, b - 1);
      assert Column(p, a, b) == Column(p, a, b - 1) + {(p, b - 1)};
    } else {
      assert Column(p, a, b) == {};
    }
  }

  // A page comes or goes with one chunk in use, or none.
  lemma PageExact(stats: seq<Stat>, chunks: ChunkPages, p: nat, cp: ChunkPage)
    requires StatsExact(stats, chunks) && p !in chunks && |cp.bits| == Chunks(cp.shift) && NoneSet(cp.bits, Reserved(cp.shift))
    ensures StatsExact(Adjusted(stats, cp.shift, Chunks(cp.shift) - Reserved(cp.shift), 0), chunks[p := cp])
  {
    var chunks' := chunks[p := cp];
    forall shift: Shift
      ensures |UsedSet(chunks', shift)| == |UsedSet(chunks, shift)|
      ensures |UsableSet(chunks', shift)| == |UsableSet(chunks, shift)| + if shift == cp.shift then Chunks(shift) - Reserved(shift) else 0
    {
      PageSets(chunks, p, cp, shift);
    }
  }

  lemma PageGoneExact(stats: seq<Stat>, chunks: ChunkPages, p: nat)
    requires StatsExact(stats, chunks) && p in chunks
    requires |chunks[p].bits| == Chunks(chunks[p].shift) && NoneSet(chunks[p].bits, Reserved(chunks[p].shift))
    ensures StatsExact(Adjusted(stats, chunks[p].shift, Reserved(chunks[p].shift) - Chunks(chunks[p].shift), 0), chunks - {p})
  {
    var cp, less := chunks[p], chunks - {p};
    assert less[p := cp] == chunks;
    forall shift: Shift
      ensures |UsedSet(chunks, shift)| == |UsedSet(less, shift)|
      ensures |UsableSet(chunks, shift)| == |UsableSet(less, shift)| + if shift == cp.shift then Chunks(shift) - Reserved(shift) else 0
    {
      PageSets(less, p, cp, shift);
    }
  }

  lemma PageSets(chunks: ChunkPages, p: nat, cp: ChunkPage, shift: Shift)
    requires p !in chunks && |cp.bits| == Chunks(cp.shift) && NoneSet(cp.bits, Reserved(cp.shift))
    ensures |UsedSet(chunks[p := cp], shift)| == |UsedSet(chunks, shift)|
    ensures |UsableSet(chunks[p := cp], shift)|
         == |UsableSet(chunks, shift)| + if shift == cp.shift then Chunks(shift) - Reserved(shift) else 0
  {
    var chunks' := chunks[p := cp];
    assert forall q, i :: InUse(chunks', q, shift, i) <==> InUse(chunks, q, shift, i);
    assert UsedSet(chunks', shift) == UsedSet(chunks, shift) by { hide InUse; }
    PageUsable(chunks, p, cp, shift);
  }

  lemma PageUsable(chunks: ChunkPages, p: nat, cp: ChunkPage, shift: Shift)
    requires p !in chunks
    ensures |UsableSet(chunks[p := cp], shift)|
         == |UsableSet(chunks, shift)| + if shift == cp.shift then Chunks(shift) - Reserved(shift) else 0
  {
    hide Reserved, Chunks;
    var chunks' := chunks[p := cp];
    BelowPage(shift);
    if shift == cp.shift {
      ColumnSize(p, Reserved(shift), Chunks(shift));
      assert UsableSet(chunks', shift) == UsableSet(chunks, shift) + Column(p, Reserved(shift), Chunks(shift));
      assert UsableSet(chunks, shift) !! Column(p, Reserved(shift), Chunks(shift));
    } else {
      assert UsableSet(chunks', shift) == UsableSet(chunks, shift);
    }
  }

  lemma BelowPage(shift: Shift)
    ensures Reserved(shift) <= Chunks(shift) < PageSize
  {
    Sizes(shift);
  }

  // ----- live allocations and runs

  lemma SplitLive(runs: Runs, n: nat, chunks: ChunkPages, s: nat, k: nat)
    requires ChunksOf(runs, n, chunks) && s in runs && runs[s].kind == FreeRun && 0 < k <= runs[s].len
    ensures Layout(Split(runs, s, k), n) ==> ChunksOf(Split(runs, s, k), n, chunks)
    ensures !Live(runs, chunks, Whole(s, k))
    ensures forall o :: Live(Split(runs, s, k), chunks, o) <==> Live(runs, chunks, o) || o == Whole(s, k)
  {
    if k < runs[s].len { CutLayout(runs, n, s, k); }
    SplitTaken(runs, n, s, k);
    SplitChunks(runs, n, chunks, s, k);
    hide Split, Layout, Sane, InUse;
    forall o ensures Live(Split(runs, s, k), chunks, o) <==> Live(runs, chunks, o) || o == Whole(s, k) {
      match o
      case Whole(t, len) =>
      case Chunk(p, shift, j) =>
    }
  }

  lemma SplitChunks(runs: Runs, n: nat, chunks: ChunkPages, s: nat, k: nat)
    requires ChunksOf(runs, n, chunks) && s in runs && runs[s].kind == FreeRun && 0 < k <= runs[s].len
    ensures Layout(Split(runs, s, k), n) ==> ChunksOf(Split(runs, s, k), n, chunks)
  {
    SplitTaken(runs, n, s, k);
    hide Split, Layout, Sane;
  }

  lemma SplitTaken(runs: Runs, n: nat, s: nat, k: nat)
    requires Layout(runs, n) && s in runs && runs[s].kind == FreeRun && 0 < k <= runs[s].len
    ensures s in Split(runs, s, k) && Split(runs, s, k)[s] == Run(k, PageRun)
    ensures forall t :: t in Split(runs, s, k) && t != s && Split(runs, s, k)[t].kind != FreeRun ==> t in runs && runs[t] == Split(runs, s, k)[t]
    ensures forall t :: t in runs && runs[t].kind != FreeRun ==> t in Split(runs, s, k) && Split(runs, s, k)[t] == runs[t]
  {
    if k < runs[s].len { CutLayout(runs, n, s, k); }
  }

  // A page of chunks with its first usable chunk in use.
  function NewPage(shift: Shift): ChunkPage { ChunkPage(shift, Ones(Reserved(shift) + 1, Chunks(shift))) }

  lemma NewPageSane(shift: Shift)
    ensures Sane(NewPage(shift)) && !AllSet(NewPage(shift).bits)
  {
    Sizes(shift);
    assert NewPage(shift).bits[Reserved(shift)] && !NewPage(shift).bits[Reserved(shift) + 1];
  }

  lemma StartExact(stats: seq<Stat>, chunks: ChunkPages, p: nat, shift: Shift)
    requires StatsExact(stats, chunks) && p !in chunks
    ensures StatsExact(Adjusted(stats, shift, Chunks(shift) - Reserved(shift), 1), chunks[p := NewPage(shift)])
  {
    hide UsedSet, UsableSet;
    Sizes(shift);
    var cp := ChunkPage(shift, Ones(Reserved(shift), Chunks(shift)));
    PageExact(stats, chunks, p, cp);
    var stats1, chunks1 := Adjusted(stats, shift, Chunks(shift) - Reserved(shift), 0), chunks[p := cp];
    RebitExact(stats1, chunks1, p, Reserved(shift), true);
    assert cp.bits[Reserved(shift) := true] == NewPage(shift).bits;
    assert Rebit(chunks1, p, Reserved(shift), true) == chunks[p := NewPage(shift)];
  }

  // No page of the size has a free chunk and no page is free.
  ghost predicate SizeFull(runs: Runs, n: nat, chunks: ChunkPages, shift: Shift) {
    && (forall p :: p in chunks && chunks[p].shift == shift ==> AllSet(chunks[p].bits))
    && !exists a: nat :: FreeStretch(runs, n, a, 1)
  }

  // The page of a Whole block becomes a page of chunks with one in use.
  lemma StartLive(runs: Runs, n: nat, chunks: ChunkPages, s: nat, cp: ChunkPage)
    requires ChunksOf(runs, n, chunks) && s in runs && runs[s] == Run(1, PageRun) && Sane(cp)
    requires forall j :: Reserved(cp.shift) < j < |cp.bits| ==> !cp.bits[j]
    ensures ChunksOf(Rekind(runs, s, Chunked), n, chunks[s := cp])
    ensures forall o ::
      (Live(Rekind(runs, s, Chunked), chunks[s := cp], o)
       <==> (Live(runs, chunks, o) && o != Whole(s, 1)) || o == Chunk(s, cp.shift, Reserved(cp.shift)))
  {
    RekindLayout(runs, n, s, Chunked);
    Sizes(cp.shift);
    assert cp.bits[Reserved(cp.shift)] && s !in chunks;
    forall o
      ensures Live(Rekind(runs, s, Chunked), chunks[s := cp], o)
         <==> (Live(runs, chunks, o) && o != Whole(s, 1)) || o == Chunk(s, cp.shift, Reserved(cp.shift))
    {
      match o
      case Whole(t, len) =>
      case Chunk(p, shift, j) =>
    }
  }

  // A run, or a page with no chunk left in use, is given back.
  // The run at s is taken.
  predicate Held(runs: Runs, s: nat) { s in runs && runs[s].kind != FreeRun }

  lemma FreedNotHeld(runs: Runs, n: nat, s: nat)
    requires Layout(runs, n) && IsFree(runs, s)
    ensures !Held(runs, s)
  {
    if s in runs {
      assert InRun(runs, s, s);
      var t :| InRun(runs, t, s) && runs[t].kind == FreeRun;
      RunUnique(runs, n, s, t, s);
    }
  }

  // A page with no chunk in use is given back.
  lemma GonePage(runs: Runs, runs': Runs, n: nat, chunks: ChunkPages, s: nat)
    requires Layout(runs, n) && Layout(runs', n) && NoLoose(runs') && SameTaken(runs, runs', {s}) && !Held(runs', s)
    requires ChunkRuns(runs, n, chunks) && s in chunks
    requires (forall p :: p in chunks && p != s ==> Sane(chunks[p])) && NoneSet(chunks[s].bits, Reserved(chunks[s].shift))
    ensures ChunksOf(runs', n, chunks - {s})
    ensures forall o :: Live(runs', chunks - {s}, o) <==> Live(runs, chunks, o)
  {
  }

  lemma GoneLive(runs: Runs, runs': Runs, n: nat, chunks: ChunkPages, s: nat)
    requires Layout(runs, n) && Layout(runs', n) && NoLoose(runs') && SameTaken(runs, runs', {s})
    requires s in runs && runs[s].kind == PageRun && ChunksOf(runs, n, chunks) && !Held(runs', s)
    ensures ChunksOf(runs', n, chunks)
    ensures forall o :: Live(runs', chunks, o) <==> Live(runs, chunks, o) && o != Whole(s, runs[s].len)
  {
  }
}
