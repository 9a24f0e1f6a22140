// Pages cut into chunks of one size, and the live allocations of a pool.
module SlabChunks {
  import opened SlabPages
  import opened SlabRuns

  const PageSize: nat := 4096
  const MaxSize: nat := 2048         // ngx_slab_max_size
  const ExactShift: nat := 6         // as many chunks as bits in a word
  const WordBits: nat := 64

  type Shift = s: nat | 3 <= s <= 11 witness 3

  function Size(shift: Shift): nat {
    match shift
    case 3 => 8
    case 4 => 16
    case 5 => 32
    case 6 => 64
    case 7 => 128
    case 8 => 256
    case 9 => 512
    case 10 => 1024
    case _ => 2048
  }

  function Chunks(shift: Shift): nat { PageSize / Size(shift) }

  // The chunks that hold the chunk map of a page of small chunks.
  function Reserved(shift: Shift): nat {
    if shift >= ExactShift then 0
    else if Chunks(shift) / (Size(shift) * 8) == 0 then 1
    else Chunks(shift) / (Size(shift) * 8)
  }

  lemma Sizes(shift: Shift)
    ensures Chunks(shift) * Size(shift) == PageSize && 2 <= Chunks(shift) && Reserved(shift) + 1 < Chunks(shift)
    ensures shift < ExactShift ==> Chunks(shift) % WordBits == 0 && Chunks(shift) > 0 && 0 < Reserved(shift) < 10
    ensures shift < ExactShift ==> Chunks(shift) <= Reserved(shift) * Size(shift) * 8
    ensures shift == ExactShift ==> Chunks(shift) == WordBits
    ensures shift > 3 ==> Size(shift) == 2 * Size(shift - 1)
  {
  }

  datatype ChunkPage = ChunkPage(shift: Shift, bits: seq<bool>)

  type ChunkPages = map<nat, ChunkPage>

  predicate AllSet(bits: seq<bool>) { forall j :: 0 <= j < |bits| ==> bits[j] }

  predicate NoneSet(bits: seq<bool>, from: nat) { forall j :: from <= j < |bits| ==> !bits[j] }

  // Which kind of chunk map a page of the size has.
  function TagFor(shift: Shift): Tag {
    if shift < ExactShift then Small else if shift == ExactShift then Exact else Big
  }

  // The record and the in-page map of a page of chunks.
  ghost predicate Shows(r: Record, inPage: seq<bool>, cp: ChunkPage) {
    && r.prev.tag == TagFor(cp.shift)
    && (if cp.shift < ExactShift then r.slab == SmallShift(cp.shift) && inPage == cp.bits
        else if cp.shift == ExactShift then r.slab == ExactMap(cp.bits)
        else r.slab == BigMap(cp.shift, cp.bits))
  }

  // The map chunks are marked ...
  ghost predicate Formed(cp: ChunkPage) {
    |cp.bits| == Chunks(cp.shift) && forall j :: 0 <= j < Reserved(cp.shift) ==> cp.bits[j]
  }

  // ... and at least one chunk is in use.
  ghost predicate Sane(cp: ChunkPage) {
    Formed(cp) && !NoneSet(cp.bits, Reserved(cp.shift))
  }

  // ----- live allocations

  datatype Block = Whole(s: nat, len: nat) | Chunk(p: nat, shift: Shift, j: nat)

  function Addr(b: Block): nat {
    match b
    case Whole(s, _) => s * PageSize
    case Chunk(p, shift, j) => p * PageSize + j * Size(shift)
  }

  function Bytes(b: Block): nat {
    match b
    case Whole(_, len) => len * PageSize
    case Chunk(_, shift, _) => Size(shift)
  }

  predicate InUse(chunks: ChunkPages, p: nat, shift: Shift, j: nat) {
    && p in chunks && chunks[p].shift == shift
    && Reserved(shift) <= j < |chunks[p].bits| && chunks[p].bits[j]
  }

  predicate Live(runs: Runs, chunks: ChunkPages, b: Block) {
    match b
    case Whole(s, len) => s in runs && runs[s] == Run(len, PageRun)
    case Chunk(p, shift, j) => InUse(chunks, p, shift, j)
  }

  // The pages of chunks are the chunked runs of the pool.
  ghost predicate ChunkRuns(runs: Runs, n: nat, chunks: ChunkPages) {
    && Layout(runs, n)
    && (forall s :: s in runs && runs[s].kind == Chunked ==> s in chunks && runs[s].len == 1)
    && (forall p :: p in chunks ==> p in runs && runs[p].kind == Chunked)
  }

  ghost predicate ChunksOf(runs: Runs, n: nat, chunks: ChunkPages) {
    ChunkRuns(runs, n, chunks) && forall p :: p in chunks ==> Sane(chunks[p])
  }

  function FirstPage(b: Block): nat { match b case Whole(s, _) => s case Chunk(p, _, _) => p }

  function PagesOf(b: Block): nat { match b case Whole(_, len) => len case Chunk(_, _, _) => 1 }

  // A live allocation lies in the pages of its run.
  lemma LiveInRun(runs: Runs, n: nat, chunks: ChunkPages, b: Block)
    requires ChunksOf(runs, n, chunks) && Live(runs, chunks, b)
    ensures FirstPage(b) in runs && runs[FirstPage(b)].len == PagesOf(b)
    ensures FirstPage(b) * PageSize <= Addr(b) && Addr(b) + Bytes(b) <= (FirstPage(b) + PagesOf(b)) * PageSize
    ensures FirstPage(b) + PagesOf(b) <= n && 0 < Bytes(b)
  {
    if b.Chunk? {
      Sizes(b.shift);
      ChunkInside(b.j, Chunks(b.shift), Size(b.shift));
    }
  }

  lemma ChunkInside(j: nat, k: nat, size: nat)
    requires j < k
    ensures j * size + size <= k * size
  {
    assert (j + 1) * size <= k * size by { MulMono(j + 1, k, size); }
  }

  lemma MulMono(a: nat, b: nat, c: nat)
    requires a <= b
    ensures a * c <= b * c
  {
  }

  predicate Disjoint(a: Block, b: Block) {
    Addr(a) + Bytes(a) <= Addr(b) || Addr(b) + Bytes(b) <= Addr(a)
  }

  // Live allocations do not overlap and lie inside the pool.
  lemma LiveDisjoint(runs: Runs, n: nat, chunks: ChunkPages, a: Block, b: Block)
    requires ChunksOf(runs, n, chunks) && Live(runs, chunks, a) && Live(runs, chunks, b) && a != b
    ensures Disjoint(a, b) && Addr(a) + Bytes(a) <= n * PageSize
  {
    LiveInRun(runs, n, chunks, a);
    LiveInRun(runs, n, chunks, b);
    MulMono(FirstPage(a) + PagesOf(a), n, PageSize);
    if FirstPage(a) < FirstPage(b) {
      MulMono(FirstPage(a) + PagesOf(a), FirstPage(b), PageSize);
    } else if FirstPage(b) < FirstPage(a) {
      MulMono(FirstPage(b) + PagesOf(b), FirstPage(a), PageSize);
    } else {
      assert a.Chunk? && b.Chunk? && a.j != b.j;
      if a.j < b.j { ChunkInside(a.j, b.j, Size(a.shift)); } else { ChunkInside(b.j, a.j, Size(a.shift)); }
    }
  }

  predicate Aligned(b: Block) {
    match b
    case Whole(_, _) => Addr(b) % PageSize == 0
    case Chunk(_, shift, _) => Addr(b) % Size(shift) == 0
  }

  // A live allocation is aligned to its size, or to a page.
  lemma LiveAligned(runs: Runs, n: nat, chunks: ChunkPages, b: Block)
    requires ChunksOf(runs, n, chunks) && Live(runs, chunks, b)
    ensures Aligned(b)
  {
    if b.Chunk? { Decimate(b.p, b.j, b.shift); }
  }

  lemma Multiple(k: nat, size: nat)
    requires size > 0
    ensures (k * size) % size == 0 && (k * size) / size == k
  {
    var q, r := (k * size) / size, (k * size) % size;
    assert k * size == q * size + r;
    if q < k {
      MulMono(q + 1, k, size);
    } else if k < q {
      MulMono(k + 1, q, size);
    }
  }

  lemma Decimate(p: nat, j: nat, shift: Shift)
    ensures (p * PageSize + j * Size(shift)) % Size(shift) == 0
    ensures (j * Size(shift)) % Size(shift) == 0 && (j * Size(shift)) / Size(shift) == j
  {
    Sizes(shift);
    Multiple(j, Size(shift));
    Multiple(p * Chunks(shift) + j, Size(shift));
    Distribute(p, Chunks(shift), j, Size(shift));
  }

  lemma Distribute(p: nat, k: nat, j: nat, size: nat)
    ensures (p * k + j) * size == p * (k * size) + j * size
  {
  }

  // Outside the chunk map of a page: Chunks / 8 bytes at its start, if the
  // chunks are small.
  predicate ClearOfMap(b: Block, p: nat, shift: Shift) {
    shift < ExactShift ==> Addr(b) + Bytes(b) <= p * PageSize || p * PageSize + Chunks(shift) / 8 <= Addr(b)
  }

  lemma LiveClearOfMaps(runs: Runs, n: nat, chunks: ChunkPages, b: Block, p: nat)
    requires ChunksOf(runs, n, chunks) && Live(runs, chunks, b) && p in chunks
    ensures ClearOfMap(b, p, chunks[p].shift)
  {
    LiveInRun(runs, n, chunks, b);
    Sizes(chunks[p].shift);
    if FirstPage(b) < p {
      MulMono(FirstPage(b) + PagesOf(b), p, PageSize);
    } else if p < FirstPage(b) {
      MulMono(p + 1, FirstPage(b), PageSize);
    } else {
      MulMono(Reserved(b.shift), b.j, Size(b.shift));
    }
  }

  // ----- which size serves a request

  // The smallest chunk size that fits.
  function ShiftOf(size: nat): (shift: Shift)
    requires size <= MaxSize
    ensures size <= Size(shift) && (shift == 3 || Size(shift - 1) < size)
  {
    if size <= 8 then 3 else if size <= 16 then 4 else if size <= 32 then 5 else if size <= 64 then 6
    else if size <= 128 then 7 else if size <= 256 then 8 else if size <= 512 then 9 else if size <= 1024 then 10 else 11
  }

  // ----- what a free decides

  datatype Verdict = Accept | OutsidePool | NoRecord | WrongChunk | ChunkFree | PageFree | WrongPage

  // The address is a chunk that holds the chunk map of its page.
  predicate InMap(chunks: ChunkPages, a: int) {
    var p := a / PageSize;
    a >= 0 && p in chunks && a % PageSize % Size(chunks[p].shift) == 0 && a % PageSize / Size(chunks[p].shift) < Reserved(chunks[p].shift)
  }

  // The address is behind the last page, but not behind the end of the pool, so
  // that the range check lets it through; the end of the last page always is one.
  predicate PastPages(n: nat, end: nat, a: int) { n * PageSize <= a <= end }

  // The checks of a free, from the page type and the chunk map. An address past
  // the pages passes the range check, and selects a page record that does not
  // exist.
  ghost function Judge(runs: Runs, n: nat, end: nat, chunks: ChunkPages, a: int): Verdict {
    var p := a / PageSize;
    if a < 0 || a > end then OutsidePool
    else if p >= n then NoRecord
    else if p in chunks then
      var cp := chunks[p];
      if a % PageSize % Size(cp.shift) != 0 then WrongChunk
      else if a % PageSize / Size(cp.shift) < |cp.bits| && !cp.bits[a % PageSize / Size(cp.shift)] then ChunkFree
      else Accept
    else if a % PageSize != 0 then WrongChunk
    else if IsFree(runs, p) then PageFree
    else if p !in runs then WrongPage
    else Accept
  }

  // A free goes through exactly for the address of a live allocation - or, as
  // nothing checks for that, of a chunk that holds a chunk map.
  lemma AcceptedIff(runs: Runs, n: nat, end: nat, chunks: ChunkPages, a: int)
    requires ChunksOf(runs, n, chunks) && NoLoose(runs) && n * PageSize <= end
    ensures Judge(runs, n, end, chunks, a) == Accept <==> (exists b :: Live(runs, chunks, b) && Addr(b) == a) || InMap(chunks, a)
  {
    if b :| Live(runs, chunks, b) && Addr(b) == a {
      LiveAccepted(runs, n, end, chunks, b);
    }
    if Judge(runs, n, end, chunks, a) == Accept && !InMap(chunks, a) {
      var b := AcceptedLive(runs, n, end, chunks, a);
    }
    if InMap(chunks, a) {
      MapAccepted(runs, n, end, chunks, a);
    }
  }

  lemma AcceptedLive(runs: Runs, n: nat, end: nat, chunks: ChunkPages, a: int) returns (b: Block)
    requires ChunksOf(runs, n, chunks) && NoLoose(runs) && Judge(runs, n, end, chunks, a) == Accept && !InMap(chunks, a)
    ensures Live(runs, chunks, b) && Addr(b) == a
    ensures b == if a / PageSize in chunks
                 then Chunk(a / PageSize, chunks[a / PageSize].shift, a % PageSize / Size(chunks[a / PageSize].shift))
                 else Whole(a / PageSize, runs[a / PageSize].len)
  {
    var p := a / PageSize;
    if p in chunks {
      var shift := chunks[p].shift;
      b := Chunk(p, shift, a % PageSize / Size(shift));
      IndexBelow(a % PageSize, shift);
      Recompose(a % PageSize, shift);
    } else {
      b := Whole(p, runs[p].len);
      if runs[p].kind == FreeRun { assert InRun(runs, p, p); }
    }
  }

  lemma Recompose(x: nat, shift: Shift)
    requires x % Size(shift) == 0
    ensures x / Size(shift) * Size(shift) == x
  {
  }

  lemma IndexBelow(x: nat, shift: Shift)
    requires x < PageSize
    ensures x / Size(shift) < Chunks(shift)
  {
  }

  lemma MapAccepted(runs: Runs, n: nat, end: nat, chunks: ChunkPages, a: int)
    requires ChunksOf(runs, n, chunks) && InMap(chunks, a) && n * PageSize <= end
    ensures Judge(runs, n, end, chunks, a) == Accept
  {
  }

  lemma LiveAccepted(runs: Runs, n: nat, end: nat, chunks: ChunkPages, b: Block)
    requires ChunksOf(runs, n, chunks) && Live(runs, chunks, b) && n * PageSize <= end
    ensures Judge(runs, n, end, chunks, Addr(b)) == Accept
  {
    LiveInRun(runs, n, chunks, b);
    if b.Chunk? {
      Sizes(b.shift);
      ChunkInside(b.j, Chunks(b.shift), Size(b.shift));
      Decode(b.p, b.j * Size(b.shift));
      Decimate(b.p, b.j, b.shift);
    } else {
      Decode(b.s, 0);
      if t :| InRun(runs, t, b.s) && runs[t].kind == FreeRun {
        assert InRun(runs, b.s, b.s);
        RunUnique(runs, n, t, b.s, b.s);
      }
    }
  }

  lemma Decode(p: nat, x: nat)
    requires x < PageSize
    ensures (p * PageSize + x) / PageSize == p && (p * PageSize + x) % PageSize == x
  {
  }

  // The start of a page of small chunks is never allocated, yet a free of it
  // goes through.
  lemma MapSlipsThrough(runs: Runs, n: nat, end: nat, chunks: ChunkPages, p: nat)
    requires ChunksOf(runs, n, chunks) && p in chunks && chunks[p].shift < ExactShift && n * PageSize <= end
    ensures Judge(runs, n, end, chunks, p * PageSize) == Accept && !exists b :: Live(runs, chunks, b) && Addr(b) == p * PageSize
  {
    Decode(p, 0);
    Sizes(chunks[p].shift);
    MapAccepted(runs, n, end, chunks, p * PageSize);
    forall b | Live(runs, chunks, b) ensures Addr(b) != p * PageSize {
      LiveClearOfMaps(runs, n, chunks, b, p);
      LiveInRun(runs, n, chunks, b);
    }
  }

  lemma PageBelow(a: int, n: nat)
    ensures a / PageSize >= n <==> a >= n * PageSize
  {
  }
}
