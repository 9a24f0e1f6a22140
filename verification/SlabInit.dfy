// A pool laid out in a piece of memory: the heads of the slots, their statistics,
// the page records, and as many whole pages as are left.
module SlabInit {
  import opened SlabChunks
  import opened SlabSlotOps
  import opened SlabSlots

  const RecordSize: nat := 24
  const StatSize: nat := 32
  const HeadsSize: nat := SlotCount * (RecordSize + StatSize)

  function AlignPage(a: nat): (r: nat)
    ensures a <= r < a + PageSize && r % PageSize == 0
  {
    (a + (PageSize - 1)) / PageSize * PageSize
  }

  // As many pages as fit with their records, not counting what alignment takes.
  function Guess(records: nat, end: nat): nat
    requires records <= end
  {
    (end - records) / (PageSize + RecordSize)
  }

  function StartOf(records: nat, end: nat): nat
    requires records <= end
  {
    AlignPage(records + Guess(records, end) * RecordSize)
  }

  function PagesIn(records: nat, end: nat): nat
    requires records <= end
  {
    var pages, start := Guess(records, end), StartOf(records, end);
    if pages == 0 then 0
    else
      GuessFits(records, end);
      if pages > (end - start) / PageSize then (end - start) / PageSize else pages
  }

  lemma GuessFits(records: nat, end: nat)
    requires records <= end && Guess(records, end) > 0
    ensures StartOf(records, end) < end
  {
    var pages := Guess(records, end);
    assert end - records >= pages * (PageSize + RecordSize);
  }

  // Records and pages fit, and alignment takes at most one page.
  lemma PagesFit(records: nat, end: nat)
    requires records <= end && PagesIn(records, end) > 0
    ensures var pages, start := PagesIn(records, end), StartOf(records, end);
      && records + pages * RecordSize <= start && start + pages * PageSize <= end
      && end - records < (pages + 2) * (PageSize + RecordSize)
  {
    var pages := Guess(records, end);
    GuessFits(records, end);
    assert pages * (PageSize + RecordSize) <= end - records < (pages + 1) * (PageSize + RecordSize);
    assert end - StartOf(records, end) > (pages - 1) * PageSize;
  }

  lemma StartAligned(records: nat, end: nat)
    requires records <= end
    ensures StartOf(records, end) % PageSize == 0
  {
  }

  // ngx_slab_init, for memory with room for a page.
  method Init(slots: nat, end: nat) returns (pool: SlabPool, start: nat)
    requires slots + HeadsSize <= end && PagesIn(slots + HeadsSize, end) > 0
    ensures fresh(pool) && pool.Valid() && forall b :: !Live(pool.pool.runs, pool.chunks, b)
    ensures start % PageSize == 0 && slots + HeadsSize + pool.pool.pages.Length * RecordSize <= start
    ensures start + pool.pool.pages.Length * PageSize <= end && pool.end == end - start
    ensures end - slots - HeadsSize < (pool.pool.pages.Length + 2) * (PageSize + RecordSize)
  {
    hide PagesIn, StartOf, Live, SlabPool.Valid;
    PagesFit(slots + HeadsSize, end);
    StartAligned(slots + HeadsSize, end);
    var pages;
    pages, start := Layout(slots, end);
    pool := new SlabPool(pages, end - start);
  }

  // The number of pages and the start of the first.
  method Layout(slots: nat, end: nat) returns (pages: nat, start: nat)
    requires slots + HeadsSize <= end && PagesIn(slots + HeadsSize, end) > 0
    ensures pages == PagesIn(slots + HeadsSize, end) && start == StartOf(slots + HeadsSize, end)
  {
    var p := slots;
    var size := end - p;
    p := p + SlotCount * RecordSize;
    p := p + SlotCount * StatSize;
    size := size - SlotCount * (RecordSize + StatSize);
    pages := size / (PageSize + RecordSize);
    GuessFits(p, end);
    start := AlignPage(p + pages * RecordSize);
    var m := pages - (end - start) / PageSize;
    if m > 0 {
      pages := pages - m;
    }
  }
}
