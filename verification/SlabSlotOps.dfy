// The slots of a slab pool: each is a list of the pages of one chunk size that
// still have a free chunk.
module SlabSlotOps {
  import opened SlabPages
  import opened SlabRuns
  import opened SlabPageOps
  import opened SlabPageFree
  import opened SlabChunks

  const SlotCount: nat := 9

  type Slots = seq<seq<Link>>

  function SlotOf(shift: Shift): nat { shift - 3 }

  // Slot i is the ring from Head(i + 1) through pages of its chunk size.
  ghost predicate SlotAt(m: Memory, chunks: ChunkPages, c: seq<Link>, shift: Shift) {
    && ListAt(m, c, TagFor(shift)) && c[0] == Head(SlotOf(shift) + 1)
    && forall x :: 0 < x < |c| ==> c[x].Page? && c[x].n in chunks && chunks[c[x].n].shift == shift
  }

  // A page of chunks is in the list of its size unless its link is null.
  ghost predicate SlotsAt(m: Memory, chunks: ChunkPages, slots: Slots) {
    && |slots| == SlotCount
    && (forall shift: Shift :: SlotAt(m, chunks, slots[SlotOf(shift)], shift))
    && (forall p :: p in chunks ==> Page(p) in m && (m[Page(p)].next != Null ==> Page(p) in slots[SlotOf(chunks[p].shift)]))
  }

  // The record and the in-page map show the page's chunks.
  ghost predicate Mapped(m: Memory, maps: seq<seq<bool>>, chunks: ChunkPages) {
    forall p :: p in chunks ==> Page(p) in m && p < |maps| && Shows(m[Page(p)], maps[p], chunks[p])
  }

  // Exactly the full pages are out of the lists; `but` is being changed.
  ghost predicate FullOut(m: Memory, chunks: ChunkPages, but: set<nat>) {
    forall p :: p in chunks && p !in but && Page(p) in m ==> (AllSet(chunks[p].bits) <==> m[Page(p)].next == Null)
  }

  // Only records of slots and of pages of chunks differ.
  ghost predicate ForeignOnly(m: Memory, m': Memory, runs: Runs) {
    && m'.Keys == m.Keys
    && (forall l :: l in m && !Foreign(runs, l) ==> m'[l] == m[l])
    && (forall p: nat :: Page(p) in m && p in runs && runs[p].kind == Chunked ==> m'[Page(p)].prev.tag != PageTag)
  }

  // The page allocator does not see such changes.
  lemma ForeignGood(m: Memory, m': Memory, n: nat, runs: Runs, c: seq<Link>)
    requires Good(m, n, runs, c) && ForeignOnly(m, m', runs)
    ensures Good(m', n, runs, c)
  {
    hide Layout, Coalesced, ListAt, RunAt;
    ForeignList(m, m', runs, c);
    forall s | s in runs ensures RunAt(m', s, runs[s]) {
      ForeignRun(m, m', n, runs, s);
    }
  }

  lemma ForeignList(m: Memory, m': Memory, runs: Runs, c: seq<Link>)
    requires ListAt(m, c, PageTag) && FreeListed(runs, c) && ForeignOnly(m, m', runs)
    ensures ListAt(m', c, PageTag)
  {
    forall x | 0 <= x < |c| ensures c[x] in m' && m'[c[x]] == m[c[x]] {
      if Foreign(runs, c[x]) { ForeignUnlisted(runs, c, c[x]); }
    }
    ListFrame(m, m', c, PageTag);
  }

  lemma ForeignRun(m: Memory, m': Memory, n: nat, runs: Runs, s: nat)
    requires Layout(runs, n) && s in runs && RunAt(m, s, runs[s]) && ForeignOnly(m, m', runs)
    ensures RunAt(m', s, runs[s])
  {
    if runs[s].kind != Chunked {
      forall i | s <= i < s + runs[s].len ensures Soft(m, m', Page(i)) {
        assert i in runs ==> i == s;
      }
      SoftRun(m, m', s, runs[s]);
    }
  }

  // An allocated page becomes a page of chunks.
  lemma ChunkedGood(m: Memory, m': Memory, n: nat, runs: Runs, c: seq<Link>, s: nat)
    requires Good(m, n, runs, c) && NoLoose(runs) && s in runs && runs[s] == Run(1, PageRun) && ForeignOnly(m, m', Rekind(runs, s, Chunked))
    ensures Good(m', n, Rekind(runs, s, Chunked), c) && NoLoose(Rekind(runs, s, Chunked))
    ensures FreeSet(Rekind(runs, s, Chunked), n) == FreeSet(runs, n)
  {
    hide Layout, Coalesced, ListAt, IsFree;
    var r := Rekind(runs, s, Chunked);
    RekindLayout(runs, n, s, Chunked);
    ChunkedCoalesced(runs, s);
    ForeignList(m, m', r, c);
    forall t | t in r ensures RunAt(m', t, r[t]) {
      if t == s {
        assert RunAt(m, s, runs[s]) && Page(s) in m;
      } else {
        ForeignRun(m, m', n, r, t);
      }
    }
    forall p ensures IsFree(r, p) <==> IsFree(runs, p) {
      ChunkedFree(runs, s, p);
    }
  }

  lemma ChunkedFree(runs: Runs, s: nat, p: int)
    requires s in runs && runs[s].kind == PageRun
    ensures IsFree(Rekind(runs, s, Chunked), p) <==> IsFree(runs, p)
  {
    assert forall t :: InRun(Rekind(runs, s, Chunked), t, p) <==> InRun(runs, t, p);
  }

  lemma ChunkedCoalesced(runs: Runs, s: nat)
    requires Coalesced(runs) && s in runs
    ensures Coalesced(Rekind(runs, s, Chunked))
  {
    var r := Rekind(runs, s, Chunked);
    forall t | t in r && r[t].kind == FreeRun && End(r, t) in r ensures r[End(r, t)].kind != FreeRun {
      assert End(r, t) == End(runs, t);
    }
  }

  // ----- what each change does to the slots

  lemma SlotFrame(m: Memory, m': Memory, chunks: ChunkPages, chunks': ChunkPages, c: seq<Link>, shift: Shift)
    requires SlotAt(m, chunks, c, shift)
    requires forall x :: 0 <= x < |c| ==> c[x] in m' && m'[c[x]].next == m[c[x]].next && m'[c[x]].prev == m[c[x]].prev
    requires forall x :: 0 < x < |c| && c[x].Page? && c[x].n in chunks ==> c[x].n in chunks' && chunks'[c[x].n].shift == chunks[c[x].n].shift
    ensures SlotAt(m', chunks', c, shift)
  {
    ListFrame(m, m', c, TagFor(shift));
  }

  // No link is in two slots.
  lemma SlotsApart(m: Memory, chunks: ChunkPages, c: seq<Link>, d: seq<Link>, shift: Shift, shift': Shift, l: Link)
    requires SlotAt(m, chunks, c, shift) && SlotAt(m, chunks, d, shift') && shift != shift' && l in c
    ensures l !in d
  {
    var x :| 0 <= x < |c| && c[x] == l;
    forall y | 0 <= y < |d| ensures d[y] != l {
      assert x == 0 ==> l == Head(SlotOf(shift) + 1);
      assert y > 0 ==> d[y].Page? && chunks[d[y].n].shift == shift';
    }
  }

  // New bits for page p.
  lemma RebitSlots(m: Memory, m': Memory, chunks: ChunkPages, slots: Slots, p: nat, bits: seq<bool>)
    requires SlotsAt(m, chunks, slots) && p in chunks && m'.Keys == m.Keys
    requires forall l :: l in m ==> m'[l].next == m[l].next && m'[l].prev == m[l].prev
    ensures SlotsAt(m', chunks[p := chunks[p].(bits := bits)], slots)
  {
    forall shift: Shift ensures SlotAt(m', chunks[p := chunks[p].(bits := bits)], slots[SlotOf(shift)], shift) {
      assert SlotAt(m, chunks, slots[SlotOf(shift)], shift);
      SlotFrame(m, m', chunks, chunks[p := chunks[p].(bits := bits)], slots[SlotOf(shift)], shift);
    }
  }

  // A page leaves its slot and gets null links.
  function Unlisted(m: Memory, p: nat, tag: Tag): Memory
    requires Page(p) in m && m[Page(p)].prev.ptr in m && m[Page(p)].next in m
  {
    var m1 := Unlinked(m, Page(p));
    m1[Page(p) := m1[Page(p)].(next := Null, prev := Tagged(Null, tag))]
  }

  lemma UnlistedNext(m: Memory, p: nat, tag: Tag)
    requires Page(p) in m && m[Page(p)].prev.ptr in m && m[Page(p)].next in m
    ensures Page(p) in Unlisted(m, p, tag) && Unlisted(m, p, tag)[Page(p)].next == Null
  {
  }

  lemma UnlistSlot(m: Memory, chunks: ChunkPages, c: seq<Link>, shift: Shift, p: nat) returns (i: nat)
    requires SlotAt(m, chunks, c, shift) && Page(p) in c
    ensures 0 < i < |c| && c[i] == Page(p) && Page(p) in m && m[Page(p)].prev.ptr in m && m[Page(p)].next in m
    ensures m[Page(p)].next == After(c, i) && After(c, i) in c && m[Page(p)].prev.ptr in c
    ensures SlotAt(Unlisted(m, p, TagFor(shift)), chunks, Without(c, i), shift)
    ensures LinksOnly(m, Unlinked(m, Page(p)), c)
  {
    hide LinksOnly;
    i :| 0 <= i < |c| && c[i] == Page(p);
    UnlinkList(m, c, TagFor(shift), i);
    var m1, m', d := Unlinked(m, Page(p)), Unlisted(m, p, TagFor(shift)), Without(c, i);
    forall x | 0 <= x < |d| ensures d[x] == c[if x < i then x else x + 1] && d[x] in m' && m'[d[x]] == m1[d[x]] {}
    ListFrame(m1, m', d, TagFor(shift));
    assert After(c, i) == c[if i + 1 < |c| then i + 1 else 0];
  }

  lemma UnlistSlots(m: Memory, chunks: ChunkPages, slots: Slots, p: nat) returns (i: nat)
    requires SlotsAt(m, chunks, slots) && p in chunks && m[Page(p)].next != Null
    ensures var c := slots[SlotOf(chunks[p].shift)];
      && 0 < i < |c| && c[i] == Page(p) && m[Page(p)].prev.ptr in m && m[Page(p)].next in m
      && SlotsAt(Unlisted(m, p, TagFor(chunks[p].shift)), chunks, slots[SlotOf(chunks[p].shift) := Without(c, i)])
  {
    hide LinksOnly, ListAt;
    var shift := chunks[p].shift;
    var c := slots[SlotOf(shift)];
    i := UnlistSlot(m, chunks, c, shift, p);
    var m' := Unlisted(m, p, TagFor(shift));
    var slots' := slots[SlotOf(shift) := Without(c, i)];
    forall other: Shift ensures SlotAt(m', chunks, slots'[SlotOf(other)], other) {
      if other != shift {
        UnlistElsewhere(m, m', chunks, slots, shift, other, i, p);
      }
    }
    forall q | q in chunks && m'[Page(q)].next != Null ensures Page(q) in slots'[SlotOf(chunks[q].shift)] {
      UnlistKept(m, m', chunks, slots, shift, i, p, q);
    }
  }

  lemma UnlistElsewhere(m: Memory, m': Memory, chunks: ChunkPages, slots: Slots, shift: Shift, other: Shift, i: nat, p: nat)
    requires SlotsAt(m, chunks, slots) && other != shift && i < |slots[SlotOf(shift)]| && slots[SlotOf(shift)][i] == Page(p)
    requires Page(p) in m && m[Page(p)].prev.ptr in m && m[Page(p)].next in m && m' == Unlisted(m, p, TagFor(shift))
    requires LinksOnly(m, Unlinked(m, Page(p)), slots[SlotOf(shift)])
    ensures SlotAt(m', chunks, slots[SlotOf(other)], other)
  {
    var c, d := slots[SlotOf(shift)], slots[SlotOf(other)];
    assert SlotAt(m, chunks, c, shift) && SlotAt(m, chunks, d, other);
    hide SlotAt;
    forall x | 0 <= x < |d| ensures d[x] in m' && m'[d[x]] == m[d[x]] {
      SlotsApart(m, chunks, d, c, other, shift, d[x]);
      InSlotMemory(m, chunks, d, other, x);
    }
    SlotFrame(m, m', chunks, chunks, d, other);
  }

  lemma InSlotMemory(m: Memory, chunks: ChunkPages, d: seq<Link>, shift: Shift, x: nat)
    requires SlotAt(m, chunks, d, shift) && x < |d|
    ensures d[x] in m && d[x] in d
  {
  }

  lemma UnlistKept(m: Memory, m': Memory, chunks: ChunkPages, slots: Slots, shift: Shift, i: nat, p: nat, q: nat)
    requires SlotsAt(m, chunks, slots) && i < |slots[SlotOf(shift)]| && slots[SlotOf(shift)][i] == Page(p)
    requires Page(p) in m && m[Page(p)].prev.ptr in m && m[Page(p)].next in m && m' == Unlisted(m, p, TagFor(shift))
    requires LinksOnly(m, Unlinked(m, Page(p)), slots[SlotOf(shift)]) && q in chunks && m'[Page(q)].next != Null
    ensures Page(q) in slots[SlotOf(shift) := Without(slots[SlotOf(shift)], i)][SlotOf(chunks[q].shift)]
  {
    hide SlotAt;
    var c := slots[SlotOf(shift)];
    assert q != p && m[Page(q)].next != Null;
    if chunks[q].shift == shift {
      var x :| 0 <= x < |c| && c[x] == Page(q);
      assert Without(c, i)[if x < i then x else x - 1] == Page(q);
    }
  }

  // The links may be set in the order of a free.
  lemma PushedInOrder(m: Memory, head: Link, l: Link, tag: Tag)
    requires l in m && head in m && l != head && m[head].next in m && m[head].next != l
    ensures var m3 := WithPrev(WithNext(WithNext(m, l, m[head].next), head, l), l, Tagged(head, tag));
      && l in WithNext(m, l, m[head].next) && head in WithNext(m, l, m[head].next)
      && m3.Keys == m.Keys && m3[l].next == m[head].next
      && WithPrev(m3, m[head].next, Tagged(l, tag)) == Pushed(m, head, l, tag)
  {
    var m3 := WithPrev(WithNext(WithNext(m, l, m[head].next), head, l), l, Tagged(head, tag));
    var a, b := WithPrev(m3, m[head].next, Tagged(l, tag)), Pushed(m, head, l, tag);
    assert a.Keys == m.Keys == b.Keys;
    assert a[l] == b[l] && a[head] == b[head] && a[m[head].next] == b[m[head].next];
  }

  // A full page comes back to the front of its slot.
  lemma RelistSlots(m: Memory, chunks: ChunkPages, slots: Slots, p: nat)
    requires SlotsAt(m, chunks, slots) && p in chunks && m[Page(p)].next == Null
    ensures var h := Head(SlotOf(chunks[p].shift) + 1); h in m && m[h].next in m
    ensures var shift, c := chunks[p].shift, slots[SlotOf(chunks[p].shift)];
      |c| > 0 && SlotsAt(Pushed(m, Head(SlotOf(shift) + 1), Page(p), TagFor(shift)), chunks, slots[SlotOf(shift) := [c[0], Page(p)] + c[1..]])
  {
    hide LinksOnly, ListAt, Pushed;
    var shift := chunks[p].shift;
    var c := slots[SlotOf(shift)];
    RelistSlot(m, chunks, c, shift, p);
    var m' := Pushed(m, Head(SlotOf(shift) + 1), Page(p), TagFor(shift));
    var slots' := slots[SlotOf(shift) := [c[0], Page(p)] + c[1..]];
    forall other: Shift ensures SlotAt(m', chunks, slots'[SlotOf(other)], other) {
      if other != shift { RelistElsewhere(m, m', chunks, slots, shift, other, p); }
    }
    forall q | q in chunks && m'[Page(q)].next != Null ensures Page(q) in slots'[SlotOf(chunks[q].shift)] {
      RelistKept(m, m', chunks, slots, shift, p, q);
    }
  }

  lemma NullUnlisted(m: Memory, chunks: ChunkPages, c: seq<Link>, shift: Shift, l: Link)
    requires SlotAt(m, chunks, c, shift) && l in m && m[l].next == Null
    ensures l !in c
  {
    forall x | 0 <= x < |c| ensures c[x] != l {
      RingAt(m, c, TagFor(shift), x);
    }
  }

  lemma RelistSlot(m: Memory, chunks: ChunkPages, c: seq<Link>, shift: Shift, p: nat)
    requires SlotAt(m, chunks, c, shift) && p in chunks && chunks[p].shift == shift && Page(p) in m && m[Page(p)].next == Null
    ensures |c| > 0 && c[0] in m && c[0] == Head(SlotOf(shift) + 1) && m[c[0]].next in m
    ensures var m' := Pushed(m, c[0], Page(p), TagFor(shift));
      && SlotAt(m', chunks, [c[0], Page(p)] + c[1..], shift)
      && m'.Keys == m.Keys && LinksOnly(m[Page(p) := m'[Page(p)]], m', c) && m'[Page(p)].slab == m[Page(p)].slab
  {
    NullUnlisted(m, chunks, c, shift, Page(p));
    PushList(m, c, TagFor(shift), Page(p));
  }

  lemma RelistElsewhere(m: Memory, m': Memory, chunks: ChunkPages, slots: Slots, shift: Shift, other: Shift, p: nat)
    requires SlotsAt(m, chunks, slots) && other != shift && p in chunks && m[Page(p)].next == Null && Page(p) in m'
    requires LinksOnly(m[Page(p) := m'[Page(p)]], m', slots[SlotOf(shift)])
    ensures SlotAt(m', chunks, slots[SlotOf(other)], other)
  {
    var c, d := slots[SlotOf(shift)], slots[SlotOf(other)];
    assert SlotAt(m, chunks, c, shift) && SlotAt(m, chunks, d, other);
    hide SlotAt;
    NullUnlisted(m, chunks, d, other, Page(p));
    forall x | 0 <= x < |d| ensures d[x] in m' && m'[d[x]] == m[d[x]] {
      SlotsApart(m, chunks, d, c, other, shift, d[x]);
      InSlotMemory(m, chunks, d, other, x);
    }
    SlotFrame(m, m', chunks, chunks, d, other);
  }

  lemma RelistKept(m: Memory, m': Memory, chunks: ChunkPages, slots: Slots, shift: Shift, p: nat, q: nat)
    requires SlotsAt(m, chunks, slots) && p in chunks && chunks[p].shift == shift && Page(p) in m' && |slots[SlotOf(shift)]| > 0
    requires LinksOnly(m[Page(p) := m'[Page(p)]], m', slots[SlotOf(shift)]) && q in chunks && m'[Page(q)].next != Null
    requires slots[SlotOf(shift)][0].Head?
    ensures var c := slots[SlotOf(shift)];
      Page(q) in slots[SlotOf(shift) := [c[0], Page(p)] + c[1..]][SlotOf(chunks[q].shift)]
  {
    hide SlotAt;
    var c := slots[SlotOf(shift)];
    var d := [c[0], Page(p)] + c[1..];
    if q == p {
      assert d[1] == Page(q);
    } else if chunks[q].shift == shift {
      assert m[Page(q)].next != Null;
      var x :| 0 <= x < |c| && c[x] == Page(q);
      assert d[x + 1] == Page(q);
    }
  }

  // What the page allocator leaves alone.
  lemma KeptSlots(m: Memory, m': Memory, n: nat, runs: Runs, chunks: ChunkPages, slots: Slots)
    requires SlotsAt(m, chunks, slots) && ForeignKept(m, m', runs)
    requires forall p :: p in chunks ==> p in runs && runs[p].kind == Chunked
    ensures SlotsAt(m', chunks, slots)
    ensures forall p :: p in chunks ==> Page(p) in m && Page(p) in m' && m'[Page(p)] == m[Page(p)]
  {
    forall p | p in chunks ensures Page(p) in m && Page(p) in m' && m'[Page(p)] == m[Page(p)] {
      assert Foreign(runs, Page(p));
    }
    forall shift: Shift ensures SlotAt(m', chunks, slots[SlotOf(shift)], shift) {
      KeptSlot(m, m', n, runs, chunks, slots[SlotOf(shift)], shift);
    }
  }

  lemma KeptSlot(m: Memory, m': Memory, n: nat, runs: Runs, chunks: ChunkPages, c: seq<Link>, shift: Shift)
    requires SlotAt(m, chunks, c, shift) && ForeignKept(m, m', runs)
    requires forall p :: p in chunks ==> p in runs && runs[p].kind == Chunked
    ensures SlotAt(m', chunks, c, shift)
  {
    forall x | 0 <= x < |c| ensures c[x] in m' && m'[c[x]] == m[c[x]] {
      assert Foreign(runs, c[x]);
    }
    SlotFrame(m, m', chunks, chunks, c, shift);
  }

  // A page in no list may stop being a page of chunks.
  lemma DropSlots(m: Memory, chunks: ChunkPages, slots: Slots, p: nat)
    requires SlotsAt(m, chunks, slots) && p in chunks && m[Page(p)].next == Null
    ensures SlotsAt(m, chunks - {p}, slots)
  {
    forall shift: Shift ensures SlotAt(m, chunks - {p}, slots[SlotOf(shift)], shift) {
      assert SlotAt(m, chunks, slots[SlotOf(shift)], shift);
      NullUnlisted(m, chunks, slots[SlotOf(shift)], shift, Page(p));
    }
  }

  // A new page of chunks is the only one in its slot.
  function Started(m: Memory, p: nat, h: nat, slab: SlabPages.Slab, tag: Tag): Memory
    requires Head(h) in m
  {
    m[Page(p) := Record(slab, Head(h), Tagged(Head(h), tag))][Head(h) := m[Head(h)].(next := Page(p))]
  }

  lemma StartSlots(m: Memory, chunks: ChunkPages, slots: Slots, p: nat, cp: ChunkPage, slab: SlabPages.Slab)
    requires SlotsAt(m, chunks, slots) && p !in chunks && slots[SlotOf(cp.shift)] == [Head(SlotOf(cp.shift) + 1)]
    ensures Head(SlotOf(cp.shift) + 1) in m
    ensures SlotsAt(Started(m, p, SlotOf(cp.shift) + 1, slab, TagFor(cp.shift)), chunks[p := cp],
                    slots[SlotOf(cp.shift) := [Head(SlotOf(cp.shift) + 1), Page(p)]])
  {
    var h := SlotOf(cp.shift) + 1;
    assert SlotAt(m, chunks, slots[SlotOf(cp.shift)], cp.shift);
    var m' := Started(m, p, h, slab, TagFor(cp.shift));
    var slots' := slots[SlotOf(cp.shift) := [Head(h), Page(p)]];
    forall shift: Shift ensures SlotAt(m', chunks[p := cp], slots'[SlotOf(shift)], shift) {
      if shift != cp.shift {
        var d := slots[SlotOf(shift)];
        assert SlotAt(m, chunks, d, shift);
        forall x | 0 <= x < |d| ensures d[x] in m' && m'[d[x]] == m[d[x]] {
          assert x > 0 ==> d[x].n in chunks;
        }
        SlotFrame(m, m', chunks, chunks[p := cp], d, shift);
      }
    }
    assert slots'[SlotOf(cp.shift)][1] == Page(p);
    forall q | q in chunks && m'[Page(q)].next != Null ensures Page(q) in slots'[SlotOf(chunks[q].shift)] {
      if chunks[q].shift == cp.shift {
        assert m[Page(q)].next != Null && Page(q) in slots[SlotOf(cp.shift)];
      }
    }
  }

  // ----- the slot layer as a whole

  // The pages of chunks, their maps and the slots agree; the pages in `but`
  // are being changed.
  ghost predicate Knit(m: Memory, maps: seq<seq<bool>>, chunks: ChunkPages, slots: Slots, but: set<nat>) {
    && SlotsAt(m, chunks, slots) && Mapped(m, maps, chunks) && FullOut(m, chunks, but)
    && (forall p :: p in chunks ==> Formed(chunks[p]))
    && (forall p :: p in chunks && p !in but ==> !NoneSet(chunks[p].bits, Reserved(chunks[p].shift)))
  }

  ghost predicate Tied(m: Memory, maps: seq<seq<bool>>, n: nat, runs: Runs, chunks: ChunkPages, slots: Slots, but: set<nat>) {
    ChunkRuns(runs, n, chunks) && Knit(m, maps, chunks, slots, but)
  }

  // The chunk map of a page where its size keeps it.
  function Remapped(m: Memory, p: nat, shift: Shift, bits: seq<bool>): Memory
    requires Page(p) in m
  {
    if shift < ExactShift then m
    else m[Page(p) := m[Page(p)].(slab := if shift == ExactShift then ExactMap(bits) else BigMap(shift, bits))]
  }

  function RemappedIn(maps: seq<seq<bool>>, p: nat, shift: Shift, bits: seq<bool>): seq<seq<bool>>
    requires p < |maps|
  {
    if shift < ExactShift then maps[p := bits] else maps
  }

  lemma RemappedSame(m: Memory, maps: seq<seq<bool>>, p: nat, shift: Shift, bits: seq<bool>)
    requires Page(p) in m && p < |maps|
    ensures Page(p) in Remapped(m, p, shift, bits) && Remapped(m, p, shift, bits)[Page(p)].next == m[Page(p)].next
    ensures |RemappedIn(maps, p, shift, bits)| == |maps|
  {
  }

  lemma NewTied(m: Memory, maps: seq<seq<bool>>, n: nat, slots: Slots)
    requires n > 0 && |slots| == SlotCount
    requires forall i :: 0 <= i < SlotCount ==> slots[i] == [Head(i + 1)]
    requires forall i, tag :: 0 < i <= SlotCount ==> ListAt(m, [Head(i)], tag)
    ensures Tied(m, maps, n, map[0 := Run(n, FreeRun)], map[], slots, {})
  {
    forall shift: Shift ensures SlotAt(m, map[], slots[SlotOf(shift)], shift) {}
  }

  lemma TiedRebit(m: Memory, maps: seq<seq<bool>>, n: nat, runs: Runs, chunks: ChunkPages, slots: Slots, but: set<nat>, p: nat, bits: seq<bool>)
    requires Tied(m, maps, n, runs, chunks, slots, but) && p in but && p in chunks && Formed(chunks[p].(bits := bits))
    ensures Page(p) in m && p < |maps|
    ensures var m' := Remapped(m, p, chunks[p].shift, bits);
      && ForeignOnly(m, m', runs)
      && Tied(m', RemappedIn(maps, p, chunks[p].shift, bits), n, runs, chunks[p := chunks[p].(bits := bits)], slots, but)
  {
    hide Layout, SlotAt, AllSet, NoneSet, SlotsAt, Chunks;
    var shift := chunks[p].shift;
    var m', maps' := Remapped(m, p, shift, bits), RemappedIn(maps, p, shift, bits);
    RebitSlots(m, m', chunks, slots, p, bits);
    forall q: nat | Page(q) in m && q in runs && runs[q].kind == Chunked ensures m'[Page(q)].prev.tag != PageTag {
      assert q in chunks;
    }
  }

  lemma TiedUnlist(m: Memory, maps: seq<seq<bool>>, n: nat, runs: Runs, chunks: ChunkPages, slots: Slots, but: set<nat>, p: nat) returns (i: nat)
    requires Tied(m, maps, n, runs, chunks, slots, but) && p in but && p in chunks && m[Page(p)].next != Null
    ensures var shift, c := chunks[p].shift, slots[SlotOf(chunks[p].shift)];
      && 0 < i < |c| && c[i] == Page(p) && m[Page(p)].prev.ptr in m && m[Page(p)].next in m && m[Page(p)].prev.tag == TagFor(shift)
      && ForeignOnly(m, Unlisted(m, p, TagFor(shift)), runs) && InSlot(m, runs, c, i, TagFor(shift), p)
      && Tied(Unlisted(m, p, TagFor(shift)), maps, n, runs, chunks, slots[SlotOf(shift) := Without(c, i)], but)
  {
    hide Layout, SlotAt, InSlot, NoneSet, AllSet, Formed;
    var shift := chunks[p].shift;
    i := UnlistSlots(m, chunks, slots, p);
    UnlistShows(m, maps, n, runs, chunks, slots, p, i);
  }

  // Moving a page into or out of its slot changes links only.
  ghost predicate Relinked(m: Memory, m': Memory, p: nat, tag: Tag, c: seq<Link>) {
    && m'.Keys == m.Keys && Page(p) in m && m'[Page(p)].slab == m[Page(p)].slab && m'[Page(p)].prev.tag == tag
    && (forall l :: l in m && l !in c && l != Page(p) ==> m'[l] == m[l])
    && (forall l :: l in m && l.Page? && l != Page(p) ==>
      m'[l].slab == m[l].slab && (m'[l].next == Null <==> m[l].next == Null) && m'[l].prev.tag == m[l].prev.tag)
  }

  lemma RelinkedShows(m: Memory, m': Memory, maps: seq<seq<bool>>, n: nat, runs: Runs, chunks: ChunkPages, c: seq<Link>, p: nat)
    requires ChunkRuns(runs, n, chunks) && Mapped(m, maps, chunks) && p in chunks
    requires Relinked(m, m', p, TagFor(chunks[p].shift), c) && forall l :: l in c ==> Foreign(runs, l)
    ensures ForeignOnly(m, m', runs) && Mapped(m', maps, chunks)
    ensures forall q :: q in chunks && q != p ==> (m'[Page(q)].next == Null <==> m[Page(q)].next == Null)
  {
    assert Foreign(runs, Page(p));
    forall q: nat | Page(q) in m && q in runs && runs[q].kind == Chunked ensures m'[Page(q)].prev.tag != PageTag {
      assert q in chunks;
    }
  }

  lemma SlotForeign(m: Memory, runs: Runs, n: nat, chunks: ChunkPages, slots: Slots, shift: Shift)
    requires ChunkRuns(runs, n, chunks) && SlotsAt(m, chunks, slots)
    ensures SlotAt(m, chunks, slots[SlotOf(shift)], shift) && forall l :: l in slots[SlotOf(shift)] ==> Foreign(runs, l)
  {
    assert SlotAt(m, chunks, slots[SlotOf(shift)], shift);
  }

  lemma UnlistShows(m: Memory, maps: seq<seq<bool>>, n: nat, runs: Runs, chunks: ChunkPages, slots: Slots, p: nat, i: nat)
    requires ChunkRuns(runs, n, chunks) && SlotsAt(m, chunks, slots) && Mapped(m, maps, chunks) && p in chunks
    requires i < |slots[SlotOf(chunks[p].shift)]| && i > 0 && slots[SlotOf(chunks[p].shift)][i] == Page(p)
    requires m[Page(p)].prev.ptr in m && m[Page(p)].next in m
    ensures var m' := Unlisted(m, p, TagFor(chunks[p].shift));
      && ForeignOnly(m, m', runs) && Mapped(m', maps, chunks)
      && (forall q :: q in chunks && q != p ==> (m'[Page(q)].next == Null <==> m[Page(q)].next == Null))
      && InSlot(m, runs, slots[SlotOf(chunks[p].shift)], i, TagFor(chunks[p].shift), p)
  {
    hide ForeignOnly, Mapped, ChunkRuns, SlotAt;
    var shift, c := chunks[p].shift, slots[SlotOf(chunks[p].shift)];
    SlotForeign(m, runs, n, chunks, slots, shift);
    UnlinkList(m, c, TagFor(shift), i);
    assert Page(p) in c;
    RelinkedShows(m, Unlisted(m, p, TagFor(shift)), maps, n, runs, chunks, c, p);
  }

  lemma TiedRelist(m: Memory, maps: seq<seq<bool>>, n: nat, runs: Runs, chunks: ChunkPages, slots: Slots, but: set<nat>, p: nat)
    requires Tied(m, maps, n, runs, chunks, slots, but) && p in but && p in chunks && m[Page(p)].next == Null
    ensures var h := Head(SlotOf(chunks[p].shift) + 1); h in m && m[h].next in m && m[h].next != Null
    ensures var shift, c := chunks[p].shift, slots[SlotOf(chunks[p].shift)];
      var m' := Pushed(m, Head(SlotOf(shift) + 1), Page(p), TagFor(shift));
      && |c| > 0 && m'[Page(p)].next != Null && ForeignOnly(m, m', runs)
      && Tied(m', maps, n, runs, chunks, slots[SlotOf(shift) := [c[0], Page(p)] + c[1..]], but)
  {
    hide Layout, SlotAt, NoneSet, AllSet, Formed, Pushed;
    RelistSlots(m, chunks, slots, p);
    RelistShows(m, maps, n, runs, chunks, slots, p);
  }

  lemma RelistShows(m: Memory, maps: seq<seq<bool>>, n: nat, runs: Runs, chunks: ChunkPages, slots: Slots, p: nat)
    requires ChunkRuns(runs, n, chunks) && SlotsAt(m, chunks, slots) && Mapped(m, maps, chunks) && p in chunks && m[Page(p)].next == Null
    ensures var h := Head(SlotOf(chunks[p].shift) + 1); h in m && m[h].next in m && m[h].next != Null
    ensures var m' := Pushed(m, Head(SlotOf(chunks[p].shift) + 1), Page(p), TagFor(chunks[p].shift));
      && ForeignOnly(m, m', runs) && Mapped(m', maps, chunks) && m'[Page(p)].next != Null
      && (forall q :: q in chunks && q != p ==> (m'[Page(q)].next == Null <==> m[Page(q)].next == Null))
  {
    hide ForeignOnly, Mapped, ChunkRuns, Pushed;
    var shift, c := chunks[p].shift, slots[SlotOf(chunks[p].shift)];
    SlotForeign(m, runs, n, chunks, slots, shift);
    RelistSlot(m, chunks, c, shift, p);
    var m' := Pushed(m, c[0], Page(p), TagFor(shift));
    RingAt(m, c, TagFor(shift), 0);
    RingAt(m', [c[0], Page(p)] + c[1..], TagFor(shift), 1);
    RelinkedShows(m, m', maps, n, runs, chunks, c, p);
  }

  // What the page allocator leaves alone stays tied.
  lemma KnitKept(m: Memory, m': Memory, maps: seq<seq<bool>>, n: nat, runs: Runs, chunks: ChunkPages, slots: Slots, but: set<nat>)
    requires Knit(m, maps, chunks, slots, but) && ForeignKept(m, m', runs)
    requires forall p :: p in chunks ==> p in runs && runs[p].kind == Chunked
    ensures Knit(m', maps, chunks, slots, but)
  {
    hide SlotsAt, ForeignKept, Formed, NoneSet, AllSet, Shows;
    KeptSlots(m, m', n, runs, chunks, slots);
  }

  // A page with no chunk left is given back.
  lemma KnitGone(m: Memory, m': Memory, maps: seq<seq<bool>>, n: nat, runs: Runs, chunks: ChunkPages, slots: Slots, p: nat, i: nat)
    requires Tied(m, maps, n, runs, chunks, slots, {p}) && p in chunks && m[Page(p)].next != Null
    requires var c := slots[SlotOf(chunks[p].shift)]; 0 < i < |c| && c[i] == Page(p)
    requires m[Page(p)].prev.ptr in m && m[Page(p)].next in m
    requires Tied(Unlisted(m, p, TagFor(chunks[p].shift)), maps, n, runs, chunks, slots[SlotOf(chunks[p].shift) := Without(slots[SlotOf(chunks[p].shift)], i)], {p})
    requires ForeignKept(Unlinked(m, Page(p)), m', runs - {p})
    ensures Knit(m', maps, chunks - {p}, slots[SlotOf(chunks[p].shift) := Without(slots[SlotOf(chunks[p].shift)], i)], {})
  {
    hide Layout, SlotAt, Formed, NoneSet, AllSet, Shows, Unlinked;
    var m2 := Unlisted(m, p, TagFor(chunks[p].shift));
    var slots2 := slots[SlotOf(chunks[p].shift) := Without(slots[SlotOf(chunks[p].shift)], i)];
    DropSlots(m2, chunks, slots2, p);
    assert Knit(m2, maps, chunks - {p}, slots2, {});
    assert ForeignKept(m2, m', runs - {p}) by {
      assert forall l :: Foreign(runs - {p}, l) ==> l != Page(p);
    }
    KnitKept(m2, m', maps, n, runs - {p}, chunks - {p}, slots2, {});
  }

  lemma TiedStart(m: Memory, maps: seq<seq<bool>>, n: nat, runs: Runs, chunks: ChunkPages, slots: Slots, p: nat, cp: ChunkPage)
    requires Tied(m, maps, n, runs, chunks, slots, {}) && p in runs && runs[p] == Run(1, PageRun) && p < |maps| && Sane(cp) && !AllSet(cp.bits)
    requires slots[SlotOf(cp.shift)] == [Head(SlotOf(cp.shift) + 1)] && Page(p) in m
    ensures Head(SlotOf(cp.shift) + 1) in m
    ensures var m' := Started(m, p, SlotOf(cp.shift) + 1, FirstSlab(cp), TagFor(cp.shift));
      && ForeignOnly(m, m', Rekind(runs, p, Chunked))
      && Tied(m', if cp.shift < ExactShift then maps[p := cp.bits] else maps, n, Rekind(runs, p, Chunked), chunks[p := cp],
              slots[SlotOf(cp.shift) := [Head(SlotOf(cp.shift) + 1), Page(p)]], {})
  {
    hide Layout, SlotAt, NoneSet, AllSet, SlotsAt, Mapped, FullOut, ForeignOnly, Started, Sane, Formed, Reserved;
    StartSlots(m, chunks, slots, p, cp, FirstSlab(cp));
    RekindLayout(runs, n, p, Chunked);
    StartForeign(m, maps, n, runs, chunks, slots, p, cp);
    StartMaps(m, maps, chunks, slots, p, cp);
    assert Formed(cp) && !NoneSet(cp.bits, Reserved(cp.shift)) by { SaneParts(cp); }
  }

  lemma SaneParts(cp: ChunkPage)
    requires Sane(cp)
    ensures Formed(cp) && !NoneSet(cp.bits, Reserved(cp.shift))
  {
  }

  // The maps show the chunks, and the new page is listed.
  lemma StartMaps(m: Memory, maps: seq<seq<bool>>, chunks: ChunkPages, slots: Slots, p: nat, cp: ChunkPage)
    requires SlotsAt(m, chunks, slots) && Mapped(m, maps, chunks) && FullOut(m, chunks, {}) && p !in chunks && p < |maps|
    requires Sane(cp) && !AllSet(cp.bits) && Head(SlotOf(cp.shift) + 1) in m && Page(p) in m
    ensures var m' := Started(m, p, SlotOf(cp.shift) + 1, FirstSlab(cp), TagFor(cp.shift));
      && Mapped(m', if cp.shift < ExactShift then maps[p := cp.bits] else maps, chunks[p := cp]) && FullOut(m', chunks[p := cp], {})
  {
    hide SlotAt, NoneSet, AllSet;
  }

  lemma StartForeign(m: Memory, maps: seq<seq<bool>>, n: nat, runs: Runs, chunks: ChunkPages, slots: Slots, p: nat, cp: ChunkPage)
    requires Tied(m, maps, n, runs, chunks, slots, {}) && p in runs && runs[p].kind == PageRun
    requires Head(SlotOf(cp.shift) + 1) in m && Page(p) in m
    ensures ForeignOnly(m, Started(m, p, SlotOf(cp.shift) + 1, FirstSlab(cp), TagFor(cp.shift)), Rekind(runs, p, Chunked))
  {
    hide Layout, SlotAt, NoneSet, AllSet, SlotsAt, FullOut;
    var m' := Started(m, p, SlotOf(cp.shift) + 1, FirstSlab(cp), TagFor(cp.shift));
    forall q: nat | Page(q) in m && q in Rekind(runs, p, Chunked) && Rekind(runs, p, Chunked)[q].kind == Chunked
      ensures m'[Page(q)].prev.tag != PageTag
    {
      assert q != p ==> q in chunks;
    }
  }

  function FirstSlab(cp: ChunkPage): SlabPages.Slab {
    if cp.shift < ExactShift then SmallShift(cp.shift)
    else if cp.shift == ExactShift then ExactMap(cp.bits)
    else BigMap(cp.shift, cp.bits)
  }
}
