// An output chain with a single copy buffer: how many marks stray or are lost
// follows from the buffers to come alone, whatever the filter takes, and when.
module Sole {
  import opened Bufs
  import opened Chains
  import opened Options

  // The copy buffer, if it has been made: its size, and whether it has marks.
  datatype Cup = NoCup | Cup(size: nat, marked: bool)

  // The copy buffer that is made when b is to be copied.
  function CupSize(b: Buf, size: nat): nat {
    if b.lastInChain && 0 <= Size(b) < size + size / 4 then Size(b) else size
  }

  // How many copies of b come before the last one.
  function Refills(b: Buf, n: nat): nat
    requires Size(b) > 0 && n > 0
  {
    (Size(b) - 1) / n
  }

  predicate Sized(cup: Cup) { cup.Cup? ==> cup.size > 0 }

  // How many marks will have strayed or been lost when all of the chain is gone:
  // one with each marked buffer that is dropped, and one with each copy, but the
  // last, of a buffer that finds the marks of an earlier one in the copy buffer.
  function Due(bufs: seq<Buf>, chain: seq<nat>, cup: Cup, m: Mode, size: nat): nat
    requires Sound(bufs, chain) && Sized(cup) && size > 0
  {
    if chain == [] then 0
    else
      var b := bufs[chain[0]];
      if Size(b) == 0 && !Special(b) then (if Marked(b) then 1 else 0) + Due(bufs, chain[1..], cup, m, size)
      else if AsIs(b, m) then Due(bufs, chain[1..], cup, m, size)
      else
        var n := if cup.Cup? then cup.size else CupSize(b, size);
        (if cup.Cup? && cup.marked then Refills(b, n) else 0) + Due(bufs, chain[1..], Cup(n, Marked(b)), m, size)
  }

  // There is at most one copy buffer, and only that one is ever filled.
  ghost predicate Sole(bufs: seq<Buf>, buf: Option<nat>, made: nat) {
    && (forall i, j :: 0 <= i < |bufs| && 0 <= j < |bufs| && bufs[i].own && bufs[j].own ==> i == j)
    && (forall i :: 0 <= i < |bufs| && bufs[i].own ==> |bufs[i].mem| > 0 && made > 0)
    && (buf.Some? ==> buf.value < |bufs| && bufs[buf.value].own)
  }

  ghost function CupOf(bufs: seq<Buf>): Cup {
    if exists i :: 0 <= i < |bufs| && bufs[i].own then
      var i :| 0 <= i < |bufs| && bufs[i].own;
      Cup(|bufs[i].mem|, Marked(bufs[i]))
    else NoCup
  }

  lemma CupIs(bufs: seq<Buf>, buf: Option<nat>, made: nat, i: nat)
    requires Sole(bufs, buf, made) && i < |bufs| && bufs[i].own
    ensures CupOf(bufs) == Cup(|bufs[i].mem|, Marked(bufs[i])) && Sized(CupOf(bufs))
  {
  }

  // No buffer of the chain is read around the page cache.
  ghost predicate Countable(bufs: seq<Buf>, input: seq<nat>, buf: Option<nat>, made: nat, size: nat) {
    && Sound(bufs, input) && Sole(bufs, buf, made) && Sized(CupOf(bufs)) && size > 0
    && forall k :: 0 <= k < |input| ==> !bufs[input[k]].directio
  }

  // What has strayed or been lost and what will have been is the total.
  ghost predicate Tallied(bufs: seq<Buf>, input: seq<nat>, buf: Option<nat>, made: nat, m: Mode, size: nat, faults: nat, total: nat) {
    Countable(bufs, input, buf, made, size) && faults + Due(bufs, input, CupOf(bufs), m, size) == total
  }

  lemma NotAround(bufs: seq<Buf>, input: seq<nat>, buf: Option<nat>, made: nat, m: Mode, size: nat, faults: nat, total: nat)
    requires Tallied(bufs, input, buf, made, m, size, faults, total)
    ensures input != [] ==> input[0] < |bufs| && !bufs[input[0]].directio
  {
  }

  // ----- steps that leave the tally as it is

  // Buffers that count the same.
  ghost predicate Alike(b: Buf, b': Buf, m: Mode) {
    && (Coherent(b) ==> Coherent(b')) && Size(b') == Size(b) && (Marked(b') <==> Marked(b)) && (Special(b') <==> Special(b))
    && (AsIs(b', m) <==> AsIs(b, m)) && b'.lastInChain == b.lastInChain && b'.directio == b.directio
  }

  lemma PassedAlike(b: Buf, b': Buf, m: Mode)
    requires Coherent(b) && PassedOn(b, b')
    ensures Alike(b, b', m)
  {
  }

  lemma {:induction false} DueSame(bufs: seq<Buf>, bufs': seq<Buf>, chain: seq<nat>, cup: Cup, m: Mode, size: nat)
    requires Sound(bufs, chain) && Sized(cup) && size > 0
    requires forall k :: 0 <= k < |chain| ==> chain[k] < |bufs'| && Alike(bufs[chain[k]], bufs'[chain[k]], m)
    ensures Sound(bufs', chain) && Due(bufs', chain, cup, m, size) == Due(bufs, chain, cup, m, size)
  {
    hide Coherent, Special, AsIs, Marked, Size;
    if chain != [] {
      var b := bufs[chain[0]];
      assert Alike(b, bufs'[chain[0]], m);
      SpecialPasses(b, m);
      DueSame(bufs, bufs', chain[1..], cup, m, size);
      if Size(b) > 0 && !AsIs(b, m) {
        DueSame(bufs, bufs', chain[1..], Cup(if cup.Cup? then cup.size else CupSize(b, size), Marked(b)), m, size);
      }
    }
  }

  lemma SpecialPasses(b: Buf, m: Mode)
    requires Coherent(b)
    ensures Size(b) >= 0 && (Special(b) ==> AsIs(b, m))
  {
  }

  // A copy buffer stays one, with its size and marks.
  ghost predicate SameCup(b: Buf, b': Buf) { b'.own == b.own && (b.own ==> |b'.mem| == |b.mem| && (Marked(b') <==> Marked(b))) }

  ghost predicate SameCups(bufs: seq<Buf>, bufs': seq<Buf>) {
    && |bufs| <= |bufs'| && (forall i :: 0 <= i < |bufs| ==> SameCup(bufs[i], bufs'[i]))
    && (forall i :: |bufs| <= i < |bufs'| ==> !bufs'[i].own)
  }

  lemma CupSame(bufs: seq<Buf>, bufs': seq<Buf>, buf: Option<nat>, buf': Option<nat>, made: nat)
    requires Sole(bufs, buf, made) && SameCups(bufs, bufs') && (buf'.Some? ==> buf'.value < |bufs| && bufs[buf'.value].own)
    ensures Sole(bufs', buf', made) && CupOf(bufs') == CupOf(bufs)
  {
    hide Marked;
    if i :| 0 <= i < |bufs| && bufs[i].own {
      CupIs(bufs, buf, made, i);
      CupIs(bufs', buf', made, i);
    }
  }

  lemma TallySame(bufs: seq<Buf>, bufs': seq<Buf>, input: seq<nat>, buf: Option<nat>, buf': Option<nat>, made: nat, m: Mode, size: nat, faults: nat, total: nat)
    requires Tallied(bufs, input, buf, made, m, size, faults, total) && SameCups(bufs, bufs')
    requires buf'.Some? ==> buf'.value < |bufs| && bufs[buf'.value].own
    requires forall k :: 0 <= k < |input| && input[k] < |bufs| ==> Alike(bufs[input[k]], bufs'[input[k]], m)
    ensures Tallied(bufs', input, buf', made, m, size, faults, total)
  {
    hide Sole, CupOf, Due, SameCup, Coherent, Special, AsIs, Marked, Size;
    CupSame(bufs, bufs', buf, buf', made);
    DueSame(bufs, bufs', input, CupOf(bufs), m, size);
  }

  lemma TallyPassed(bufs: seq<Buf>, bufs': seq<Buf>, input: seq<nat>, buf: Option<nat>, made: nat, m: Mode, size: nat, faults: nat, total: nat)
    requires Tallied(bufs, input, buf, made, m, size, faults, total)
    requires |bufs'| == |bufs| && forall j :: 0 <= j < |bufs| ==> PassedOn(bufs[j], bufs'[j])
    ensures Tallied(bufs', input, buf, made, m, size, faults, total)
  {
    hide CupOf, Due, Coherent, Special, AsIs, Size;
    forall k | 0 <= k < |input| ensures Alike(bufs[input[k]], bufs'[input[k]], m) {
      PassedAlike(bufs[input[k]], bufs'[input[k]], m);
    }
    TallySame(bufs, bufs', input, buf, buf, made, m, size, faults, total);
  }

  // What the filter takes, it takes of other buffers.
  lemma TallyFiltered(bufs: seq<Buf>, bufs': seq<Buf>, c: Chains, made: nat, m: Mode, size: nat, faults: nat, total: nat)
    requires Fine(bufs, c) && ConsumedIn(bufs, bufs', c.pending + c.out) && Tallied(bufs, c.input, c.buf, made, m, size, faults, total)
    ensures Tallied(bufs', c.input, c.buf, made, m, size, faults, total)
  {
    hide CupOf, Due, Coherent, Special, AsIs, Size, Held;
    FilterChain(c);
    forall k | 0 <= k < |c.input| ensures c.input[k] !in c.pending + c.out {}
    TallySame(bufs, bufs', c.input, c.buf, c.buf, made, m, size, faults, total);
  }

  lemma TallyFreed(bufs: seq<Buf>, c: Chains, made: nat, m: Mode, size: nat, faults: nat, total: nat)
    requires Fine(bufs, c) && c.busy != [] && c.busy[0] < |bufs| && bufs[c.busy[0]].own && Size(bufs[c.busy[0]]) == 0
    requires Tallied(bufs, c.input, c.buf, made, m, size, faults, total)
    ensures Tallied(bufs[c.busy[0] := Reset(bufs[c.busy[0]])], c.input, c.buf, made, m, size, faults, total)
  {
    hide CupOf, Due, Coherent, Special, AsIs, Size, Held, Placed;
    FreedPlaced(bufs, c);
    TallySame(bufs, bufs[c.busy[0] := Reset(bufs[c.busy[0]])], c.input, c.buf, c.buf, made, m, size, faults, total);
  }

  // The copy buffer is made for the next buffer, without marks.
  lemma TallyNew(bufs: seq<Buf>, b: Buf, input: seq<nat>, m: Mode, size: nat, faults: nat, total: nat)
    requires Tallied(bufs, input, None, 0, m, size, faults, total) && input != [] && !AsIs(bufs[input[0]], m) && Size(bufs[input[0]]) > 0
    requires b.own && !Marked(b) && |b.mem| == CupSize(bufs[input[0]], size)
    ensures Tallied(bufs + [b], input, Some(|bufs|), 1, m, size, faults, total)
  {
    hide Coherent, Special, AsIs, Marked, Size, CupOf;
    var bufs' := bufs + [b];
    assert CupOf(bufs) == NoCup by { NoCupYet(bufs, None); }
    assert bufs'[|bufs|] == b;
    assert Sole(bufs', Some(|bufs|), 1);
    CupIs(bufs', Some(|bufs|), 1, |bufs|);
    assert CupOf(bufs') == Cup(|b.mem|, false);
    forall k | 0 <= k < |input| ensures Alike(bufs[input[k]], bufs'[input[k]], m) { }
    DueSame(bufs, bufs', input, NoCup, m, size);
  }

  lemma NoCupYet(bufs: seq<Buf>, buf: Option<nat>)
    requires Sole(bufs, buf, 0)
    ensures CupOf(bufs) == NoCup
  {
  }

  // ----- steps that take a buffer

  lemma TallyDrop(bufs: seq<Buf>, input: seq<nat>, buf: Option<nat>, made: nat, m: Mode, size: nat, faults: nat, total: nat)
    requires Tallied(bufs, input, buf, made, m, size, faults, total) && input != [] && input[0] < |bufs|
    requires Size(bufs[input[0]]) == 0 && !Special(bufs[input[0]])
    ensures Tallied(bufs, input[1..], buf, made, m, size, faults + if Marked(bufs[input[0]]) then 1 else 0, total)
  {
    hide Sole, CupOf, Coherent, Special, AsIs, Marked, Size;
  }

  lemma TallyPass(bufs: seq<Buf>, input: seq<nat>, buf: Option<nat>, made: nat, m: Mode, size: nat, faults: nat, total: nat)
    requires Tallied(bufs, input, buf, made, m, size, faults, total) && input != [] && input[0] < |bufs|
    requires (Size(bufs[input[0]]) != 0 || Special(bufs[input[0]])) && AsIs(bufs[input[0]], m)
    ensures Tallied(bufs, input[1..], buf, made, m, size, faults, total)
  {
    hide Sole, CupOf, Coherent, Special, AsIs, Marked, Size;
  }

  // A buffer that is copied finds the copy buffer with the marks of an earlier
  // one, and leaves its own.
  lemma DueHead(bufs: seq<Buf>, chain: seq<nat>, cup: Cup, m: Mode, size: nat)
    requires Sound(bufs, chain) && Sized(cup) && cup.Cup? && size > 0 && chain != []
    requires Size(bufs[chain[0]]) > 0 && !AsIs(bufs[chain[0]], m)
    ensures Sound(bufs, chain[1..])
    ensures Due(bufs, chain, cup, m, size)
      == (if cup.marked then Refills(bufs[chain[0]], cup.size) else 0) + Due(bufs, chain[1..], Cup(cup.size, Marked(bufs[chain[0]])), m, size)
  {
    hide Coherent, Special, AsIs, Marked, Size;
  }

  lemma RefillsLess(b: Buf, b': Buf, n: nat)
    requires n > 0 && Size(b) > 0
    ensures Size(b) <= n ==> Refills(b, n) == 0
    ensures n < Size(b) && Size(b') == Size(b) - n ==> Refills(b, n) == Refills(b', n) + 1
  {
    hide Size;
    if n < Size(b) && Size(b') == Size(b) - n {
      OneMore(Size(b') - 1, n);
    } else {
      OneMore(Size(b) - 1, n);
    }
  }

  lemma OneMore(a: nat, n: nat)
    requires n > 0
    ensures (a + n) / n == a / n + 1 && (a < n ==> a / n == 0)
  {
    var d := (a + n) / n - a / n - 1;
    assert d * n == a % n - (a + n) % n;
    AtLeast(d, n);
    AtLeast(a / n, n);
  }

  lemma AtLeast(d: int, n: nat)
    ensures (d > 0 ==> d * n >= n) && (d < 0 ==> d * n + n <= 0)
  {
  }

  // The copy buffer after a copy.
  lemma CopyCup(bufs: seq<Buf>, bufs': seq<Buf>, c: Chains, keepFile: bool, done: bool, made: nat)
    requires Fine(bufs, c) && c.input != [] && c.buf.Some? && c.input[0] < |bufs| && c.buf.value < |bufs| && Size(bufs[c.input[0]]) > 0
    requires Copies(bufs, bufs', c, keepFile) && (done <==> Size(bufs'[c.input[0]]) == 0) && Sole(bufs, c.buf, made)
    ensures |bufs[c.buf.value].mem| > 0 && CupOf(bufs) == Cup(|bufs[c.buf.value].mem|, Marked(bufs[c.buf.value]))
    ensures Sole(bufs', None, made) && CupOf(bufs') == Cup(|bufs[c.buf.value].mem|, Marked(bufs[if done then c.input[0] else c.buf.value]))
  {
    hide Coherent, Special, AsIs, Marked, Size, CopyTo, CopySize, Placed, Held, Advanced, Blank, CupOf;
    FineSound(bufs, c);
    NextBlank(bufs, c);
    CopyMarked(bufs, bufs', c, keepFile, done);
    CopyHolds(bufs[c.input[0]], bufs[c.buf.value], keepFile);
    CupIs(bufs, c.buf, made, c.buf.value);
    CupIs(bufs', None, made, c.buf.value);
  }

  // The buffers to come after a copy.
  lemma CopyRest(bufs: seq<Buf>, bufs': seq<Buf>, c: Chains, keepFile: bool, m: Mode)
    requires Fine(bufs, c) && c.input != [] && c.buf.Some? && c.input[0] < |bufs| && c.buf.value < |bufs| && Size(bufs[c.input[0]]) > 0
    requires Copies(bufs, bufs', c, keepFile)
    ensures forall k :: 0 <= k < |c.input[1..]| ==> c.input[1..][k] < |bufs'| && c.input[1..][k] < |bufs| && bufs'[c.input[1..][k]] == bufs[c.input[1..][k]]
    ensures var src, src', n := bufs[c.input[0]], bufs'[c.input[0]], |bufs[c.buf.value].mem|;
      && Coherent(src') && Size(src') == (if Size(src) < n then 0 else Size(src) - n) && src'.directio == src.directio
      && (AsIs(src', m) <==> AsIs(src, m)) && (Marked(src') <==> Marked(src))
  {
    hide Coherent, CopyTo, Placed, Held, Blank;
    FinePlaced(bufs, c);
    FineSound(bufs, c);
    NextBlank(bufs, c);
    CopyApart(c);
    AdvancedData(bufs[c.input[0]], CopySize(bufs[c.input[0]], bufs[c.buf.value]));
  }

  lemma TallyCopy(bufs: seq<Buf>, bufs': seq<Buf>, c: Chains, keepFile: bool, done: bool, made: nat, m: Mode, size: nat, faults: nat, total: nat)
    requires Fine(bufs, c) && c.input != [] && c.buf.Some? && c.input[0] < |bufs| && c.buf.value < |bufs| && Size(bufs[c.input[0]]) > 0
    requires !AsIs(bufs[c.input[0]], m) && Copies(bufs, bufs', c, keepFile) && (done <==> Size(bufs'[c.input[0]]) == 0)
    requires Tallied(bufs, c.input, c.buf, made, m, size, faults, total)
    ensures Tallied(bufs', if done then c.input[1..] else c.input, None, made, m, size,
                    faults + if !done && Marked(bufs[c.buf.value]) then 1 else 0, total)
  {
    hide Fine, Coherent, Special, AsIs, Marked, Size, Copies, CupOf, Due, Sole;
    CopiesIds(bufs, bufs', c, keepFile);
    var src, src', rest := bufs[c.input[0]], bufs'[c.input[0]], c.input[1..];
    CopyCup(bufs, bufs', c, keepFile, done, made);
    CopyRest(bufs, bufs', c, keepFile, m);
    var cup, cup' := CupOf(bufs), CupOf(bufs');
    DueHead(bufs, c.input, cup, m, size);
    forall k | 0 <= k < |rest| ensures Alike(bufs[rest[k]], bufs'[rest[k]], m) {}
    DueSame(bufs, bufs', rest, Cup(cup.size, Marked(src)), m, size);
    RefillsLess(src, src', cup.size);
    if !done {
      assert Sound(bufs', c.input) by {
        forall k | 0 <= k < |c.input| ensures c.input[k] < |bufs'| && Coherent(bufs'[c.input[k]]) { assert k > 0 ==> c.input[k] == rest[k - 1]; }
      }
      DueHead(bufs', c.input, cup', m, size);
      forall k | 0 <= k < |c.input| ensures !bufs'[c.input[k]].directio { assert k > 0 ==> c.input[k] == rest[k - 1]; }
    }
  }
}
