// Buffers and chains: what they hold, and what a filter that takes part of a
// chain leaves of it.
module Bufs {
  // directio is the flag of the buffer's file, false without one; own says
  // that the tag is the output chain's.
  datatype Buf = Buf(
    mem: seq<bv8>, pos: nat, last: nat,
    file: seq<bv8>, filePos: nat, fileLast: nat, inFile: bool, directio: bool,
    temporary: bool, memory: bool, mmap: bool,
    flush: bool, sync: bool, lastBuf: bool, lastInChain: bool,
    recycled: bool, own: bool)

  predicate InMemory(b: Buf) { b.temporary || b.memory || b.mmap }

  predicate Special(b: Buf) { (b.flush || b.lastBuf || b.sync) && !InMemory(b) && !b.inFile }

  function Size(b: Buf): int { if InMemory(b) then b.last - b.pos else b.fileLast - b.filePos }

  // The positions are in range, and a buffer both in memory and in a file
  // holds the same bytes in both.
  predicate Coherent(b: Buf) {
    && (InMemory(b) ==> b.pos <= b.last <= |b.mem|)
    && b.filePos <= b.fileLast && (b.inFile ==> b.fileLast <= |b.file|)
    && (InMemory(b) && b.inFile ==> b.file[b.filePos..b.fileLast] == b.mem[b.pos..b.last])
    && (!InMemory(b) && !b.inFile ==> b.filePos == b.fileLast)
  }

  function Data(b: Buf): (d: seq<bv8>)
    requires Coherent(b)
    ensures |d| == Size(b)
  {
    if InMemory(b) then b.mem[b.pos..b.last] else if b.inFile then b.file[b.filePos..b.fileLast] else []
  }

  // What flows through a chain: bytes, and the marks that follow the last byte
  // of their buffer.
  datatype Token = Byte(b: bv8) | Mark(flush: bool, lastBuf: bool, lastInChain: bool)

  predicate Marked(b: Buf) { b.flush || b.lastBuf || b.lastInChain }

  function Marks(b: Buf): seq<Token> {
    if Marked(b) then [Mark(b.flush, b.lastBuf, b.lastInChain)] else []
  }

  function Bytes(d: seq<bv8>): (t: seq<Token>)
    ensures |t| == |d| && forall i :: 0 <= i < |d| ==> t[i] == Byte(d[i])
  {
    seq(|d|, i requires 0 <= i < |d| => Byte(d[i]))
  }

  // With or without the marks.
  function Tokens(b: Buf, marks: bool): seq<Token>
    requires Coherent(b)
  {
    Bytes(Data(b)) + if marks then Marks(b) else []
  }

  predicate Sound(bufs: seq<Buf>, c: seq<nat>) {
    forall k :: 0 <= k < |c| ==> c[k] < |bufs| && Coherent(bufs[c[k]])
  }

  function Flow(bufs: seq<Buf>, c: seq<nat>, marks: bool): seq<Token>
    requires Sound(bufs, c)
  {
    if c == [] then [] else Tokens(bufs[c[0]], marks) + Flow(bufs, c[1..], marks)
  }

  function Weight(bufs: seq<Buf>, c: seq<nat>): nat
    requires Sound(bufs, c)
  {
    if c == [] then 0 else |Data(bufs[c[0]])| + 1 + Weight(bufs, c[1..])
  }

  lemma {:induction false} FlowJoin(bufs: seq<Buf>, c: seq<nat>, d: seq<nat>, marks: bool)
    requires Sound(bufs, c) && Sound(bufs, d)
    ensures Sound(bufs, c + d) && Flow(bufs, c + d, marks) == Flow(bufs, c, marks) + Flow(bufs, d, marks)
  {
    hide Tokens, Coherent;
    if c == [] {
      assert c + d == d;
    } else {
      FlowJoin(bufs, c[1..], d, marks);
      assert (c + d)[1..] == c[1..] + d;
      var x := Tokens(bufs[c[0]], marks);
      assert x + (Flow(bufs, c[1..], marks) + Flow(bufs, d, marks)) == (x + Flow(bufs, c[1..], marks)) + Flow(bufs, d, marks);
    }
  }

  lemma {:induction false} FlowFrame(bufs: seq<Buf>, bufs': seq<Buf>, c: seq<nat>, marks: bool)
    requires Sound(bufs, c) && forall k :: 0 <= k < |c| ==> c[k] < |bufs'| && bufs'[c[k]] == bufs[c[k]]
    ensures Sound(bufs', c) && Flow(bufs', c, marks) == Flow(bufs, c, marks)
    ensures Weight(bufs', c) == Weight(bufs, c)
  {
    if c != [] { FlowFrame(bufs, bufs', c[1..], marks); }
  }

  ghost predicate NoDup(c: seq<nat>) { forall i, j :: 0 <= i < j < |c| ==> c[i] != c[j] }

  ghost predicate Apart(c: seq<nat>, d: seq<nat>) { forall i :: i in c ==> i !in d }

  // ----- ngx_chain_update_sent

  // The buffer once n of its bytes are gone.
  function Advanced(b: Buf, n: nat): Buf
    requires n <= Size(b)
  {
    b.(pos := if InMemory(b) then b.pos + n else b.pos, filePos := if b.inFile then b.filePos + n else b.filePos)
  }

  lemma AdvancedData(b: Buf, n: nat)
    requires Coherent(b) && n <= Size(b)
    ensures Coherent(Advanced(b, n)) && Data(Advanced(b, n)) == Data(b)[n..] && Size(Advanced(b, n)) == Size(b) - n
    ensures Marks(Advanced(b, n)) == Marks(b)
  {
    if InMemory(b) && b.inFile {
      assert b.file[b.filePos..b.fileLast][n..] == b.mem[b.pos..b.last][n..];
    }
  }

  // A buffer some of whose bytes may be gone.
  ghost predicate Consumed(b: Buf, b': Buf) {
    && b' == b.(pos := b'.pos, filePos := b'.filePos)
    && (Coherent(b) ==> Coherent(b') && 0 <= Size(b') <= Size(b))
  }

  // Only buffers of the chain are consumed.
  ghost predicate ConsumedIn(bufs: seq<Buf>, bufs': seq<Buf>, c: seq<nat>) {
    && |bufs'| == |bufs|
    && (forall i :: 0 <= i < |bufs| && i !in c ==> bufs'[i] == bufs[i])
    && (forall i :: 0 <= i < |bufs| ==> Consumed(bufs[i], bufs'[i]))
  }

  // All of a buffer has been taken.
  ghost predicate AllTaken(b: Buf, b': Buf) { Special(b) || Size(b') == 0 }

  // The first `sent` bytes of the chain are gone: what flowed out, with and
  // without marks, is what is missing from the rest.
  method UpdateSent(bufs: seq<Buf>, chain: seq<nat>, sent: nat)
    returns (bufs': seq<Buf>, rest: seq<nat>, ghost plain: seq<Token>, ghost marked: seq<Token>)
    requires Sound(bufs, chain) && NoDup(chain)
    ensures ConsumedIn(bufs, bufs', chain) && |rest| <= |chain| && rest == chain[|chain| - |rest|..]
    ensures Sound(bufs', rest)
    ensures Flow(bufs, chain, false) == plain + Flow(bufs', rest, false)
    ensures Flow(bufs, chain, true) == marked + Flow(bufs', rest, true)
    ensures forall k :: 0 <= k < |rest| && Size(bufs[rest[k]]) > 0 ==> Size(bufs'[rest[k]]) > 0
    ensures |plain| == if sent < |Flow(bufs, chain, false)| then sent else |Flow(bufs, chain, false)|
    ensures forall k :: 0 <= k < |chain| - |rest| ==> AllTaken(bufs[chain[k]], bufs'[chain[k]])
    ensures sent > |Flow(bufs, chain, false)| ==> rest == []
  {
    hide Flow, Tokens, Coherent, Special, Advanced, Consumed, Data, Size, AllTaken;
    var i := 0;
    var left: nat := sent;
    bufs' := bufs;
    plain, marked := [], [];
    AllConsumed(bufs);
    while i < |chain|
      invariant i <= |chain| && |bufs'| == |bufs|
      invariant forall j :: 0 <= j < |bufs| && j !in chain[..i] ==> bufs'[j] == bufs[j]
      invariant forall j :: 0 <= j < |bufs| ==> Consumed(bufs[j], bufs'[j])
      invariant Flow(bufs, chain, false) == plain + Flow(bufs, chain[i..], false)
      invariant Flow(bufs, chain, true) == marked + Flow(bufs, chain[i..], true)
      invariant |plain| + left == sent
      invariant forall k :: 0 <= k < i ==> AllTaken(bufs[chain[k]], bufs'[chain[k]])
    {
      Ahead(chain, i);
      var b := bufs'[chain[i]];
      PlainTokens(b);
      FlowHead(bufs, chain, i, plain, false);
      FlowHead(bufs, chain, i, marked, true);
      if !Special(b) {
        if left == 0 {
          break;
        }
        var size := SizeOf(b);
        if left < size {
          ghost var taken := FirstOf(b, left);
          bufs' := bufs'[chain[i] := Advanced(b, left)];
          AdvancedConsumed(b, left);
          PartGone(bufs, bufs', chain, i, left, plain, false);
          PartGone(bufs, bufs', chain, i, left, marked, true);
          plain, marked := plain + taken, marked + taken;
          return bufs', chain[i..], plain, marked;
        }
        left := left - size;
        bufs' := bufs'[chain[i] := Advanced(b, size)];
        AdvancedConsumed(b, size);
      }
      plain, marked := plain + Tokens(bufs[chain[i]], false), marked + Tokens(bufs[chain[i]], true);
      i := i + 1;
    }
    rest := chain[i..];
    RestSame(bufs, bufs', chain, i, false);
    RestSame(bufs, bufs', chain, i, true);
    NoFlow(bufs, chain, i);
  }

  lemma NoFlow(bufs: seq<Buf>, chain: seq<nat>, i: nat)
    requires Sound(bufs, chain) && i <= |chain|
    ensures Sound(bufs, chain[i..]) && (i == |chain| ==> Flow(bufs, chain[i..], false) == [])
  {
  }

  function FirstOf(b: Buf, n: nat): seq<Token>
    requires Coherent(b) && n <= Size(b)
  {
    Bytes(Data(b)[..n])
  }

  function SizeOf(b: Buf): (n: nat)
    requires Coherent(b)
    ensures n == Size(b) == |Data(b)|
  {
    Size(b)
  }

  lemma AllConsumed(bufs: seq<Buf>)
    ensures forall j :: 0 <= j < |bufs| ==> Consumed(bufs[j], bufs[j])
  {
  }

  lemma AdvancedConsumed(b: Buf, n: nat)
    requires Coherent(b) && n <= Size(b)
    ensures Consumed(b, Advanced(b, n)) && (if n < Size(b) then Size(Advanced(b, n)) > 0 else AllTaken(b, Advanced(b, n)))
  {
    AdvancedData(b, n);
  }

  lemma Ahead(chain: seq<nat>, i: nat)
    requires NoDup(chain) && i < |chain|
    ensures chain[i] !in chain[..i] && (forall k :: 0 <= k < i ==> chain[k] != chain[i]) && chain[..i + 1] == chain[..i] + [chain[i]]
    ensures forall k :: i < k < |chain| ==> chain[k] !in chain[..i + 1]
  {
  }

  // A buffer of its own kind has no bytes, the others as many as their size.
  lemma PlainTokens(b: Buf)
    requires Coherent(b)
    ensures |Tokens(b, false)| == Size(b) == |Data(b)| && (Special(b) ==> Size(b) == 0 && AllTaken(b, b))
  {
  }

  lemma FlowHead(bufs: seq<Buf>, chain: seq<nat>, i: nat, before: seq<Token>, marks: bool)
    requires Sound(bufs, chain) && i < |chain|
    ensures Sound(bufs, chain[i..]) && Sound(bufs, chain[i + 1..])
    ensures before + Flow(bufs, chain[i..], marks) == (before + Tokens(bufs[chain[i]], marks)) + Flow(bufs, chain[i + 1..], marks)
  {
    assert chain[i..][1..] == chain[i + 1..];
  }

  lemma Associate(a: seq<Token>, b: seq<Token>, c: seq<Token>)
    ensures (a + b) + c == a + (b + c)
  {
  }

  lemma RestSame(bufs: seq<Buf>, bufs': seq<Buf>, chain: seq<nat>, i: nat, marks: bool)
    requires Sound(bufs, chain) && NoDup(chain) && i <= |chain| && |bufs'| == |bufs|
    requires forall j :: 0 <= j < |bufs| && j !in chain[..i] ==> bufs'[j] == bufs[j]
    ensures Sound(bufs', chain[i..]) && Flow(bufs', chain[i..], marks) == Flow(bufs, chain[i..], marks)
    ensures forall k :: i <= k < |chain| ==> bufs'[chain[k]] == bufs[chain[k]]
  {
    FlowFrame(bufs, bufs', chain[i..], marks);
  }

  lemma PartGone(bufs: seq<Buf>, bufs': seq<Buf>, chain: seq<nat>, i: nat, n: nat, before: seq<Token>, marks: bool)
    requires Sound(bufs, chain) && NoDup(chain) && i < |chain| && n <= Size(bufs[chain[i]]) && |bufs'| == |bufs|
    requires forall j :: 0 <= j < |bufs| && j !in chain[..i + 1] ==> bufs'[j] == bufs[j]
    requires bufs'[chain[i]] == Advanced(bufs[chain[i]], n)
    ensures Sound(bufs', chain[i..])
    ensures before + Flow(bufs, chain[i..], marks) == (before + FirstOf(bufs[chain[i]], n)) + Flow(bufs', chain[i..], marks)
    ensures forall k :: i < k < |chain| ==> bufs'[chain[k]] == bufs[chain[k]]
  {
    hide Coherent, Advanced, Tokens, Marks, FirstOf;
    var b, b' := bufs[chain[i]], bufs'[chain[i]];
    TokensSplit(b, n, marks);
    RestSame(bufs, bufs', chain, i + 1, marks);
    assert chain[i..][1..] == chain[i + 1..];
    var x, y, z := FirstOf(b, n), Tokens(b', marks), Flow(bufs, chain[i + 1..], marks);
    assert before + ((x + y) + z) == (before + x) + (y + z);
  }

  lemma TokensSplit(b: Buf, n: nat, marks: bool)
    requires Coherent(b) && n <= Size(b)
    ensures Coherent(Advanced(b, n)) && Tokens(b, marks) == FirstOf(b, n) + Tokens(Advanced(b, n), marks)
  {
    hide Coherent, Advanced, Size, Marks;
    AdvancedData(b, n);
    BytesSplit(Data(b), n);
  }

  lemma BytesSplit(d: seq<bv8>, n: nat)
    requires n <= |d|
    ensures Bytes(d) == Bytes(d[..n]) + Bytes(d[n..])
  {
  }
}