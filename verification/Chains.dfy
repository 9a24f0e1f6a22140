// Where the buffers of an output chain are, and what each step of the chain
// does to the stream.
module Chains {
  import opened Bufs
  import opened Options

  datatype Place = Gone | Input | Out | Busy | Free | Next

  // The incoming buffers, those on the way to the filter, those passed to it
  // and not yet back, the free copy buffers, the filter's own chain, the copy
  // buffer to be filled next, and the place of each buffer. The filter's chain
  // holds buffers that are busy or gone.
  datatype Chains = Chains(
    input: seq<nat>, out: seq<nat>, busy: seq<nat>, free: seq<nat>, pending: seq<nat>, buf: Option<nat>, at: seq<Place>)

  ghost predicate AllAt(c: seq<nat>, at: seq<Place>, p: Place) {
    NoDup(c) && forall k :: 0 <= k < |c| ==> c[k] < |at| && at[c[k]] == p
  }

  // No buffer is in two places.
  ghost predicate Placed(c: Chains) {
    && AllAt(c.input, c.at, Input) && AllAt(c.out, c.at, Out) && AllAt(c.busy, c.at, Busy) && AllAt(c.free, c.at, Free)
    && NoDup(c.pending) && (forall k :: 0 <= k < |c.pending| ==> c.pending[k] < |c.at| && c.at[c.pending[k]] in {Busy, Gone})
    && (c.buf.Some? ==> c.buf.value < |c.at| && c.at[c.buf.value] == Next)
    && (forall i :: 0 <= i < |c.at| && c.at[i] == Out ==> i in c.out)
  }

  // A copy buffer to be filled.
  predicate Blank(b: Buf) {
    b.temporary && b.pos == 0 && b.last == 0 && |b.mem| > 0 && Coherent(b)
  }

  predicate Room(b: Buf) { b.own ==> b.temporary && |b.mem| > 0 }

  predicate Loaded(b: Buf) { b.own ==> Size(b) > 0 }

  // What holds of a buffer by its place, and by being in the filter's chain.
  ghost predicate Fits(b: Buf, p: Place) {
    && Coherent(b) && Room(b)
    && (p == Input ==> !b.own)
    && (p == Out ==> Loaded(b))
    && (p == Free ==> b.own && Blank(b))
    && (p == Next ==> Blank(b))
    && (p == Gone ==> !b.own)
  }

  ghost predicate Held(bufs: seq<Buf>, c: Chains) {
    && |bufs| == |c.at|
    && (forall i :: 0 <= i < |bufs| ==> Fits(bufs[i], c.at[i]))
    && (forall k :: 0 <= k < |c.pending| ==> c.pending[k] < |bufs| && Loaded(bufs[c.pending[k]]))
  }

  ghost predicate Fine(bufs: seq<Buf>, c: Chains) { Placed(c) && Held(bufs, c) }

  lemma FineSound(bufs: seq<Buf>, c: Chains)
    requires Fine(bufs, c)
    ensures Sound(bufs, c.pending) && Sound(bufs, c.out) && Sound(bufs, c.input) && Sound(bufs, c.busy) && Sound(bufs, c.free)
    ensures c.input != [] ==> Sound(bufs, c.input[1..]) && c.input[0] < |bufs| && Coherent(bufs[c.input[0]])
  {
  }

  // What is on its way to the filter, and what has not been looked at, in order.
  ghost function Sent(bufs: seq<Buf>, c: Chains, marks: bool): seq<Token>
    requires Fine(bufs, c)
  {
    FineSound(bufs, c);
    Flow(bufs, c.pending, marks) + Flow(bufs, c.out, marks)
  }

  ghost function Left(bufs: seq<Buf>, c: Chains, marks: bool): seq<Token>
    requires Fine(bufs, c)
  {
    FineSound(bufs, c);
    Flow(bufs, c.input, marks)
  }

  ghost function Load(bufs: seq<Buf>, c: Chains): nat
    requires Fine(bufs, c)
  {
    FineSound(bufs, c);
    Weight(bufs, c.input)
  }

  // The first incoming buffer has bytes.
  ghost predicate BytesNext(bufs: seq<Buf>, c: Chains) {
    c.input != [] && c.input[0] < |bufs| && Size(bufs[c.input[0]]) > 0
  }

  // A step that moves nothing along.
  ghost predicate Unmoved(bufs: seq<Buf>, c: Chains, bufs': seq<Buf>, c': Chains) {
    && Fine(bufs, c) && Fine(bufs', c')
    && Sent(bufs', c', false) == Sent(bufs, c, false) && Sent(bufs', c', true) == Sent(bufs, c, true)
    && Left(bufs', c', false) == Left(bufs, c, false) && Left(bufs', c', true) == Left(bufs, c, true)
    && (BytesNext(bufs', c') <==> BytesNext(bufs, c)) && Load(bufs', c') == Load(bufs, c)
  }

  // A change of a buffer that is not in the chain.
  lemma ElsewhereFlow(bufs: seq<Buf>, bufs': seq<Buf>, c: seq<nat>, i: nat, marks: bool)
    requires Sound(bufs, c) && (forall k :: 0 <= k < |c| ==> c[k] != i) && |bufs| <= |bufs'|
    requires forall j :: 0 <= j < |bufs| && j != i ==> bufs'[j] == bufs[j]
    ensures Sound(bufs', c) && Flow(bufs', c, marks) == Flow(bufs, c, marks) && Weight(bufs', c) == Weight(bufs, c)
  {
    FlowFrame(bufs, bufs', c, marks);
  }

  // ----- a buffer without bytes is dropped

  function Dropped(c: Chains): Chains
    requires c.input != [] && c.input[0] < |c.at|
  {
    c.(input := c.input[1..], at := c.at[c.input[0] := Gone])
  }

  lemma DropPlaced(bufs: seq<Buf>, c: Chains)
    requires Fine(bufs, c) && c.input != []
    ensures Fine(bufs, Dropped(c))
  {
    hide Coherent, Room, Loaded, Blank;
  }

  lemma DropStep(bufs: seq<Buf>, c: Chains, marks: bool)
    requires Fine(bufs, c) && c.input != [] && Size(bufs[c.input[0]]) == 0
    ensures Fine(bufs, Dropped(c)) && Sent(bufs, Dropped(c), marks) == Sent(bufs, c, marks) && Load(bufs, Dropped(c)) < Load(bufs, c)
    ensures Left(bufs, c, marks) == (if marks then Marks(bufs[c.input[0]]) else []) + Left(bufs, Dropped(c), marks)
  {
    hide Placed, Held;
    DropPlaced(bufs, c);
    FineSound(bufs, c);
    assert Bytes(Data(bufs[c.input[0]])) == [];
  }

  // ----- a buffer passes as it is

  // in_file may be cleared when the bytes are in memory too.
  ghost predicate PassedOn(b: Buf, b': Buf) {
    b' == b || (InMemory(b) && b' == b.(inFile := false))
  }

  function Moved(c: Chains): Chains
    requires c.input != [] && c.input[0] < |c.at|
  {
    c.(input := c.input[1..], out := c.out + [c.input[0]], at := c.at[c.input[0] := Out])
  }

  lemma PassPlaced(bufs: seq<Buf>, c: Chains)
    requires Fine(bufs, c) && c.input != []
    ensures Fine(bufs, Moved(c)) && Coherent(bufs[c.input[0]])
  {
    hide Blank;
    assert forall k :: 0 <= k < |c.pending| ==> c.pending[k] != c.input[0];
  }

  lemma HeadApart(c: Chains)
    requires Placed(c) && c.input != []
    ensures c.input[0] < |c.at|
    ensures forall k :: 0 <= k < |c.pending| ==> c.pending[k] != c.input[0]
    ensures forall k :: 0 <= k < |c.out| ==> c.out[k] != c.input[0]
    ensures forall k :: 0 <= k < |c.input[1..]| ==> c.input[1..][k] != c.input[0]
  {
  }

  lemma PassStep(bufs: seq<Buf>, c: Chains, marks: bool)
    requires Fine(bufs, c) && c.input != []
    ensures c.input[0] < |c.at| && Fine(bufs, Moved(c)) && Coherent(bufs[c.input[0]]) && Load(bufs, Moved(c)) < Load(bufs, c)
    ensures Sent(bufs, Moved(c), marks) == Sent(bufs, c, marks) + Tokens(bufs[c.input[0]], marks)
    ensures Left(bufs, c, marks) == Tokens(bufs[c.input[0]], marks) + Left(bufs, Moved(c), marks)
  {
    hide Held, Placed, Coherent, Tokens, Sound;
    FinePlaced(bufs, c);
    HeadApart(c);
    FineSound(bufs, c);
    PassPlaced(bufs, c);
    FlowSnoc(bufs, c.out, c.input[0], marks);
    Associate(Flow(bufs, c.pending, marks), Flow(bufs, c.out, marks), Tokens(bufs[c.input[0]], marks));
  }

  lemma FlowSnoc(bufs: seq<Buf>, c: seq<nat>, i: nat, marks: bool)
    requires Sound(bufs, c) && i < |bufs| && Coherent(bufs[i])
    ensures Sound(bufs, c + [i]) && Flow(bufs, c + [i], marks) == Flow(bufs, c, marks) + Tokens(bufs[i], marks)
  {
    hide Tokens, Coherent;
    FlowJoin(bufs, c, [i], marks);
    assert [i][1..] == [];
  }

  // ----- a copy

  function CopySize(src: Buf, dst: Buf): nat
    requires Coherent(src) && Blank(dst)
  {
    if Size(src) < |dst.mem| then Size(src) else |dst.mem|
  }

  function InMemoryCopy(src: Buf, dst: Buf): Buf
    requires Coherent(src) && Blank(dst)
  {
    var n := CopySize(src, dst);
    dst.(mem := Data(src)[..n] + dst.mem[n..], last := n, inFile := false)
  }

  // A copy may also be sent from the file it was read from.
  function InFileCopy(src: Buf, d: Buf, n: nat): Buf {
    d.(inFile := true, file := src.file, directio := src.directio, filePos := src.filePos, fileLast := src.filePos + n)
  }

  function CopyBase(src: Buf, dst: Buf, keepFile: bool): Buf
    requires Coherent(src) && Blank(dst)
  {
    var d := InMemoryCopy(src, dst);
    if src.inFile && keepFile then InFileCopy(src, d, CopySize(src, dst)) else d
  }

  function WithMarks(b: Buf, src: Buf): Buf {
    b.(flush := src.flush, lastBuf := src.lastBuf, lastInChain := src.lastInChain)
  }

  // The copy buffer after the copy. It takes the marks over with the last
  // byte, and otherwise keeps those of its last use.
  function CopyTo(src: Buf, dst: Buf, keepFile: bool): Buf
    requires Coherent(src) && Blank(dst)
  {
    var f := CopyBase(src, dst, keepFile);
    if CopySize(src, dst) == Size(src) then WithMarks(f, src) else f
  }

  lemma InMemoryHolds(src: Buf, dst: Buf)
    requires Coherent(src) && Blank(dst) && Size(src) > 0
    ensures var n, d := CopySize(src, dst), InMemoryCopy(src, dst);
      && 0 < n <= Size(src) && Coherent(d) && Size(d) == n && |d.mem| == |dst.mem| && Data(d) == Data(src)[..n]
  {
    var n, d := CopySize(src, dst), InMemoryCopy(src, dst);
    assert d.mem[0..n] == Data(src)[..n];
  }

  lemma InFileHolds(src: Buf, d: Buf, n: nat)
    requires Coherent(src) && src.inFile && n <= Size(src) && Coherent(d) && d.temporary && Size(d) == n && Data(d) == Data(src)[..n]
    ensures var f := InFileCopy(src, d, n); Coherent(f) && Size(f) == n && Data(f) == Data(d)
  {
    var f := InFileCopy(src, d, n);
    assert src.file[src.filePos..src.fileLast] == Data(src);
    Prefix(src.file, src.filePos, src.fileLast, n);
  }

  lemma Prefix(s: seq<bv8>, a: nat, b: nat, n: nat)
    requires a + n <= b <= |s|
    ensures s[a..b][..n] == s[a..a + n]
  {
  }

  // What a copy leaves in its buffer.
  ghost predicate Took(d: Buf, src: Buf, dst: Buf, n: nat)
    requires Coherent(src)
  {
    && 0 < n <= Size(src) && Coherent(d) && Size(d) == n && d.temporary && |d.mem| == |dst.mem| && d.own == dst.own
    && Data(d) == Data(src)[..n]
  }

  lemma Remarked(f: Buf, src: Buf, dst: Buf, n: nat)
    requires Coherent(src) && Took(f, src, dst, n)
    ensures Took(WithMarks(f, src), src, dst, n) && Marks(WithMarks(f, src)) == Marks(src)
  {
  }

  lemma BaseHolds(src: Buf, dst: Buf, keepFile: bool)
    requires Coherent(src) && Blank(dst) && Size(src) > 0
    ensures Took(CopyBase(src, dst, keepFile), src, dst, CopySize(src, dst)) && Marks(CopyBase(src, dst, keepFile)) == Marks(dst)
  {
    hide CopySize, Coherent, Data, Size;
    InMemoryHolds(src, dst);
    if src.inFile && keepFile {
      InFileHolds(src, InMemoryCopy(src, dst), CopySize(src, dst));
    }
  }

  lemma CopyHolds(src: Buf, dst: Buf, keepFile: bool)
    requires Coherent(src) && Blank(dst) && Size(src) > 0
    ensures Took(CopyTo(src, dst, keepFile), src, dst, CopySize(src, dst))
    ensures Marks(CopyTo(src, dst, keepFile)) == if CopySize(src, dst) == Size(src) then Marks(src) else Marks(dst)
  {
    hide CopySize, CopyBase, Took, WithMarks;
    BaseHolds(src, dst, keepFile);
    Remarked(CopyBase(src, dst, keepFile), src, dst, CopySize(src, dst));
  }

  // The copy is on its way, and the source is gone if it is used up.
  function Filled(c: Chains, done: bool): Chains
    requires c.input != [] && c.input[0] < |c.at| && c.buf.Some? && c.buf.value < |c.at|
  {
    var c1 := c.(out := c.out + [c.buf.value], buf := None, at := c.at[c.buf.value := Out]);
    if done then Dropped(c1) else c1
  }

  // What a copy from the first incoming buffer writes.
  ghost predicate Copies(bufs: seq<Buf>, bufs': seq<Buf>, c: Chains, keepFile: bool)
    requires Fine(bufs, c) && c.input != [] && c.buf.Some?
  {
    var s, d := c.input[0], c.buf.value;
    FineSound(bufs, c);
    && |bufs'| == |bufs| && s != d
    && bufs'[s] == Advanced(bufs[s], CopySize(bufs[s], bufs[d])) && bufs'[d] == CopyTo(bufs[s], bufs[d], keepFile)
    && forall j :: 0 <= j < |bufs| && j != s && j != d ==> bufs'[j] == bufs[j]
  }

  // What a copy adds, and what it takes from its source: the same bytes, and the
  // source's marks with the last of them, else those left in the copy buffer.
  lemma CopyTokens(src: Buf, dst: Buf, keepFile: bool, marks: bool)
    requires Coherent(src) && Blank(dst) && Size(src) > 0
    ensures var n := CopySize(src, dst);
      && n <= Size(src) && Coherent(CopyTo(src, dst, keepFile)) && Coherent(Advanced(src, n))
      && Tokens(CopyTo(src, dst, keepFile), marks) == CopiedTokens(src, n) + MarksIf(if n == Size(src) then src else dst, marks)
      && Tokens(src, marks) == CopiedTokens(src, n) + (if n == Size(src) then MarksIf(src, marks) else Tokens(Advanced(src, n), marks))
  {
    hide CopyTo, CopySize, Advanced, Coherent, Data, Size, Blank, Marks;
    var n := CopySize(src, dst);
    CopyHolds(src, dst, keepFile);
    AdvancedData(src, n);
    BytesSplit(Data(src), n);
    if n == Size(src) {
      assert Data(src)[..n] == Data(src);
    } else {
      Associate(Bytes(Data(src)[..n]), Bytes(Data(src)[n..]), MarksIf(src, marks));
    }
  }

  function MarksIf(b: Buf, marks: bool): seq<Token> { if marks then Marks(b) else [] }

  function CopiedTokens(src: Buf, n: nat): (t: seq<Token>)
    requires Coherent(src) && n <= Size(src)
    ensures |t| == n && forall i :: 0 <= i < n ==> t[i].Byte?
  {
    Bytes(Data(src)[..n])
  }

  lemma CopyFits(src: Buf, dst: Buf, keepFile: bool)
    requires Coherent(src) && Blank(dst) && Size(src) > 0
    ensures var n, d := CopySize(src, dst), CopyTo(src, dst, keepFile);
      && 0 < n <= Size(src) && Fits(d, Out) && Loaded(d) && Coherent(Advanced(src, n)) && Advanced(src, n).own == src.own
      && (Size(Advanced(src, n)) == 0 <==> n == Size(src))
  {
    hide CopyTo, Coherent, CopySize, Data;
    CopyHolds(src, dst, keepFile);
    AdvancedData(src, CopySize(src, dst));
  }

  lemma CopyPlaced(bufs: seq<Buf>, bufs': seq<Buf>, c: Chains, keepFile: bool, done: bool)
    requires Fine(bufs, c) && c.input != [] && c.buf.Some? && Size(bufs[c.input[0]]) > 0 && Copies(bufs, bufs', c, keepFile)
    requires done <==> Size(bufs'[c.input[0]]) == 0
    ensures Fine(bufs', Filled(c, done))
  {
    hide Coherent, CopyTo, CopySize, Advanced, Blank;
    FineSound(bufs, c);
    CopyFits(bufs[c.input[0]], bufs[c.buf.value], keepFile);
    FillPlaced(c, done);
    var c' := Filled(c, done);
    forall i | 0 <= i < |bufs'| ensures Fits(bufs'[i], c'.at[i]) {}
    forall k | 0 <= k < |c'.pending| ensures bufs'[c'.pending[k]] == bufs[c'.pending[k]] {}
  }

  lemma FillPlaced(c: Chains, done: bool)
    requires Placed(c) && c.input != [] && c.buf.Some?
    ensures c.input[0] < |c.at| && c.buf.value < |c.at| && c.input[0] != c.buf.value
    ensures Placed(Filled(c, done))
  {
  }

  // Buffers other than the two of a copy are where they were.
  lemma CopyApart(c: Chains)
    requires Placed(c) && c.input != [] && c.buf.Some?
    ensures forall k :: 0 <= k < |c.pending| ==> c.pending[k] != c.input[0] && c.pending[k] != c.buf.value
    ensures forall k :: 0 <= k < |c.out| ==> c.out[k] != c.input[0] && c.out[k] != c.buf.value
    ensures forall k :: 0 <= k < |c.input[1..]| ==> c.input[1..][k] != c.input[0] && c.input[1..][k] != c.buf.value
  {
  }

  lemma CopyFlows(bufs: seq<Buf>, bufs': seq<Buf>, c: Chains, marks: bool)
    requires Fine(bufs, c) && c.input != [] && c.buf.Some? && |bufs'| == |bufs|
    requires forall j :: 0 <= j < |bufs| && j != c.input[0] && j != c.buf.value ==> bufs'[j] == bufs[j]
    requires c.buf.value < |bufs'| && Coherent(bufs'[c.buf.value])
    ensures Sound(bufs, c.pending) && Sound(bufs', c.pending) && Flow(bufs', c.pending, marks) == Flow(bufs, c.pending, marks)
    ensures Sound(bufs, c.out) && Sound(bufs', c.out + [c.buf.value])
    ensures Flow(bufs', c.out + [c.buf.value], marks) == Flow(bufs, c.out, marks) + Tokens(bufs'[c.buf.value], marks)
    ensures Sound(bufs, c.input) && Sound(bufs, c.input[1..]) && Sound(bufs', c.input[1..])
    ensures Flow(bufs', c.input[1..], marks) == Flow(bufs, c.input[1..], marks)
    ensures Weight(bufs', c.input[1..]) == Weight(bufs, c.input[1..])
  {
    hide Held, Placed, Coherent, Tokens, Sound;
    FinePlaced(bufs, c);
    CopyApart(c);
    FineSound(bufs, c);
    FramedFlow(bufs, bufs', c.pending, c.input[0], c.buf.value, marks);
    FramedFlow(bufs, bufs', c.out, c.input[0], c.buf.value, marks);
    FramedFlow(bufs, bufs', c.input[1..], c.input[0], c.buf.value, marks);
    FlowSnoc(bufs', c.out, c.buf.value, marks);
  }

  lemma FramedFlow(bufs: seq<Buf>, bufs': seq<Buf>, c: seq<nat>, s: nat, d: nat, marks: bool)
    requires Sound(bufs, c) && (forall k :: 0 <= k < |c| ==> c[k] != s && c[k] != d) && |bufs'| == |bufs|
    requires forall j :: 0 <= j < |bufs| && j != s && j != d ==> bufs'[j] == bufs[j]
    ensures Sound(bufs', c) && Flow(bufs', c, marks) == Flow(bufs, c, marks) && Weight(bufs', c) == Weight(bufs, c)
  {
    FlowFrame(bufs, bufs', c, marks);
  }

  lemma CopyStep(bufs: seq<Buf>, bufs': seq<Buf>, c: Chains, keepFile: bool, done: bool, marks: bool)
    requires Fine(bufs, c) && c.input != [] && c.buf.Some? && Size(bufs[c.input[0]]) > 0 && Copies(bufs, bufs', c, keepFile)
    requires done <==> Size(bufs'[c.input[0]]) == 0
    ensures c.input[0] < |c.at| && c.buf.value < |c.at| && Fine(bufs', Filled(c, done)) && Load(bufs', Filled(c, done)) < Load(bufs, c)
    ensures Coherent(bufs[c.input[0]]) && Blank(bufs[c.buf.value])
    ensures var src, dst := bufs[c.input[0]], bufs[c.buf.value];
      var n := CopySize(src, dst);
      && 0 < n <= Size(src) && (done <==> n == Size(src))
      && Sent(bufs', Filled(c, done), marks) == Sent(bufs, c, marks) + (CopiedTokens(src, n) + MarksIf(if done then src else dst, marks))
      && Left(bufs, c, marks) == CopiedTokens(src, n) + MarksIf(src, marks && done) + Left(bufs', Filled(c, done), marks)
  {
    hide Fine, Held, Placed, Tokens, Coherent, Blank, CopyTo, CopySize, Advanced, Size, Marked, CopiedTokens;
    FinePlaced(bufs, c);
    FineSound(bufs, c);
    FillPlaced(c, done);
    CopyPlaced(bufs, bufs', c, keepFile, done);
    FineSound(bufs', Filled(c, done));
    NextBlank(bufs, c);
    var src, dst, src', dst' := bufs[c.input[0]], bufs[c.buf.value], bufs'[c.input[0]], bufs'[c.buf.value];
    CopyFits(src, dst, keepFile);
    CopyTokens(src, dst, keepFile, marks);
    CopyFlows(bufs, bufs', c, marks);
    Weighs(src, CopySize(src, dst));
    Associate(Flow(bufs, c.pending, marks), Flow(bufs, c.out, marks), Tokens(dst', marks));
    var t, d := CopiedTokens(src, CopySize(src, dst)), Flow(bufs, c.input[1..], marks);
    assert t + MarksIf(src, false) == t;
    if !done { Associate(t, Tokens(src', marks), d); }
  }

  lemma Weighs(src: Buf, n: nat)
    requires Coherent(src) && 0 < n <= Size(src)
    ensures Coherent(Advanced(src, n)) && |Data(Advanced(src, n))| < |Data(src)|
  {
    AdvancedData(src, n);
  }

  lemma NextBlank(bufs: seq<Buf>, c: Chains)
    requires Fine(bufs, c) && c.buf.Some?
    ensures c.buf.value < |bufs| && Blank(bufs[c.buf.value])
  {
  }

  lemma FinePlaced(bufs: seq<Buf>, c: Chains)
    requires Fine(bufs, c)
    ensures Placed(c) && Held(bufs, c)
  {
  }

  // ----- the filter takes what it likes

  function Shifted(at: seq<Place>, out: seq<nat>): seq<Place> {
    seq(|at|, i requires 0 <= i < |at| => if at[i] == Out then Busy else at[i])
  }

  // The filter keeps `rest`, and all that was passed is busy.
  function Passed(c: Chains, rest: seq<nat>): Chains {
    c.(pending := rest, busy := c.busy + c.out, out := [], at := Shifted(c.at, c.out))
  }

  lemma FilterChain(c: Chains)
    requires Placed(c)
    ensures NoDup(c.pending + c.out)
    ensures forall k :: 0 <= k < |c.pending + c.out| ==> (c.pending + c.out)[k] < |c.at| && c.at[(c.pending + c.out)[k]] in {Busy, Gone, Out}
  {
  }

  lemma PassedPlaced(c: Chains, rest: seq<nat>)
    requires Placed(c) && |rest| <= |c.pending + c.out| && rest == (c.pending + c.out)[|c.pending + c.out| - |rest|..]
    ensures Placed(Passed(c, rest))
  {
    FilterChain(c);
    var d, c' := c.pending + c.out, Passed(c, rest);
    forall k | 0 <= k < |rest| ensures rest[k] == d[|d| - |rest| + k] && rest[k] < |c'.at| && c'.at[rest[k]] in {Busy, Gone} {}
  }

  lemma ConsumedFits(b: Buf, b': Buf, p: Place)
    requires Fits(b, p) && Consumed(b, b') && p in {Busy, Gone, Out}
    ensures Fits(b', if p == Out then Busy else p)
  {
  }

  lemma PassedHeld(bufs: seq<Buf>, bufs': seq<Buf>, c: Chains, rest: seq<nat>)
    requires Fine(bufs, c) && ConsumedIn(bufs, bufs', c.pending + c.out)
    requires |rest| <= |c.pending + c.out| && rest == (c.pending + c.out)[|c.pending + c.out| - |rest|..]
    requires forall k :: 0 <= k < |rest| && Size(bufs[rest[k]]) > 0 ==> Size(bufs'[rest[k]]) > 0
    ensures Held(bufs', Passed(c, rest))
  {
    hide Coherent, Size, Room, Blank, Consumed;
    FilterChain(c);
    var d, c' := c.pending + c.out, Passed(c, rest);
    forall i | 0 <= i < |bufs'| ensures Fits(bufs'[i], c'.at[i]) {
      if i in d {
        ConsumedFits(bufs[i], bufs'[i], c.at[i]);
      }
    }
    forall k | 0 <= k < |rest| ensures rest[k] < |bufs'| && Loaded(bufs'[rest[k]]) {
      assert rest[k] == d[|d| - |rest| + k];
      LoadedIn(bufs, c, |d| - |rest| + k);
      assert bufs'[rest[k]].own == bufs[rest[k]].own by { OwnKept(bufs[rest[k]], bufs'[rest[k]]); }
    }
  }

  lemma OwnKept(b: Buf, b': Buf)
    requires Consumed(b, b')
    ensures b'.own == b.own && b'.flush == b.flush && b'.lastBuf == b.lastBuf && b'.lastInChain == b.lastInChain
  {
  }

  lemma LoadedIn(bufs: seq<Buf>, c: Chains, k: nat)
    requires Fine(bufs, c) && k < |c.pending + c.out|
    ensures (c.pending + c.out)[k] < |bufs| && Loaded(bufs[(c.pending + c.out)[k]])
  {
    if k < |c.pending| {
      assert (c.pending + c.out)[k] == c.pending[k];
    } else {
      assert (c.pending + c.out)[k] == c.out[k - |c.pending|];
      assert Fits(bufs[c.out[k - |c.pending|]], Out);
    }
  }

  // What the filter took left the stream, and nothing else.
  lemma FilterStep(bufs: seq<Buf>, bufs': seq<Buf>, c: Chains, rest: seq<nat>, gone: seq<Token>, marks: bool)
    requires Fine(bufs, c) && Consumes(bufs, bufs', c, rest) && Flow(bufs, c.pending + c.out, marks) == gone + Flow(bufs', rest, marks)
    ensures Fine(bufs', Passed(c, rest)) && Sent(bufs, c, marks) == gone + Sent(bufs', Passed(c, rest), marks)
    ensures Left(bufs', Passed(c, rest), marks) == Left(bufs, c, marks)
    ensures Load(bufs', Passed(c, rest)) == Load(bufs, c) && (BytesNext(bufs', Passed(c, rest)) <==> BytesNext(bufs, c))
  {
    hide Held, Placed, ConsumedIn, Tokens, Coherent, Size, Sound;
    FinePlaced(bufs, c);
    FineSound(bufs, c);
    PassedPlaced(c, rest);
    PassedHeld(bufs, bufs', c, rest);
    FineSound(bufs', Passed(c, rest));
    InputKept(bufs, bufs', c, marks);
    FlowJoin(bufs, c.pending, c.out, marks);
    assert Flow(bufs', rest, marks) + [] == Flow(bufs', rest, marks);
  }

  // What a call of the filter does to the buffers it has.
  ghost predicate Consumes(bufs: seq<Buf>, bufs': seq<Buf>, c: Chains, rest: seq<nat>) {
    && ConsumedIn(bufs, bufs', c.pending + c.out)
    && |rest| <= |c.pending + c.out| && rest == (c.pending + c.out)[|c.pending + c.out| - |rest|..]
    && (forall k :: 0 <= k < |rest| && rest[k] < |bufs| && Size(bufs[rest[k]]) > 0 ==> rest[k] < |bufs'| && Size(bufs'[rest[k]]) > 0)
    && Sound(bufs, c.pending + c.out) && Sound(bufs', rest)
  }

  lemma InputKept(bufs: seq<Buf>, bufs': seq<Buf>, c: Chains, marks: bool)
    requires Fine(bufs, c) && ConsumedIn(bufs, bufs', c.pending + c.out)
    ensures Sound(bufs, c.input) && Sound(bufs', c.input)
    ensures Flow(bufs', c.input, marks) == Flow(bufs, c.input, marks) && Weight(bufs', c.input) == Weight(bufs, c.input)
    ensures c.input != [] ==> c.input[0] < |bufs| && c.input[0] < |bufs'| && bufs'[c.input[0]] == bufs[c.input[0]]
  {
    hide Held, Coherent, Consumed;
    FilterChain(c);
    FineSound(bufs, c);
    forall k | 0 <= k < |c.input| ensures c.input[k] !in c.pending + c.out {}
    FlowFrame(bufs, bufs', c.input, marks);
  }

  // ----- buffers come back

  function Returned(c: Chains): Chains
    requires c.busy != [] && c.busy[0] < |c.at|
  {
    c.(busy := c.busy[1..], at := c.at[c.busy[0] := Gone])
  }

  lemma ReturnStep(bufs: seq<Buf>, c: Chains)
    requires Fine(bufs, c) && c.busy != [] && c.busy[0] < |bufs| && !bufs[c.busy[0]].own
    ensures c.busy[0] < |c.at| && Unmoved(bufs, c, bufs, Returned(c))
  {
    hide Coherent, Size, Blank, Flow, Weight;
  }

  // A copy buffer all sent is free, and not with the filter any more.
  function Freed(c: Chains): Chains
    requires c.busy != [] && c.busy[0] < |c.at|
  {
    c.(busy := c.busy[1..], free := [c.busy[0]] + c.free, at := c.at[c.busy[0] := Free])
  }

  function Reset(b: Buf): Buf { b.(pos := 0, last := 0) }

  lemma FreedPlaced(bufs: seq<Buf>, c: Chains)
    requires Fine(bufs, c) && c.busy != [] && c.busy[0] < |bufs| && bufs[c.busy[0]].own && Size(bufs[c.busy[0]]) == 0
    ensures c.busy[0] < |c.at| && Placed(Freed(c)) && forall k :: 0 <= k < |c.pending| ==> c.pending[k] != c.busy[0]
    ensures forall k :: 0 <= k < |c.input| ==> c.input[k] != c.busy[0]
    ensures forall k :: 0 <= k < |c.out| ==> c.out[k] != c.busy[0]
  {
    hide Coherent, Blank;
    forall k | 0 <= k < |c.pending| ensures c.pending[k] != c.busy[0] {
      assert Loaded(bufs[c.pending[k]]);
    }
  }

  lemma FreeStep(bufs: seq<Buf>, c: Chains)
    requires Fine(bufs, c) && c.busy != [] && c.busy[0] < |bufs| && bufs[c.busy[0]].own && Size(bufs[c.busy[0]]) == 0
    ensures c.busy[0] < |c.at| && Unmoved(bufs, c, bufs[c.busy[0] := Reset(bufs[c.busy[0]])], Freed(c))
  {
    hide Flow, Tokens, Placed, Coherent, Weight, Size;
    var i := c.busy[0];
    var bufs' := bufs[i := Reset(bufs[i])];
    FreedPlaced(bufs, c);
    FreedHeld(bufs, c);
    Elsewhere(bufs, bufs', c, Freed(c), i, false);
    Elsewhere(bufs, bufs', c, Freed(c), i, true);
  }

  // A change of a buffer that is in none of the chains of the stream.
  lemma Elsewhere(bufs: seq<Buf>, bufs': seq<Buf>, c: Chains, c': Chains, i: nat, marks: bool)
    requires Fine(bufs, c) && Fine(bufs', c') && c'.pending == c.pending && c'.out == c.out && c'.input == c.input
    requires |bufs| <= |bufs'| && forall j :: 0 <= j < |bufs| && j != i ==> bufs'[j] == bufs[j]
    requires (forall k :: 0 <= k < |c.pending| ==> c.pending[k] != i) && (forall k :: 0 <= k < |c.out| ==> c.out[k] != i)
    requires forall k :: 0 <= k < |c.input| ==> c.input[k] != i
    ensures Sent(bufs', c', marks) == Sent(bufs, c, marks) && Left(bufs', c', marks) == Left(bufs, c, marks)
    ensures Load(bufs', c') == Load(bufs, c) && (BytesNext(bufs', c') <==> BytesNext(bufs, c))
  {
    hide Held, Placed, Coherent, Size, Flow, Weight;
    FineSound(bufs, c);
    ElsewhereFlow(bufs, bufs', c.pending, i, marks);
    ElsewhereFlow(bufs, bufs', c.out, i, marks);
    ElsewhereFlow(bufs, bufs', c.input, i, marks);
  }

  lemma FreedHeld(bufs: seq<Buf>, c: Chains)
    requires Fine(bufs, c) && c.busy != [] && c.busy[0] < |bufs| && bufs[c.busy[0]].own && Size(bufs[c.busy[0]]) == 0
    ensures Held(bufs[c.busy[0] := Reset(bufs[c.busy[0]])], Freed(c))
  {
    FreedPlaced(bufs, c);
    assert Fits(bufs[c.busy[0]], Busy);
  }

  // ----- a copy buffer is got

  function FromFree(c: Chains): Chains
    requires c.free != [] && c.free[0] < |c.at|
  {
    c.(free := c.free[1..], buf := Some(c.free[0]), at := c.at[c.free[0] := Next])
  }

  lemma FromFreeStep(bufs: seq<Buf>, c: Chains)
    requires Fine(bufs, c) && c.free != [] && c.buf.None?
    ensures c.free[0] < |c.at| && Unmoved(bufs, c, bufs, FromFree(c))
  {
    hide Coherent, Size, Flow, Weight;
    assert Fits(bufs[c.free[0]], Free);
  }

  function WithNew(c: Chains): Chains { c.(buf := Some(|c.at|), at := c.at + [Next]) }

  lemma NewStep(bufs: seq<Buf>, b: Buf, c: Chains)
    requires Fine(bufs, c) && c.buf.None? && Blank(b)
    ensures Unmoved(bufs, c, bufs + [b], WithNew(c))
  {
    hide Held, Coherent, Flow, Weight, Size;
    NewFine(bufs, b, c);
    FineSound(bufs, c);
    Elsewhere(bufs, bufs + [b], c, WithNew(c), |bufs|, false);
    Elsewhere(bufs, bufs + [b], c, WithNew(c), |bufs|, true);
  }

  lemma NewFine(bufs: seq<Buf>, b: Buf, c: Chains)
    requires Fine(bufs, c) && c.buf.None? && Blank(b)
    ensures Fine(bufs + [b], WithNew(c))
  {
    hide Coherent, Size;
  }

  // ----- when marks keep their place

  datatype Mode = Mode(sendfile: bool, needInMemory: bool, needInTemp: bool)

  // Whether a buffer passes without a copy.
  predicate AsIs(b: Buf, m: Mode) {
    Special(b)
    || ((InMemory(b) || (m.sendfile && !(b.inFile && b.directio)))
        && !(m.needInMemory && !InMemory(b)) && !(m.needInTemp && (b.memory || b.mmap)))
  }

  // A buffer that is not special passes as it is exactly if nothing that the
  // mode asks for is missing: bytes in memory where they have to be, as without
  // sendfile, and memory that may be written to.
  lemma PassesIff(b: Buf, m: Mode)
    requires !Special(b)
    ensures m.needInMemory && !InMemory(b) ==> !AsIs(b, m)
    ensures m.needInTemp && (b.memory || b.mmap) ==> !AsIs(b, m)
    ensures !m.sendfile && !InMemory(b) ==> !AsIs(b, m)
    ensures b.inFile && b.directio && !InMemory(b) ==> !AsIs(b, m)
    ensures InMemory(b) && !m.needInTemp ==> AsIs(b, m)
    ensures b.temporary && !b.memory && !b.mmap ==> AsIs(b, m)
    ensures !InMemory(b) && m.sendfile && !m.needInMemory && !(b.inFile && b.directio) ==> AsIs(b, m)
  {
  }

  // Marks come with bytes or on a buffer of their own.
  predicate Proper(b: Buf) { Marked(b) ==> Special(b) || Size(b) > 0 }

  // No copy buffer has marks of an earlier use.
  ghost predicate Unmarked(bufs: seq<Buf>, c: Chains) {
    forall i :: 0 <= i < |bufs| && i < |c.at| && (bufs[i].own || c.at[i] == Next) ==> !Marked(bufs[i])
  }

  // Marks keep their place: copy buffers have none while there is something to
  // come, and only the last incoming buffer, or when strict not even that one,
  // has marks and needs a copy.
  ghost predicate Calm(bufs: seq<Buf>, c: Chains, m: Mode, strict: bool) {
    && (forall k :: 0 <= k < |c.input| && c.input[k] < |bufs| ==> Proper(bufs[c.input[k]]))
    && (forall k :: 0 <= k < |c.input| && c.input[k] < |bufs| && Marked(bufs[c.input[k]]) && !AsIs(bufs[c.input[k]], m) ==> !strict && k == |c.input| - 1)
    && (strict || c.input != [] ==> Unmarked(bufs, c))
  }

  lemma CalmLoose(bufs: seq<Buf>, c: Chains, m: Mode)
    requires Calm(bufs, c, m, true)
    ensures Calm(bufs, c, m, false)
  {
  }

  // One less to come.
  lemma CalmNext(bufs: seq<Buf>, c: Chains, c': Chains, m: Mode, strict: bool)
    requires Fine(bufs, c) && Calm(bufs, c, m, strict) && c.input != [] && c' in {Dropped(c), Moved(c)}
    ensures Calm(bufs, c', m, strict)
    ensures c.input[0] < |bufs| && Proper(bufs[c.input[0]])
  {
    hide AsIs, Special, Marked, Coherent, Size, Blank;
    assert Fits(bufs[c.input[0]], Input);
    assert |c'.at| == |c.at|;
    forall k | 0 <= k < |c'.input| ensures c'.input[k] == c.input[k + 1] {}
  }

  lemma CalmCopy(bufs: seq<Buf>, bufs': seq<Buf>, c: Chains, m: Mode, strict: bool, keepFile: bool, done: bool)
    requires Fine(bufs, c) && Calm(bufs, c, m, strict) && c.input != [] && c.buf.Some? && Size(bufs[c.input[0]]) > 0
    requires !AsIs(bufs[c.input[0]], m) && Copies(bufs, bufs', c, keepFile) && (done <==> Size(bufs'[c.input[0]]) == 0)
    ensures c.input[0] < |c.at| && c.buf.value < |c.at| && Calm(bufs', Filled(c, done), m, strict) && !Marked(bufs[c.buf.value])
  {
    hide AsIs, Special, CopySize, CopyTo, Coherent, Advanced, Marked, Blank, Held, Placed, Size, Unmarked;
    FinePlaced(bufs, c);
    FillPlaced(c, done);
    CopyApart(c);
    FineSound(bufs, c);
    CopyMarked(bufs, bufs', c, keepFile, done);
    CopyUnmarked(bufs, bufs', c, keepFile, done);
    var c' := Filled(c, done);
    forall k | (if done then 0 else 1) <= k < |c'.input| ensures c'.input[k] == c.input[if done then k + 1 else k] {}
    forall k | 1 <= k < |c.input| ensures c.input[k] < |bufs| && bufs'[c.input[k]] == bufs[c.input[k]] {
      assert c.input[1..][k - 1] == c.input[k];
    }
    assert Proper(bufs'[c.input[0]]) || done;
  }

  // The marks of the two buffers of a copy.
  lemma CopyMarked(bufs: seq<Buf>, bufs': seq<Buf>, c: Chains, keepFile: bool, done: bool)
    requires Fine(bufs, c) && c.input != [] && c.buf.Some? && Size(bufs[c.input[0]]) > 0
    requires Copies(bufs, bufs', c, keepFile) && (done <==> Size(bufs'[c.input[0]]) == 0)
    ensures Marked(bufs'[c.input[0]]) <==> Marked(bufs[c.input[0]])
    ensures Marked(bufs'[c.buf.value]) <==> Marked(bufs[if done then c.input[0] else c.buf.value])
    ensures !done ==> Proper(bufs'[c.input[0]])
    ensures bufs'[c.input[0]].own == bufs[c.input[0]].own && bufs'[c.buf.value].own == bufs[c.buf.value].own && !bufs[c.input[0]].own
  {
    hide Special, CopySize, CopyTo, Coherent, Marked, Blank, Data, Placed;
    FinePlaced(bufs, c);
    FineSound(bufs, c);
    NextBlank(bufs, c);
    FillPlaced(c, done);
    var src, dst := bufs[c.input[0]], bufs[c.buf.value];
    CopyFits(src, dst, keepFile);
    CopyHolds(src, dst, keepFile);
    AdvancedData(src, CopySize(src, dst));
    MarkedIff(src, bufs'[c.input[0]]);
    MarkedIff(src, bufs'[c.buf.value]);
    MarkedIff(dst, bufs'[c.buf.value]);
    HeadInput(bufs, c);
  }

  lemma HeadInput(bufs: seq<Buf>, c: Chains)
    requires Fine(bufs, c) && c.input != []
    ensures c.input[0] < |bufs| && !bufs[c.input[0]].own
  {
    assert Fits(bufs[c.input[0]], Input);
  }

  // A copy leaves no mark behind while there is more to come.
  lemma CopyUnmarked(bufs: seq<Buf>, bufs': seq<Buf>, c: Chains, keepFile: bool, done: bool)
    requires Fine(bufs, c) && c.input != [] && c.buf.Some? && Size(bufs[c.input[0]]) > 0 && Unmarked(bufs, c)
    requires Copies(bufs, bufs', c, keepFile) && (done <==> Size(bufs'[c.input[0]]) == 0)
    ensures c.input[0] < |c.at| && c.buf.value < |c.at| && !Marked(bufs[c.buf.value])
    ensures !done || !Marked(bufs[c.input[0]]) ==> Unmarked(bufs', Filled(c, done))
  {
    hide Coherent, Marked, Blank, Placed, Size, Special, CopyTo, CopySize;
    FinePlaced(bufs, c);
    FillPlaced(c, done);
    CopyMarked(bufs, bufs', c, keepFile, done);
    assert c.at[c.buf.value] == Next by { NextThere(c); }
  }

  lemma NextThere(c: Chains)
    requires Placed(c) && c.buf.Some?
    ensures c.buf.value < |c.at| && c.at[c.buf.value] == Next
  {
  }

  lemma MarkedIff(b: Buf, b': Buf)
    ensures Marks(b') == Marks(b) ==> (Marked(b') <==> Marked(b))
  {
  }

  // Steps that leave the incoming buffers and all marks as they are.
  lemma CalmSame(bufs: seq<Buf>, bufs': seq<Buf>, c: Chains, c': Chains, m: Mode, strict: bool)
    requires Fine(bufs, c) && Calm(bufs, c, m, strict) && c'.input == c.input && |bufs| <= |bufs'| && |c'.at| == |bufs'|
    requires forall i :: 0 <= i < |bufs| ==> SameMarks(bufs[i], bufs'[i]) && (c'.at[i] == Next ==> c.at[i] in {Next, Free})
    requires forall i :: 0 <= i < |bufs| && i in c.input ==> PassedOn(bufs[i], bufs'[i])
    requires forall i :: |bufs| <= i < |bufs'| ==> !Marked(bufs'[i])
    ensures Calm(bufs', c', m, strict)
  {
    hide AsIs, Special, Coherent, Size, PassedOn, Blank;
    forall i | 0 <= i < |c.input| ensures c.input[i] < |bufs| && c.input[i] in c.input {}
    forall i | 0 <= i < |bufs| && i in c.input ensures AsIs(bufs'[i], m) == AsIs(bufs[i], m) && Proper(bufs'[i]) == Proper(bufs[i]) {
      PassedAsIs(bufs[i], bufs'[i], m);
    }
    forall i | 0 <= i < |bufs| && c.at[i] == Free ensures bufs[i].own {
      assert Fits(bufs[i], c.at[i]);
    }
  }

  ghost predicate SameMarks(b: Buf, b': Buf) { b'.own == b.own && (Marked(b') <==> Marked(b)) }

  lemma PassedAsIs(b: Buf, b': Buf, m: Mode)
    requires PassedOn(b, b')
    ensures AsIs(b', m) == AsIs(b, m) && Proper(b') == Proper(b)
  {
  }

  // ----- buffers come in

  // The places of new buffers, before they are in the chain.
  function Claimed(at: seq<Place>, arg: seq<nat>): seq<Place> {
    seq(|at|, i requires 0 <= i < |at| => if i in arg then Input else at[i])
  }

  // Buffers of the caller's: not held anywhere, in order, and not copy buffers.
  ghost predicate Given(bufs: seq<Buf>, c: Chains, arg: seq<nat>) {
    && |bufs| == |c.at| && NoDup(arg) && Sound(bufs, arg)
    && forall k :: 0 <= k < |arg| ==> c.at[arg[k]] == Gone && !bufs[arg[k]].own && arg[k] !in c.pending
  }

  lemma ClaimStep(bufs: seq<Buf>, c: Chains, arg: seq<nat>)
    requires Fine(bufs, c) && Given(bufs, c, arg)
    ensures var c' := c.(at := Claimed(c.at, arg));
      Unmoved(bufs, c, bufs, c') && AllAt(arg, c'.at, Input) && NoDup(c.input + arg)
  {
    hide Coherent, Size, Flow, Blank, Weight;
    var c' := c.(at := Claimed(c.at, arg));
    forall i | 0 <= i < |c.at| && i in arg ensures c.at[i] == Gone {
      var k :| 0 <= k < |arg| && arg[k] == i;
    }
    forall k | 0 <= k < |c.pending| ensures c'.at[c.pending[k]] in {Busy, Gone} {
      assert c.pending[k] in c.pending;
    }
    forall k | 0 <= k < |arg| ensures arg[k] in arg && c'.at[arg[k]] == Input {}
  }

  lemma AddStep(bufs: seq<Buf>, c: Chains, arg: seq<nat>, marks: bool)
    requires Fine(bufs, c) && AllAt(arg, c.at, Input) && NoDup(c.input + arg) && Sound(bufs, arg)
    ensures var c' := c.(input := c.input + arg);
      && Fine(bufs, c') && Sent(bufs, c', marks) == Sent(bufs, c, marks) && Left(bufs, c', marks) == Left(bufs, c, marks) + Flow(bufs, arg, marks)
      && (BytesNext(bufs, c) ==> BytesNext(bufs, c'))
  {
    hide Coherent, Size, Flow, Blank, Fits, Loaded;
    FineSound(bufs, c);
    AddPlaced(c, arg);
    FlowJoin(bufs, c.input, arg, marks);
  }

  lemma AddPlaced(c: Chains, arg: seq<nat>)
    requires Placed(c) && AllAt(arg, c.at, Input) && NoDup(c.input + arg)
    ensures Placed(c.(input := c.input + arg))
  {
    var d := c.input + arg;
    forall k | 0 <= k < |d| ensures d[k] < |c.at| && c.at[d[k]] == Input {
      assert d[k] == if k < |c.input| then c.input[k] else arg[k - |c.input|];
    }
  }

  // Clearing in_file changes nothing in the stream.
  lemma {:induction false} PassedFlow(bufs: seq<Buf>, bufs': seq<Buf>, c: seq<nat>, marks: bool)
    requires Sound(bufs, c) && |bufs'| == |bufs| && forall j :: 0 <= j < |bufs| ==> PassedOn(bufs[j], bufs'[j])
    ensures Sound(bufs', c) && Flow(bufs', c, marks) == Flow(bufs, c, marks) && Weight(bufs', c) == Weight(bufs, c)
  {
    if c != [] {
      PassedFlow(bufs, bufs', c[1..], marks);
      PassedTokens(bufs[c[0]], bufs'[c[0]]);
    }
  }

  lemma PassedTokens(b: Buf, b': Buf)
    requires Coherent(b) && PassedOn(b, b')
    ensures Coherent(b') && Data(b') == Data(b) && Marks(b') == Marks(b) && Size(b') == Size(b)
    ensures b'.own == b.own && b'.temporary == b.temporary && |b'.mem| == |b.mem| && (Blank(b) ==> Blank(b'))
  {
  }

  lemma ClearStep(bufs: seq<Buf>, bufs': seq<Buf>, c: Chains)
    requires Fine(bufs, c) && |bufs'| == |bufs| && forall j :: 0 <= j < |bufs| ==> PassedOn(bufs[j], bufs'[j])
    ensures Unmoved(bufs, c, bufs', c)
  {
    hide Placed, Coherent, Flow, PassedOn, Blank, Size, Weight;
    forall i | 0 <= i < |bufs| ensures Fits(bufs'[i], c.at[i]) {
      PassedTokens(bufs[i], bufs'[i]);
    }
    forall k | 0 <= k < |c.pending| ensures Loaded(bufs'[c.pending[k]]) {
      assert Fits(bufs[c.pending[k]], c.at[c.pending[k]]);
      PassedTokens(bufs[c.pending[k]], bufs'[c.pending[k]]);
    }
    FineSound(bufs, c);
    if c.input != [] { PassedTokens(bufs[c.input[0]], bufs'[c.input[0]]); }
    ClearFlows(bufs, bufs', c, false);
    ClearFlows(bufs, bufs', c, true);
  }

  lemma ClearFlows(bufs: seq<Buf>, bufs': seq<Buf>, c: Chains, marks: bool)
    requires Sound(bufs, c.pending) && Sound(bufs, c.out) && Sound(bufs, c.input)
    requires |bufs'| == |bufs| && forall j :: 0 <= j < |bufs| ==> PassedOn(bufs[j], bufs'[j])
    ensures Sound(bufs', c.pending) && Sound(bufs', c.out) && Sound(bufs', c.input)
    ensures Flow(bufs', c.pending, marks) == Flow(bufs, c.pending, marks) && Flow(bufs', c.out, marks) == Flow(bufs, c.out, marks)
    ensures Flow(bufs', c.input, marks) == Flow(bufs, c.input, marks) && Weight(bufs', c.input) == Weight(bufs, c.input)
  {
    PassedFlow(bufs, bufs', c.pending, marks);
    PassedFlow(bufs, bufs', c.out, marks);
    PassedFlow(bufs, bufs', c.input, marks);
  }

  lemma FineIds(bufs: seq<Buf>, c: Chains)
    requires Fine(bufs, c)
    ensures |c.at| == |bufs|
    ensures c.input != [] ==> c.input[0] < |bufs| && Coherent(bufs[c.input[0]])
    ensures c.busy != [] ==> c.busy[0] < |bufs|
    ensures c.buf.Some? ==> c.buf.value < |bufs|
  {
  }

  lemma CopiesIds(bufs: seq<Buf>, bufs': seq<Buf>, c: Chains, keepFile: bool)
    requires Fine(bufs, c) && c.input != [] && c.buf.Some? && Copies(bufs, bufs', c, keepFile)
    ensures |bufs'| == |bufs| && c.input[0] != c.buf.value && c.input[0] < |bufs'|
  {
  }

  lemma FilledIs(c: Chains, done: bool)
    requires c.input != [] && c.input[0] < |c.at| && c.buf.Some? && c.buf.value < |c.at|
    ensures Filled(c, done) == c.(out := c.out + [c.buf.value], buf := None, input := if done then c.input[1..] else c.input,
                                  at := if done then c.at[c.buf.value := Out][c.input[0] := Gone] else c.at[c.buf.value := Out])
  {
  }

  lemma FilterSound(bufs: seq<Buf>, c: Chains)
    requires Fine(bufs, c)
    ensures Sound(bufs, c.pending + c.out) && NoDup(c.pending + c.out)
  {
    FilterChain(c);
    FineSound(bufs, c);
    forall k | 0 <= k < |c.pending + c.out| ensures (c.pending + c.out)[k] < |bufs| && Coherent(bufs[(c.pending + c.out)[k]]) {
      LoadedIn(bufs, c, k);
      assert Fits(bufs[(c.pending + c.out)[k]], c.at[(c.pending + c.out)[k]]);
    }
  }

  lemma PassedIs(c: Chains, rest: seq<nat>)
    ensures Passed(c, rest) == c.(pending := rest, busy := c.busy + c.out, out := [], at := Shifted(c.at, c.out))
  {
  }

  lemma OwnSame(bufs: seq<Buf>, bufs': seq<Buf>, c: seq<nat>)
    requires ConsumedIn(bufs, bufs', c)
    ensures |bufs'| == |bufs| && forall i :: 0 <= i < |bufs| ==> bufs'[i].own == bufs[i].own
  {
  }
}
