// The streams of bytes and of bytes with marks through an output chain, kept by
// every step.
module Streams {
  import opened Bufs
  import opened Marking
  import opened Chains

  // What the filter took, without and with marks; the marked stream that was
  // due by now; and how often a mark strayed or was lost.
  datatype Record = Record(plain: seq<Token>, marked: seq<Token>, due: seq<Token>, faults: nat)

  // p is all that ever came in, m the same with its marks.
  ghost predicate Going(bufs: seq<Buf>, c: Chains, r: Record, p: seq<Token>, m: seq<Token>) {
    && Fine(bufs, c)
    && r.plain + Sent(bufs, c, false) + Left(bufs, c, false) == p
    && r.due + Left(bufs, c, true) == m
    && Faulty(r.marked + Sent(bufs, c, true), r.due, r.faults, BytesNext(bufs, c))
  }

  lemma GoingFine(bufs: seq<Buf>, c: Chains, r: Record, p: seq<Token>, m: seq<Token>)
    requires Going(bufs, c, r, p, m)
    ensures Fine(bufs, c)
  {
  }

  // What is with the filter or on its way, with marks, is what came in exactly
  // if there was no fault.
  lemma FaithfulIff(bufs: seq<Buf>, c: Chains, r: Record, p: seq<Token>, m: seq<Token>)
    requires Going(bufs, c, r, p, m)
    ensures r.marked + Sent(bufs, c, true) + Left(bufs, c, true) == m <==> r.faults == 0
  {
    SameIffNoFault(r.marked + Sent(bufs, c, true), r.due, Left(bufs, c, true), r.faults, BytesNext(bufs, c));
  }

  lemma GoingUnmoved(bufs: seq<Buf>, c: Chains, bufs': seq<Buf>, c': Chains, r: Record, p: seq<Token>, m: seq<Token>)
    requires Going(bufs, c, r, p, m) && Unmoved(bufs, c, bufs', c')
    ensures Going(bufs', c', r, p, m)
  {
  }

  lemma Move(a: seq<Token>, b: seq<Token>, t: seq<Token>, d: seq<Token>)
    ensures a + (b + t) + d == a + b + (t + d) && a + (b + t) == a + b + t && (a + t) + d == a + (t + d)
  {
  }

  function Dropping(r: Record, b: Buf): Record {
    r.(due := r.due + Marks(b), faults := r.faults + if Marked(b) then 1 else 0)
  }

  lemma GoingDrop(bufs: seq<Buf>, c: Chains, r: Record, p: seq<Token>, m: seq<Token>)
    requires Going(bufs, c, r, p, m) && c.input != [] && c.input[0] < |bufs| && Size(bufs[c.input[0]]) == 0
    ensures c.input[0] < |c.at| && Going(bufs, Dropped(c), Dropping(r, bufs[c.input[0]]), p, m)
    ensures Load(bufs, Dropped(c)) < Load(bufs, c)
  {
    hide Fine, Sent, Left, Load, Faulty, Size;
    FineIds(bufs, c);
    DropStep(bufs, c, false);
    DropStep(bufs, c, true);
    var b, went := bufs[c.input[0]], r.marked + Sent(bufs, c, true);
    Move(r.due, [], Marks(b), Left(bufs, Dropped(c), true));
    assert [] + Left(bufs, Dropped(c), false) == Left(bufs, Dropped(c), false);
    if Marked(b) {
      Loses(went, r.due, Marks(b)[0], r.faults);
      NowFaulty(went, r.due + Marks(b), r.faults + 1, BytesNext(bufs, Dropped(c)));
    } else {
      assert r.due + Marks(b) == r.due;
      NowFaulty(went, r.due, r.faults, BytesNext(bufs, Dropped(c)));
    }
  }

  lemma NowFaulty(went: seq<Token>, due: seq<Token>, n: nat, byteNext: bool)
    requires Faulty(went, due, n, false)
    ensures Faulty(went, due, n, byteNext)
  {
  }

  function Passing(r: Record, b: Buf): Record
    requires Coherent(b)
  {
    r.(due := r.due + Tokens(b, true))
  }

  lemma GoingPass(bufs: seq<Buf>, c: Chains, r: Record, p: seq<Token>, m: seq<Token>)
    requires Going(bufs, c, r, p, m) && c.input != []
    ensures c.input[0] < |bufs| && c.input[0] < |c.at| && Coherent(bufs[c.input[0]])
    ensures Going(bufs, Moved(c), Passing(r, bufs[c.input[0]]), p, m) && Load(bufs, Moved(c)) < Load(bufs, c)
  {
    hide Fine, Sent, Left, Load, Faulty, Tokens, Coherent, Whole;
    FineIds(bufs, c);
    PassStep(bufs, c, false);
    PassStep(bufs, c, true);
    var b, c' := bufs[c.input[0]], Moved(c);
    Move(r.plain, Sent(bufs, c, false), Tokens(b, false), Left(bufs, c', false));
    Move(r.marked, Sent(bufs, c, true), Tokens(b, true), []);
    Move(r.due, [], Tokens(b, true), Left(bufs, c', true));
    TokensWhole(b);
    BothGo(r.marked + Sent(bufs, c, true), r.due, Tokens(b, true), r.faults, BytesNext(bufs, c), BytesNext(bufs, c'));
  }

  lemma TokensWhole(b: Buf)
    requires Coherent(b)
    ensures Whole(Tokens(b, true)) && (Size(b) > 0 ==> Tokens(b, true) != [] && Tokens(b, true)[0].Byte?)
  {
  }

  // A copy of n bytes, all there are if done.
  function Copying(r: Record, src: Buf, dst: Buf, n: nat, done: bool): Record
    requires Coherent(src) && n <= Size(src)
  {
    r.(due := r.due + (CopiedTokens(src, n) + MarksIf(src, done)), faults := r.faults + if !done && Marked(dst) then 1 else 0)
  }

  lemma GoingCopy(bufs: seq<Buf>, bufs': seq<Buf>, c: Chains, keepFile: bool, done: bool, r: Record, p: seq<Token>, m: seq<Token>)
    requires Going(bufs, c, r, p, m) && c.input != [] && c.buf.Some? && c.input[0] < |bufs| && Size(bufs[c.input[0]]) > 0
    requires Copies(bufs, bufs', c, keepFile) && (done <==> Size(bufs'[c.input[0]]) == 0)
    ensures c.input[0] < |c.at| && c.buf.value < |c.at| && Coherent(bufs[c.input[0]]) && Blank(bufs[c.buf.value])
    ensures CopySize(bufs[c.input[0]], bufs[c.buf.value]) <= Size(bufs[c.input[0]])
    ensures Going(bufs', Filled(c, done), Copying(r, bufs[c.input[0]], bufs[c.buf.value], CopySize(bufs[c.input[0]], bufs[c.buf.value]), done), p, m)
    ensures Load(bufs', Filled(c, done)) < Load(bufs, c)
  {
    hide Fine, Sent, Left, Load, Faulty, Tokens, Coherent, Blank, Size, Copies, CopySize, CopiedTokens, Whole, Filled;
    FineIds(bufs, c);
    CopyStep(bufs, bufs', c, keepFile, done, false);
    CopyStep(bufs, bufs', c, keepFile, done, true);
    var src, dst, c' := bufs[c.input[0]], bufs[c.buf.value], Filled(c, done);
    var t := CopiedTokens(src, CopySize(src, dst));
    assert t + MarksIf(src, false) == t;
    Move(r.plain, Sent(bufs, c, false), t, Left(bufs', c', false));
    Move(r.marked, Sent(bufs, c, true), t + MarksIf(if done then src else dst, true), []);
    Move(r.due, [], t + MarksIf(src, done), Left(bufs', c', true));
    if !done { StillBytes(bufs, bufs', c, keepFile); }
    CopyFaulty(r.marked + Sent(bufs, c, true), r.due, t, src, dst, done, r.faults, BytesNext(bufs, c), BytesNext(bufs', c'));
  }

  // The bytes that are left of a copied buffer come next.
  lemma StillBytes(bufs: seq<Buf>, bufs': seq<Buf>, c: Chains, keepFile: bool)
    requires Fine(bufs, c) && c.input != [] && c.buf.Some? && c.input[0] < |bufs| && Size(bufs[c.input[0]]) > 0
    requires Copies(bufs, bufs', c, keepFile) && Size(bufs'[c.input[0]]) != 0
    ensures c.input[0] < |c.at| && c.buf.value < |c.at| && BytesNext(bufs', Filled(c, false))
  {
    hide Coherent, Blank, Size, CopySize, CopyTo;
    FineIds(bufs, c);
    NextBlank(bufs, c);
    CopyFits(bufs[c.input[0]], bufs[c.buf.value], keepFile);
    AdvancedData(bufs[c.input[0]], CopySize(bufs[c.input[0]], bufs[c.buf.value]));
  }

  lemma CopyFaulty(went: seq<Token>, due: seq<Token>, t: seq<Token>, src: Buf, dst: Buf, done: bool, n: nat, byteNext: bool, byteNext': bool)
    requires Faulty(went, due, n, byteNext) && t != [] && t[0].Byte? && (!done ==> byteNext')
    ensures Faulty(went + (t + MarksIf(if done then src else dst, true)), due + (t + MarksIf(src, done)), n + if !done && Marked(dst) then 1 else 0, byteNext')
  {
    hide Faulty;
    if done {
      BothGo(went, due, t + MarksIf(src, true), n, byteNext, byteNext');
    } else {
      assert t + MarksIf(src, false) == t;
      if Marked(dst) {
        Strays(went, due, t, Marks(dst)[0], n, byteNext);
      } else {
        assert t + MarksIf(dst, true) == t;
        BothGo(went, due, t, n, byteNext, byteNext');
      }
    }
  }

  lemma GoingFilter(bufs: seq<Buf>, bufs': seq<Buf>, c: Chains, rest: seq<nat>, gone: seq<Token>, goneMarked: seq<Token>, r: Record, p: seq<Token>, m: seq<Token>)
    requires Going(bufs, c, r, p, m) && Consumes(bufs, bufs', c, rest)
    requires Flow(bufs, c.pending + c.out, false) == gone + Flow(bufs', rest, false)
    requires Flow(bufs, c.pending + c.out, true) == goneMarked + Flow(bufs', rest, true)
    ensures Going(bufs', Passed(c, rest), r.(plain := r.plain + gone, marked := r.marked + goneMarked), p, m)
    ensures Load(bufs', Passed(c, rest)) == Load(bufs, c)
  {
    hide Fine, Sent, Left, Load, Faulty, Consumes, Passed, Flow, BytesNext;
    FilterStep(bufs, bufs', c, rest, gone, false);
    FilterStep(bufs, bufs', c, rest, goneMarked, true);
    var c' := Passed(c, rest);
    Move(r.plain, [], gone, Sent(bufs', c', false));
    Move(r.marked, [], goneMarked, Sent(bufs', c', true));
  }

  lemma GoingAdd(bufs: seq<Buf>, c: Chains, arg: seq<nat>, r: Record, p: seq<Token>, m: seq<Token>)
    requires Going(bufs, c, r, p, m) && AllAt(arg, c.at, Input) && NoDup(c.input + arg) && Sound(bufs, arg)
    ensures Going(bufs, c.(input := c.input + arg), r, p + Flow(bufs, arg, false), m + Flow(bufs, arg, true))
  {
    hide Fine, Sent, Left, Faulty, Flow;
    AddStep(bufs, c, arg, false);
    AddStep(bufs, c, arg, true);
    var c' := c.(input := c.input + arg);
    Move(r.plain + Sent(bufs, c, false), [], Left(bufs, c, false), Flow(bufs, arg, false));
    Move(r.due, [], Left(bufs, c, true), Flow(bufs, arg, true));
    MoreNext(r.marked + Sent(bufs, c, true), r.due, r.faults, BytesNext(bufs, c), BytesNext(bufs, c'));
  }

  lemma MoreNext(went: seq<Token>, due: seq<Token>, n: nat, byteNext: bool, byteNext': bool)
    requires Faulty(went, due, n, byteNext) && (byteNext ==> byteNext')
    ensures Faulty(went, due, n, byteNext')
  {
  }

  // ----- a run that fails

  // A buffer of two bytes serves one flushed byte; when that is sent it is free
  // again, with the flush, and serves three bytes in two copies. A flush goes out
  // between those.
  lemma FlushStrays(one: Buf, three: Buf, empty: Buf)
    requires Coherent(one) && one.memory && Size(one) == 1 && one.flush && !one.lastBuf && !one.lastInChain
    requires Coherent(three) && three.memory && Size(three) == 3 && !Marked(three)
    requires Blank(empty) && !Marked(empty) && |empty.mem| == 2
    ensures var first := CopyTo(one, empty, false);
      && Coherent(first) && Size(first) == 1 && Blank(Served(first, 1))
      && var second := CopyTo(three, Served(first, 1), false);
      && Coherent(second) && Size(second) == 2 && Blank(Served(second, 2)) && Coherent(Advanced(three, 2))
      && var third := CopyTo(Advanced(three, 2), Served(second, 2), false);
      && Coherent(third)
      && var o, d, flush := Byte(Data(one)[0]), Bytes(Data(three)), Mark(true, false, false);
      && Tokens(one, true) + Tokens(three, true) == [o, flush, d[0], d[1], d[2]]
      && Tokens(first, true) + Tokens(second, true) + Tokens(third, true) == [o, flush, d[0], d[1], flush, d[2]]
  {
    hide CopyTo, Data, Coherent, Blank, CopySize, Advanced, Size, Reset;
    var first := CopyTo(one, empty, false);
    OneCopied(one, empty);
    ThreeCopied(three, Served(first, 1));
  }

  lemma ThreeCopied(three: Buf, dst: Buf)
    requires Coherent(three) && Size(three) == 3 && !Marked(three)
    requires Blank(dst) && |dst.mem| == 2 && Marks(dst) == [Mark(true, false, false)]
    ensures var second := CopyTo(three, dst, false);
      && Coherent(second) && Size(second) == 2 && Blank(Served(second, 2)) && Coherent(Advanced(three, 2))
      && var third := CopyTo(Advanced(three, 2), Served(second, 2), false);
      && Coherent(third)
      && var d := Bytes(Data(three));
      && Tokens(three, true) == d == [d[0], d[1], d[2]]
      && Tokens(second, true) == [d[0], d[1], Mark(true, false, false)] && Tokens(third, true) == [d[2]]
  {
    hide CopyTo, Data, Coherent, Blank, CopySize, Advanced, Size, Reset;
    var second := CopyTo(three, dst, false);
    CopyServes(three, dst);
    CopyTokens(three, dst, false, true);
    AdvancedData(three, 2);
    CopyServes(Advanced(three, 2), Served(second, 2));
    CopyTokens(Advanced(three, 2), Served(second, 2), false, true);
    assert Bytes(Data(three))[2..] == Bytes(Data(three)[2..]);
  }

  lemma OneCopied(one: Buf, empty: Buf)
    requires Coherent(one) && Size(one) == 1 && one.flush && !one.lastBuf && !one.lastInChain && Blank(empty) && |empty.mem| == 2
    ensures var first := CopyTo(one, empty, false);
      && Coherent(first) && Size(first) == 1 && Blank(Served(first, 1)) && |Served(first, 1).mem| == 2
      && Marks(Served(first, 1)) == [Mark(true, false, false)]
      && Tokens(first, true) == Tokens(one, true) == [Byte(Data(one)[0]), Mark(true, false, false)]
  {
    hide CopyTo, Data, Coherent, Blank, CopySize, Advanced, Size, Reset;
    CopyServes(one, empty);
    CopyTokens(one, empty, false, true);
  }

  // A copy buffer once all of its n bytes are sent.
  function Served(b: Buf, n: nat): Buf
    requires n == Size(b)
  {
    Reset(Advanced(b, n))
  }

  lemma CopyServes(src: Buf, dst: Buf)
    requires Coherent(src) && Blank(dst) && Size(src) > 0
    ensures var n, b := CopySize(src, dst), CopyTo(src, dst, false);
      && n == (if Size(src) < |dst.mem| then Size(src) else |dst.mem|)
      && Coherent(b) && Size(b) == n && Blank(Served(b, n)) && |Served(b, n).mem| == |dst.mem| && Marks(Served(b, n)) == Marks(b)
      && Marks(b) == Marks(if n == Size(src) then src else dst)
  {
    CopyHolds(src, dst, false);
    CopyInMemory(src, dst);
    AdvancedData(CopyTo(src, dst, false), CopySize(src, dst));
  }

  lemma CopyInMemory(src: Buf, dst: Buf)
    requires Coherent(src) && Blank(dst)
    ensures !CopyTo(src, dst, false).inFile && CopyTo(src, dst, false).temporary
  {
    hide CopySize, Data, Size, Coherent, InMemoryCopy, Blank;
    BaseInMemory(src, dst);
  }

  lemma BaseInMemory(src: Buf, dst: Buf)
    requires Coherent(src) && Blank(dst)
    ensures InMemoryCopy(src, dst).temporary && !InMemoryCopy(src, dst).inFile
  {
    hide CopySize, Data, Size, Coherent;
  }
}
