// Where the copy buffers of an output chain are: none gets out of sight, and a
// busy one with bytes is with the filter.
module Homes {
  import opened Bufs
  import opened Chains
  import opened Options

  predicate Home(c: Chains, i: nat) {
    i < |c.at| && match c.at[i]
      case Out => i in c.out
      case Busy => i in c.busy
      case Free => i in c.free
      case Next => c.buf == Some(i)
      case _ => false
  }

  predicate Waits(b: Buf, c: Chains, i: nat) {
    i < |c.at| && c.at[i] == Busy && Size(b) > 0 ==> i in c.pending
  }

  ghost predicate Homed(bufs: seq<Buf>, c: Chains, made: nat) {
    && (forall i :: 0 <= i < |bufs| && bufs[i].own ==> Home(c, i) && Waits(bufs[i], c, i))
    && (made > 0 ==> exists i :: 0 <= i < |bufs| && bufs[i].own)
  }

  // With no copy buffer free or on its way, the busy ones are all there are.
  lemma BusyOnes(bufs: seq<Buf>, c: Chains, made: nat)
    requires Homed(bufs, c, made) && made > 0 && c.free == [] && c.out == [] && c.buf.None?
    ensures c.busy != []
  {
    var i :| 0 <= i < |bufs| && bufs[i].own;
    assert Home(c, i);
  }

  // A busy copy buffer with bytes is with the filter.
  lemma WithFilter(bufs: seq<Buf>, c: Chains, made: nat)
    requires Homed(bufs, c, made) && Fine(bufs, c) && c.pending == [] && c.busy != [] && c.busy[0] < |bufs| && bufs[c.busy[0]].own
    ensures Size(bufs[c.busy[0]]) == 0
  {
    assert Home(c, c.busy[0]) && Waits(bufs[c.busy[0]], c, c.busy[0]);
    assert Coherent(bufs[c.busy[0]]) by { FineSound(bufs, c); }
  }

  // A change of other buffers, and of places of other buffers.
  lemma HomedSame(bufs: seq<Buf>, bufs': seq<Buf>, c: Chains, c': Chains, made: nat)
    requires Homed(bufs, c, made) && |bufs| <= |bufs'|
    requires forall i :: 0 <= i < |bufs| ==> bufs'[i].own == bufs[i].own
    requires forall i :: 0 <= i < |bufs| && bufs[i].own && Home(c, i) && Waits(bufs[i], c, i) ==> Home(c', i) && Waits(bufs'[i], c', i)
    requires forall i :: |bufs| <= i < |bufs'| ==> !bufs'[i].own
    ensures Homed(bufs', c', made)
  {
    if made > 0 {
      var i :| 0 <= i < |bufs| && bufs[i].own;
      assert bufs'[i].own;
    }
  }

  lemma HomedDrop(bufs: seq<Buf>, c: Chains, made: nat)
    requires Fine(bufs, c) && Homed(bufs, c, made) && c.input != []
    ensures c.input[0] < |c.at| && Homed(bufs, Dropped(c), made) && Homed(bufs, Moved(c), made)
  {
    hide Homed, Coherent, Size;
    HeadInput(bufs, c);
    HomedSame(bufs, bufs, c, Dropped(c), made);
    HomedSame(bufs, bufs, c, Moved(c), made);
  }

  lemma HomedPassed(bufs: seq<Buf>, bufs': seq<Buf>, c: Chains, made: nat)
    requires Fine(bufs, c) && Homed(bufs, c, made)
    requires |bufs'| == |bufs| && forall j :: 0 <= j < |bufs| ==> PassedOn(bufs[j], bufs'[j])
    ensures Homed(bufs', c, made)
  {
    hide Homed, Placed, Coherent;
    forall j | 0 <= j < |bufs| ensures bufs'[j].own == bufs[j].own && Size(bufs'[j]) == Size(bufs[j]) {
      assert Fits(bufs[j], c.at[j]);
      PassedTokens(bufs[j], bufs'[j]);
    }
    HomedSame(bufs, bufs', c, c, made);
  }

  lemma HomedFromFree(bufs: seq<Buf>, c: Chains, made: nat)
    requires Fine(bufs, c) && Homed(bufs, c, made) && c.free != [] && c.buf.None?
    ensures c.free[0] < |c.at| && Homed(bufs, FromFree(c), made)
  {
    hide Homed, Held, Size;
    HomedSame(bufs, bufs, c, FromFree(c), made);
  }

  lemma HomedNew(bufs: seq<Buf>, b: Buf, c: Chains, made: nat)
    requires Fine(bufs, c) && Homed(bufs, c, made) && c.buf.None?
    ensures Homed(bufs + [b], WithNew(c), if b.own then made + 1 else made)
  {
    hide Held, Size;
    var bufs', c' := bufs + [b], WithNew(c);
    assert bufs'[|bufs|] == b && |c.at| == |bufs| by { FineIds(bufs, c); }
    forall i | 0 <= i < |bufs| && bufs[i].own ensures Home(c', i) && Waits(bufs'[i], c', i) {
      assert Home(c, i) && Waits(bufs[i], c, i);
    }
    if made > 0 {
      var i :| 0 <= i < |bufs| && bufs[i].own;
      assert bufs'[i].own;
    }
  }

  lemma HomedCopy(bufs: seq<Buf>, bufs': seq<Buf>, c: Chains, keepFile: bool, done: bool, made: nat)
    requires Fine(bufs, c) && Homed(bufs, c, made) && c.input != [] && c.buf.Some? && Copies(bufs, bufs', c, keepFile)
    requires c.input[0] < |bufs| && Size(bufs[c.input[0]]) > 0
    ensures c.input[0] < |c.at| && c.buf.value < |c.at| && Homed(bufs', Filled(c, done), made)
  {
    hide Homed, Held, Size, Coherent, CopyTo, Advanced, CopySize, Blank;
    FinePlaced(bufs, c);
    FineSound(bufs, c);
    FillPlaced(c, done);
    NextBlank(bufs, c);
    CopyFits(bufs[c.input[0]], bufs[c.buf.value], keepFile);
    CopyHolds(bufs[c.input[0]], bufs[c.buf.value], keepFile);
    HeadInput(bufs, c);
    HomedSame(bufs, bufs', c, Filled(c, done), made);
  }

  // What the filter lets go of it has taken all of.
  lemma HomedFilter(bufs: seq<Buf>, bufs': seq<Buf>, c: Chains, rest: seq<nat>, made: nat)
    requires Fine(bufs, c) && Homed(bufs, c, made) && ConsumedIn(bufs, bufs', c.pending + c.out)
    requires |rest| <= |c.pending + c.out| && rest == (c.pending + c.out)[|c.pending + c.out| - |rest|..]
    requires forall k :: 0 <= k < |c.pending + c.out| - |rest| && (c.pending + c.out)[k] < |bufs| ==> AllTaken(bufs[(c.pending + c.out)[k]], bufs'[(c.pending + c.out)[k]])
    ensures Homed(bufs', Passed(c, rest), made)
  {
    hide Homed, Size, Coherent, Consumed, Special;
    var d, c' := c.pending + c.out, Passed(c, rest);
    forall i | 0 <= i < |bufs| ensures bufs'[i].own == bufs[i].own {
      OwnKept(bufs[i], bufs'[i]);
    }
    forall i | 0 <= i < |bufs| && bufs[i].own && Home(c, i) && Waits(bufs[i], c, i) ensures Home(c', i) && Waits(bufs'[i], c', i) {
      if c.at[i] in {Busy, Out} && Size(bufs'[i]) > 0 {
        assert Fits(bufs[i], c.at[i]);
        StillThere(bufs[i], bufs'[i]);
        assert i in d;
        var k :| 0 <= k < |d| && d[k] == i;
        assert k >= |d| - |rest|;
        assert rest[k - (|d| - |rest|)] == i;
      }
    }
    HomedSame(bufs, bufs', c, c', made);
  }

  lemma StillThere(b: Buf, b': Buf)
    requires Consumed(b, b') && Coherent(b) && Room(b) && b.own && Size(b') > 0
    ensures Size(b) > 0 && !AllTaken(b, b')
  {
  }

  lemma HomedReturned(bufs: seq<Buf>, c: Chains, made: nat)
    requires Fine(bufs, c) && Homed(bufs, c, made) && c.busy != [] && c.busy[0] < |bufs| && !bufs[c.busy[0]].own
    ensures c.busy[0] < |c.at| && Homed(bufs, Returned(c), made)
  {
    hide Homed, Held, Size;
    HomedSame(bufs, bufs, c, Returned(c), made);
  }

  lemma HomedFreed(bufs: seq<Buf>, c: Chains, made: nat)
    requires Fine(bufs, c) && Homed(bufs, c, made) && c.busy != [] && c.busy[0] < |bufs|
    ensures c.busy[0] < |c.at| && Homed(bufs[c.busy[0] := Reset(bufs[c.busy[0]])], Freed(c), made)
  {
    hide Homed, Held, Size;
    HomedSame(bufs, bufs[c.busy[0] := Reset(bufs[c.busy[0]])], c, Freed(c), made);
  }

  lemma HomedClaimed(bufs: seq<Buf>, c: Chains, arg: seq<nat>, made: nat)
    requires Homed(bufs, c, made) && Given(bufs, c, arg)
    ensures Homed(bufs, c.(at := Claimed(c.at, arg)), made)
  {
    hide Homed, Size, Sound;
    HomedSame(bufs, bufs, c, c.(at := Claimed(c.at, arg)), made);
  }

  lemma HomedInput(bufs: seq<Buf>, c: Chains, arg: seq<nat>, made: nat)
    requires Homed(bufs, c, made)
    ensures Homed(bufs, c.(input := c.input + arg), made)
  {
    hide Homed, Size;
    HomedSame(bufs, bufs, c, c.(input := c.input + arg), made);
  }

  // Buffers of a chain that have as many bytes as they had.
  ghost predicate SameOnes(chain: seq<nat>, bufs: seq<Buf>, bufs': seq<Buf>) {
    && |bufs| <= |bufs'|
    && forall k :: 0 <= k < |chain| && chain[k] < |bufs| ==> bufs'[chain[k]].own == bufs[chain[k]].own && Size(bufs'[chain[k]]) == Size(bufs[chain[k]])
  }

  lemma SameAll(chain: seq<nat>, bufs: seq<Buf>)
    ensures SameOnes(chain, bufs, bufs)
  {
  }

  lemma SameStill(chain: seq<nat>, bufs: seq<Buf>, bufs': seq<Buf>, bufs'': seq<Buf>)
    requires SameOnes(chain, bufs, bufs') && SameOnes(chain, bufs', bufs'')
    ensures SameOnes(chain, bufs, bufs'')
  {
  }

  lemma SamePassed(bufs: seq<Buf>, bufs': seq<Buf>, c: Chains)
    requires Fine(bufs, c) && |bufs'| == |bufs| && forall j :: 0 <= j < |bufs| ==> PassedOn(bufs[j], bufs'[j])
    ensures SameOnes(c.busy, bufs, bufs')
  {
    hide Placed, Coherent;
    forall j | 0 <= j < |bufs| ensures bufs'[j].own == bufs[j].own && Size(bufs'[j]) == Size(bufs[j]) {
      assert Fits(bufs[j], c.at[j]);
      PassedTokens(bufs[j], bufs'[j]);
    }
  }
}
