// The output chain: incoming buffers pass to a filter as they are or are
// copied, piece by piece, into a bounded number of copy buffers.
module OutputChain {
  import opened Bufs
  import opened Chains
  import opened Streams
  import opened Sole
  import opened Homes
  import opened Options

  datatype Rc = Ok | Again | Error | Done

  // What the filter does with one call: how many bytes it takes, what it says.
  datatype Act = Act(sent: nat, rc: Rc)

  // Whether a call starts in a state in which no mark can stray or be lost, and
  // how many had been by then; with a single copy buffer, how many will have
  // been when all that came in is gone.
  datatype Watch = Watch(calm: bool, strict: bool, faults: nat, total: Option<nat>)

  const Off := Watch(false, false, 0, None)

  class OutputChain {
    const bufsNum: nat
    const bufsSize: nat
    const alignment: nat
    const mode: Mode

    var bufs: seq<Buf>         // every buffer, by its index
    var input: seq<nat>        // ctx->in
    var buf: Option<nat>
    var busy: seq<nat>
    var free: seq<nat>
    var made: nat              // ctx->allocated
    var directio: bool

    var pending: seq<nat>      // what the filter keeps of the chains passed to it
    const plan: nat -> Act     // what the filter does at its first call, its second, ...
    var calls: nat             // how often it was called
    var disk: seq<bool>        // which reads of a file are going to succeed

    ghost var at: seq<Place>
    ghost var record: Record   // what the filter took, and what was due

    constructor (bufsNum: nat, bufsSize: nat, alignment: nat, mode: Mode, bufs: seq<Buf>, plan: nat -> Act, disk: seq<bool>)
      requires bufsSize > 0 && alignment > 0
      requires forall i :: 0 <= i < |bufs| ==> Coherent(bufs[i]) && !bufs[i].own
      ensures Valid() && Calm(this.bufs, Now([]), mode, true) && record == Record([], [], [], 0)
      ensures Came(false) == [] && Came(true) == []
      ensures this.bufs == bufs && this.plan == plan && calls == 0 && this.disk == disk && input == [] && pending == []
      ensures forall i :: 0 <= i < |bufs| ==> at[i] == Gone
      ensures |at| == |bufs| && (bufsNum == 1 ==> Single([]))
      ensures this.bufsNum == bufsNum && this.bufsSize == bufsSize && this.mode == mode && !directio && busy == []
    {
      hide Fine, Calm, Sent, Left, Coherent;
      this.bufsNum, this.bufsSize, this.alignment, this.mode := bufsNum, bufsSize, alignment, mode;
      this.bufs, this.plan, this.disk, calls := bufs, plan, disk, 0;
      input, buf, busy, free, made, directio, pending := [], None, [], [], 0, false, [];
      at, record := seq(|bufs|, _ => Gone), Record([], [], [], 0);
      new;
      EmptyChain(bufs, Now([]));
    }

    // Nothing is in the chain yet.
    static lemma EmptyChain(bufs: seq<Buf>, c: Chains)
      requires c == Chains([], [], [], [], [], None, seq(|bufs|, _ => Gone))
      requires forall i :: 0 <= i < |bufs| ==> Coherent(bufs[i]) && !bufs[i].own
      ensures Fine(bufs, c) && Sent(bufs, c, false) == Sent(bufs, c, true) == Left(bufs, c, false) == Left(bufs, c, true) == []
      ensures forall m, strict :: Calm(bufs, c, m, strict)
    {
      hide Coherent, Size, Blank;
    }

    ghost function Now(out: seq<nat>): Chains
      reads this
    {
      Chains(input, out, busy, free, pending, buf, at)
    }

    ghost predicate Good(out: seq<nat>)
      reads this
    {
      Fine(bufs, Now(out)) && Homed(bufs, Now(out), made) && made <= bufsNum && bufsSize > 0 && alignment > 0
    }

    // All that came in, as far as it can be told from what went out, what is on
    // its way and what is left.
    ghost function Came(marks: bool): seq<Token>
      requires Fine(bufs, Now([]))
      reads this
    {
      (if marks then record.due else record.plain + Sent(bufs, Now([]), false)) + Left(bufs, Now([]), marks)
    }

    ghost predicate Valid()
      reads this
    {
      Good([]) && Going(bufs, Now([]), record, Came(false), Came(true))
    }

    // All reads of files are going to succeed.
    static ghost predicate ReadsFine(disk: seq<bool>) { forall k :: 0 <= k < |disk| ==> disk[k] }

    // What is left after some reads, and whether the last of them failed.
    static ghost predicate Read(disk0: seq<bool>, disk: seq<bool>) { |disk| <= |disk0| && disk == disk0[|disk0| - |disk|..] }

    static ghost predicate ReadFailed(disk0: seq<bool>, disk: seq<bool>) {
      |disk| < |disk0| && !disk0[|disk0| - |disk| - 1]
    }

    static lemma ReadOn(disk0: seq<bool>, disk1: seq<bool>, disk: seq<bool>)
      requires Read(disk0, disk1) && Read(disk1, disk)
      ensures Read(disk0, disk) && (ReadFailed(disk1, disk) ==> ReadFailed(disk0, disk))
    {
    }

    static lemma ReadNone(disk: seq<bool>)
      ensures Read(disk, disk)
    {
    }

    static lemma NotFailed(disk0: seq<bool>, disk: seq<bool>)
      requires ReadFailed(disk0, disk)
      ensures !ReadsFine(disk0)
    {
    }

    // From call k on the filter takes all there is, if that is no more than n.
    ghost predicate Eager(k: nat, n: nat) { forall i: nat :: k <= i ==> plan(i).rc == Ok && plan(i).sent > n }

    // The filter was called, and this was its last answer.
    ghost predicate Said(since: nat, rc: Rc)
      reads this
    {
      calls > since && plan(calls - 1).rc == rc
    }

    // The copy buffer at the front of the busy chain has bytes that were not
    // taken.
    ghost predicate Unsent()
      reads this
    {
      busy != [] && busy[0] < |bufs| && bufs[busy[0]].own && Size(bufs[busy[0]]) > 0 && pending != []
    }

    // There is more to come, and no buffer to copy it to.
    ghost predicate Stuck()
      reads this
    {
      input != [] && made == bufsNum && free == [] && (bufsNum > 0 ==> Unsent())
    }

    // There is one copy buffer, and nothing of the chain is read around the page
    // cache.
    ghost predicate Single(chain: seq<nat>)
      reads this
    {
      bufsNum == 1 && !directio && Countable(bufs, chain, buf, made, bufsSize)
    }

    // How many marks of the chain will stray or be lost.
    ghost function Strays(chain: seq<nat>): nat
      requires Single(chain)
      reads this
    {
      Due(bufs, chain, CupOf(bufs), mode, bufsSize)
    }

    ghost predicate Counted(chain: seq<nat>, w: Watch)
      reads this
    {
      w.total.Some? ==> bufsNum == 1 && !directio && Tallied(bufs, chain, buf, made, mode, bufsSize, record.faults, w.total.value)
    }

    // The streams are p and m, and there was no fault if the call is watched.
    ghost predicate Kept(out: seq<nat>, p: seq<Token>, m: seq<Token>, w: Watch)
      reads this
    {
      && Good(out) && Going(bufs, Now(out), record, p, m)
      && (w.calm ==> Calm(bufs, Now(out), mode, w.strict) && record.faults == w.faults)
      && Counted(input, w)
    }

    // ngx_output_chain_as_is
    method CheckAsIs(i: nat) returns (r: bool)
      requires i < |bufs|
      modifies `bufs
      ensures |bufs| == |old(bufs)| && forall j :: 0 <= j < |bufs| ==> PassedOn(old(bufs)[j], bufs[j])
      ensures r == AsIs(old(bufs)[i], mode) && r == AsIs(bufs[i], mode)
    {
      var b := bufs[i];
      if Special(b) {
        return true;
      }
      var sendfile := mode.sendfile;
      if b.inFile && b.directio {
        sendfile := false;
      }
      if !sendfile {
        if !InMemory(b) {
          return false;
        }
        bufs := bufs[i := b.(inFile := false)];
      }
      if mode.needInMemory && !InMemory(b) {
        return false;
      }
      if mode.needInTemp && (b.memory || b.mmap) {
        return false;
      }
      return true;
    }

    // A private buffer for a file read around the page cache, up to the next
    // aligned position; none if an ordinary copy buffer will do.
    method AlignFileBuf(bsize: nat) returns (got: bool, ghost b: Buf)
      requires input != [] && input[0] < |bufs| && buf.None? && bsize > 0 && alignment > 0
      modifies `buf, `bufs, `directio, `at
      ensures !got ==> bufs == old(bufs) && buf == old(buf) && at == old(at)
      ensures !old(bufs)[old(input)[0]].directio ==> !got && directio == old(directio)
      ensures got ==> Blank(b) && !Marked(b) && !b.own && bufs == old(bufs) + [b] && buf == Some(|old(bufs)|) && at == old(at) + [Next]
    {
      b := bufs[input[0]];
      if !bufs[input[0]].directio {
        return false, b;
      }
      directio := true;
      var size := bufs[input[0]].filePos % alignment;
      if size == 0 {
        if bsize >= bufsSize {
          return false, b;
        }
        size := bsize;
      } else {
        size := alignment - size;
        if size > bsize {
          size := bsize;
        }
      }
      var nb := TempBuf(size, false, false);
      buf, bufs := Some(|bufs|), bufs + [nb];
      at := at + [Next];
      return true, nb;
    }

    static function TempBuf(size: nat, own: bool, recycled: bool): (b: Buf)
      requires size > 0
      ensures Blank(b) && !Marked(b) && b.own == own && |b.mem| == size
    {
      Buf(seq(size, _ => 0), 0, 0, [], 0, 0, false, false, true, false, false, false, false, false, false, recycled, own)
    }

    // ngx_output_chain_get_buf
    method GetBuf(bsize: nat) returns (ghost b: Buf)
      requires input != [] && input[0] < |bufs| && buf.None? && bsize > 0 && bufsSize > 0
      modifies `buf, `bufs, `made, `at
      ensures Blank(b) && !Marked(b) && bufs == old(bufs) + [b] && buf == Some(|old(bufs)|) && at == old(at) + [Next]
      ensures made == old(made) + 1 && b.own
      ensures !directio && bufsNum == 1 && bsize == Size(old(bufs)[input[0]]) ==> |b.mem| == CupSize(old(bufs)[input[0]], bufsSize)
    {
      var size, recycled := bufsSize, true;
      if bufs[input[0]].lastInChain {
        if bsize < size {
          size, recycled := bsize, false;
        } else if !directio && bufsNum == 1 && bsize < size + size / 4 {
          size, recycled := bsize, false;
        }
      }
      var nb := TempBuf(size, true, recycled);
      buf, bufs := Some(|bufs|), bufs + [nb];
      at := at + [Next];
      made := made + 1;
      return nb;
    }

    // A buffer without bytes and marks of its own is dropped.
    method DropHead(out: seq<nat>, ghost p: seq<Token>, ghost m: seq<Token>, ghost w: Watch)
      requires Kept(out, p, m, w) && input != []
      requires input[0] < |bufs| && Size(bufs[input[0]]) == 0 && !Special(bufs[input[0]])
      modifies `input, `at, `record
      ensures Kept(out, p, m, w) && Load(bufs, Now(out)) < old(Load(bufs, Now(out)))
    {
      hide Homed, Tallied, Fine, Going, Calm, Load, Special, Size;
      ghost var c := Now(out);
      FineIds(bufs, c);
      GoingDrop(bufs, c, record, p, m);
      HomedDrop(bufs, c, made);
      GoingFine(bufs, Dropped(c), Dropping(record, bufs[input[0]]), p, m);
      if w.calm { CalmNext(bufs, c, Dropped(c), mode, w.strict); }
      if w.total.Some? { TallyDrop(bufs, input, buf, made, mode, bufsSize, record.faults, w.total.value); }
      record := Dropping(record, bufs[input[0]]);
      at := at[input[0] := Gone];
      input := input[1..];
    }

    method PassHead(out: seq<nat>, ghost p: seq<Token>, ghost m: seq<Token>, ghost w: Watch) returns (out': seq<nat>)
      requires Kept(out, p, m, w) && input != []
      requires input[0] < |bufs| && AsIs(bufs[input[0]], mode) && (Size(bufs[input[0]]) != 0 || Special(bufs[input[0]]))
      modifies `input, `at, `record
      ensures Kept(out', p, m, w) && Load(bufs, Now(out')) < old(Load(bufs, Now(out))) && out' == out + [old(input)[0]]
    {
      hide Homed, Tallied, Fine, Going, Calm, Load, Tokens, Coherent, AsIs, Special, Size;
      ghost var c := Now(out);
      HomedDrop(bufs, c, made);
      GoingPass(bufs, c, record, p, m);
      GoingFine(bufs, Moved(c), Passing(record, bufs[input[0]]), p, m);
      if w.calm { CalmNext(bufs, c, Moved(c), mode, w.strict); }
      if w.total.Some? { TallyPass(bufs, input, buf, made, mode, bufsSize, record.faults, w.total.value); }
      record := Passing(record, bufs[input[0]]);
      out' := out + [input[0]];
      at := at[input[0] := Out];
      input := input[1..];
    }

    // The test, with what it clears.
    method TestAsIs(i: nat, out: seq<nat>, ghost p: seq<Token>, ghost m: seq<Token>, ghost w: Watch) returns (r: bool)
      requires Kept(out, p, m, w) && i < |bufs|
      modifies `bufs
      ensures Kept(out, p, m, w) && Load(bufs, Now(out)) == old(Load(bufs, Now(out)))
      ensures |bufs| == |old(bufs)| && forall j :: 0 <= j < |bufs| ==> PassedOn(old(bufs)[j], bufs[j])
      ensures r == AsIs(old(bufs)[i], mode) && r == AsIs(bufs[i], mode)
      ensures SameOnes(busy, old(bufs), bufs)
    {
      hide Homed, Tallied, Fine, Going, Calm, Load, AsIs, PassedOn, SameMarks;
      ghost var bufs0, c := bufs, Now(out);
      r := CheckAsIs(i);
      ClearStep(bufs0, bufs, c);
      HomedPassed(bufs0, bufs, c, made);
      SamePassed(bufs0, bufs, c);
      GoingUnmoved(bufs0, c, bufs, c, record, p, m);
      FineIds(bufs0, c);
      if w.calm {
        PassedMarks(bufs0, bufs);
        CalmSame(bufs0, bufs, c, c, mode, w.strict);
      }
      if w.total.Some? { TallyPassed(bufs0, bufs, input, buf, made, mode, bufsSize, record.faults, w.total.value); }
    }

    static lemma PassedMarks(bufs: seq<Buf>, bufs': seq<Buf>)
      requires |bufs'| == |bufs| && forall j :: 0 <= j < |bufs| ==> PassedOn(bufs[j], bufs'[j])
      ensures forall j :: 0 <= j < |bufs| ==> SameMarks(bufs[j], bufs'[j])
    {
    }

    method TakeFree(out: seq<nat>, ghost p: seq<Token>, ghost m: seq<Token>, ghost w: Watch)
      requires Kept(out, p, m, w) && free != [] && buf.None?
      modifies `free, `buf, `at
      ensures Kept(out, p, m, w) && Load(bufs, Now(out)) == old(Load(bufs, Now(out))) && buf.Some?
    {
      hide Homed, Tallied, Fine, Going, Calm, Load, Sent, Left;
      ghost var c := Now(out);
      FromFreeStep(bufs, c);
      HomedFromFree(bufs, c, made);
      GoingUnmoved(bufs, c, bufs, FromFree(c), record, p, m);
      FineIds(bufs, c);
      FreeThere(bufs, c);
      if w.calm {
        CalmSame(bufs, bufs, c, FromFree(c), mode, w.strict);
      }
      if w.total.Some? { TallySame(bufs, bufs, input, buf, Some(free[0]), made, mode, bufsSize, record.faults, w.total.value); }
      at := at[free[0] := Next];
      buf := Some(free[0]);
      free := free[1..];
    }

    static lemma FreeThere(bufs: seq<Buf>, c: Chains)
      requires Fine(bufs, c) && c.free != []
      ensures c.free[0] < |c.at| && |c.at| == |bufs| && c.at[c.free[0]] == Free && bufs[c.free[0]].own
    {
      assert Fits(bufs[c.free[0]], Free);
    }

    // The new buffer at the end is the next to fill.
    lemma NewKept(bufs0: seq<Buf>, b: Buf, c: Chains, out: seq<nat>, p: seq<Token>, m: seq<Token>, w: Watch)
      requires Going(bufs0, c, record, p, m) && Fine(bufs0, c) && c.buf.None? && Blank(b) && !Marked(b)
      requires bufs == bufs0 + [b] && Now(out) == WithNew(c) && made <= bufsNum && bufsSize > 0 && alignment > 0
      requires w.calm ==> Calm(bufs0, c, mode, w.strict) && record.faults == w.faults
      requires Counted(input, w) && Homed(bufs, Now(out), made)
      ensures Kept(out, p, m, w)
      ensures Load(bufs, Now(out)) == Load(bufs0, c)
    {
      hide Homed, Tallied, Fine, Going, Calm, Load, Blank, Marked, Sent, Left;
      NewStep(bufs0, b, c);
      GoingUnmoved(bufs0, c, bufs, WithNew(c), record, p, m);
      FineIds(bufs0, c);
      if w.calm { CalmSame(bufs0, bufs, c, WithNew(c), mode, w.strict); }
    }

    // A buffer to copy to, if there is or may be one.
    method NextBuf(bsize: nat, out: seq<nat>, ghost p: seq<Token>, ghost m: seq<Token>, ghost w: Watch)
      requires Kept(out, p, m, w) && input != [] && buf.None? && bsize > 0
      requires input[0] < |bufs| && bsize == Size(bufs[input[0]]) && !AsIs(bufs[input[0]], mode)
      modifies `buf, `bufs, `directio, `at, `free, `made
      ensures Kept(out, p, m, w) && Load(bufs, Now(out)) == old(Load(bufs, Now(out)))
      ensures input[0] < |old(bufs)| && input[0] < |bufs| && bufs[input[0]] == old(bufs)[input[0]]
      ensures buf.None? ==> (out != [] || made == bufsNum) && free == []
      ensures SameOnes(busy, old(bufs), bufs)
    {
      hide Homed, Tallied, Fine, Going, Calm, Load, Blank, Marked;
      ghost var bufs0, c := bufs, Now(out);
      FineIds(bufs, c);
      if w.total.Some? { NotAround(bufs, input, buf, made, mode, bufsSize, record.faults, w.total.value); }
      var got;
      ghost var b;
      got, b := AlignFileBuf(bsize);
      if got {
        HomedNew(bufs0, b, c, made);
        NewKept(bufs0, b, c, out, p, m, w);
        return;
      }
      if free != [] {
        TakeFree(out, p, m, w);
      } else if out != [] || made == bufsNum {
        return;
      } else {
        ghost var k := made;
        b := GetBuf(bsize);
        HomedNew(bufs0, b, c, k);
        if w.total.Some? { TallyNew(bufs0, b, input, mode, bufsSize, record.faults, w.total.value); }
        NewKept(bufs0, b, c, out, p, m, w);
      }
    }

    // ngx_output_chain_copy_buf
    method CopyBuf(ghost c: Chains) returns (ok: bool)
      requires input != [] && buf.Some? && Fine(bufs, c) && c.input == input && c.buf == buf && Size(bufs[input[0]]) > 0
      modifies `bufs, `disk
      ensures Read(old(disk), disk) && (!ok ==> bufs == old(bufs) && ReadFailed(old(disk), disk))
      ensures ok ==> Copies(old(bufs), bufs, c, mode.sendfile && !directio)
    {
      hide Held, Placed;
      FinePlaced(bufs, c);
      FineIds(bufs, c);
      NextBlank(bufs, c);
      FillPlaced(c, false);
      var s, d := input[0], buf.value;
      if !InMemory(bufs[s]) {
        var read := disk == [] || disk[0];
        disk := if disk == [] then [] else disk[1..];
        if !read {
          return false;
        }
      }
      var src, dst := bufs[s], bufs[d];
      bufs := bufs[s := Advanced(src, CopySize(src, dst))][d := CopyTo(src, dst, mode.sendfile && !directio)];
      return true;
    }

    // One copy: the copy buffer goes out, a used-up source is gone.
    method CopyHead(out: seq<nat>, ghost p: seq<Token>, ghost m: seq<Token>, ghost w: Watch) returns (out': seq<nat>, ok: bool)
      requires Kept(out, p, m, w) && input != [] && buf.Some?
      requires input[0] < |bufs| && Size(bufs[input[0]]) > 0 && !AsIs(bufs[input[0]], mode)
      modifies `input, `buf, `bufs, `disk, `at, `record
      ensures ok ==> Kept(out', p, m, w) && Load(bufs, Now(out')) < old(Load(bufs, Now(out))) && out' != []
      ensures Read(old(disk), disk) && (!ok ==> ReadFailed(old(disk), disk))
      ensures ok ==> SameOnes(busy, old(bufs), bufs)
    {
      hide Read, ReadFailed, SameOnes, Homed, Tallied, Fine, Going, Calm, Load, AsIs, Copies, Size, Coherent, Blank, Marked, CopySize, CopiedTokens, MarksIf, Advanced, Placed, NoDup;
      ghost var bufs0, c := bufs, Now(out);
      out' := out;
      ok := CopyBuf(c);
      if !ok {
        return;
      }
      FineIds(bufs0, c);
      CopiesIds(bufs0, bufs, c, mode.sendfile && !directio);
      var done := Size(bufs[input[0]]) == 0;
      ghost var src, dst := bufs0[input[0]], bufs0[buf.value];
      CopyKept(bufs0, bufs, c, mode.sendfile && !directio, done, made, mode, bufsSize, record, p, m, w);
      record := Copying(record, src, dst, CopySize(src, dst), done);
      FilledIs(c, done);
      at := at[buf.value := Out];
      if done {
        at := at[input[0] := Gone];
        input := input[1..];
      }
      out' := out + [buf.value];
      buf := None;
    }

    static lemma CopyApartBusy(bufs: seq<Buf>, bufs': seq<Buf>, c: Chains, keepFile: bool)
      requires Fine(bufs, c) && c.input != [] && c.buf.Some? && Copies(bufs, bufs', c, keepFile)
      ensures SameOnes(c.busy, bufs, bufs')
    {
      hide Held, CopyTo, Advanced, CopySize;
      FinePlaced(bufs, c);
      FillPlaced(c, false);
    }

    static lemma CopyKept(bufs: seq<Buf>, bufs': seq<Buf>, c: Chains, keepFile: bool, done: bool, made: nat, mode: Mode, size: nat, r: Record,
                          p: seq<Token>, m: seq<Token>, w: Watch)
      requires Going(bufs, c, r, p, m) && Fine(bufs, c)
      requires c.input != [] && c.buf.Some? && c.input[0] < |bufs| && c.buf.value < |bufs| && Size(bufs[c.input[0]]) > 0
      requires !AsIs(bufs[c.input[0]], mode) && Copies(bufs, bufs', c, keepFile) && (done <==> Size(bufs'[c.input[0]]) == 0)
      requires w.calm ==> Calm(bufs, c, mode, w.strict) && r.faults == w.faults
      requires w.total.Some? ==> Tallied(bufs, c.input, c.buf, made, mode, size, r.faults, w.total.value)
      requires Homed(bufs, c, made)
      ensures c.input[0] < |c.at| && c.buf.value < |c.at| && Homed(bufs', Filled(c, done), made)
      ensures SameOnes(c.busy, bufs, bufs')
      ensures c.input[0] < |c.at| && c.buf.value < |c.at| && Coherent(bufs[c.input[0]]) && Blank(bufs[c.buf.value])
      ensures CopySize(bufs[c.input[0]], bufs[c.buf.value]) <= Size(bufs[c.input[0]])
      ensures var r', c' := Copying(r, bufs[c.input[0]], bufs[c.buf.value], CopySize(bufs[c.input[0]], bufs[c.buf.value]), done), Filled(c, done);
        && Going(bufs', c', r', p, m) && Fine(bufs', c') && Load(bufs', c') < Load(bufs, c)
        && (w.calm ==> Calm(bufs', c', mode, w.strict) && r'.faults == w.faults)
        && (w.total.Some? ==> Tallied(bufs', c'.input, None, made, mode, size, r'.faults, w.total.value))
    {
      hide Fine, Going, Load, Calm, Tallied, Copies, AsIs, Size, Marked, Coherent, Blank, CopySize;
      FineIds(bufs, c);
      FilledIs(c, done);
      HomedCopy(bufs, bufs', c, keepFile, done, made);
      CopyApartBusy(bufs, bufs', c, keepFile);
      GoingCopy(bufs, bufs', c, keepFile, done, r, p, m);
      GoingFine(bufs', Filled(c, done), Copying(r, bufs[c.input[0]], bufs[c.buf.value], CopySize(bufs[c.input[0]], bufs[c.buf.value]), done), p, m);
      if w.calm { CalmCopy(bufs, bufs', c, mode, w.strict, keepFile, done); }
      if w.total.Some? { TallyCopy(bufs, bufs', c, keepFile, done, made, mode, size, r.faults, w.total.value); }
    }

    lemma KeptIds(out: seq<nat>, p: seq<Token>, m: seq<Token>, w: Watch)
      requires Kept(out, p, m, w)
      ensures Fine(bufs, Now(out)) && made <= bufsNum && bufsSize > 0
      ensures input != [] ==> input[0] < |bufs| && Coherent(bufs[input[0]])
    {
      hide Fine;
      FineIds(bufs, Now(out));
    }

    // The inner loop: what can go out goes out.
    method Fill(ghost p: seq<Token>, ghost m: seq<Token>, ghost w: Watch) returns (out: seq<nat>, ok: bool)
      requires Kept([], p, m, w)
      modifies `input, `buf, `bufs, `disk, `at, `free, `made, `directio, `record
      ensures made <= bufsNum && (ok ==> Kept(out, p, m, w))
      ensures ok && out != [] ==> Load(bufs, Now(out)) < old(Load(bufs, Now([])))
      ensures ok && out == [] ==> Load(bufs, Now(out)) <= old(Load(bufs, Now([]))) && (input == [] || (made == bufsNum && free == [] && buf.None?))
      ensures Read(old(disk), disk) && (!ok ==> ReadFailed(old(disk), disk))
      ensures ok ==> SameOnes(busy, old(bufs), bufs)
    {
      hide Counted, Read, ReadFailed, SameOnes, Homed, Tallied, Fine, Going, Calm, Load, AsIs, Special, PassedOn, Size;
      out, ok := [], true;
      SameAll(busy, bufs);
      ReadNone(disk);
      while input != []
        invariant Kept(out, p, m, w) && ok
        invariant Read(old(disk), disk) && SameOnes(busy, old(bufs), bufs)
        invariant Load(bufs, Now(out)) <= old(Load(bufs, Now([]))) && (out != [] ==> Load(bufs, Now(out)) < old(Load(bufs, Now([]))))
        decreases Load(bufs, Now(out))
      {
        KeptIds(out, p, m, w);
        var bsize := SizeOf(bufs[input[0]]);
        if bsize == 0 && !Special(bufs[input[0]]) {
          DropHead(out, p, m, w);
          continue;
        }
        ghost var b, bufs1 := bufs[input[0]], bufs;
        var asIs := TestAsIs(input[0], out, p, m, w);
        SameSize(b, bufs[input[0]], mode);
        SameStill(busy, old(bufs), bufs1, bufs);
        bufs1 := bufs;
        if asIs {
          out := PassHead(out, p, m, w);
          continue;
        }
        if buf == None {
          NextBuf(bsize, out, p, m, w);
          SameStill(busy, old(bufs), bufs1, bufs);
          bufs1 := bufs;
          if buf == None {
            break;
          }
        }
        ghost var disk1 := disk;
        out, ok := CopyHead(out, p, m, w);
        ReadOn(old(disk), disk1, disk);
        if !ok {
          return;
        }
        SameStill(busy, old(bufs), bufs1, bufs);
      }
    }

    static lemma SameSize(b: Buf, b': Buf, mode: Mode)
      requires Coherent(b) && PassedOn(b, b')
      ensures Size(b') == Size(b) && (Special(b') <==> Special(b)) && (Special(b) ==> AsIs(b, mode))
    {
    }

    // The chains once the filter has the outgoing buffers.
    ghost function After(out: seq<nat>): Chains
      reads this
    {
      Chains(input, [], busy + out, free, pending, buf, at)
    }

    ghost predicate KeptAfter(out: seq<nat>, p: seq<Token>, m: seq<Token>, w: Watch)
      reads this
    {
      && Fine(bufs, After(out)) && Homed(bufs, After(out), made) && Going(bufs, After(out), record, p, m) && made <= bufsNum && bufsSize > 0 && alignment > 0
      && (w.calm ==> Calm(bufs, After(out), mode, w.strict) && record.faults == w.faults)
      && Counted(input, w)
    }

    // The filter takes as many bytes as it likes of what it has.
    method OutputFilter(out: seq<nat>, ghost p: seq<Token>, ghost m: seq<Token>, ghost w: Watch) returns (rc: Rc)
      requires Kept(out, p, m, w)
      modifies `bufs, `pending, `calls, `record, `at
      ensures calls == old(calls) + 1 && rc == plan(old(calls)).rc && (plan(old(calls)).sent > |p| ==> pending == [])
      ensures KeptAfter(out, p, m, w) && Load(bufs, After(out)) == old(Load(bufs, Now(out)))
      ensures |bufs| == |old(bufs)| && forall i :: 0 <= i < |bufs| ==> bufs[i].own == old(bufs)[i].own
    {
      hide Homed, Tallied, Fine, Going, Calm, Load, Flow, Passed, ConsumedIn, Sound, Coherent, Consumed, Placed, Size, Consumes, Shifted, Left, Loaded, Room;
      ghost var bufs0, c := bufs, Now(out);
      FinePlaced(bufs, c);
      FilterSound(bufs, c);
      FineIds(bufs, c);
      var act := plan(calls);
      calls := calls + 1;
      SentSize(bufs, c, record, p, m);
      ghost var gone, goneMarked;
      bufs, pending, gone, goneMarked := UpdateSent(bufs, pending + out, act.sent);
      rc := act.rc;
      FilterKept(bufs0, bufs, c, pending, gone, goneMarked, made, mode, bufsSize, record, p, m, w);
      PassedIs(c, pending);
      OwnSame(bufs0, bufs, c.pending + c.out);
      record := record.(plain := record.plain + gone, marked := record.marked + goneMarked);
      at := Shifted(at, out);
    }

    // No more is with the filter than ever came in.
    static lemma SentSize(bufs: seq<Buf>, c: Chains, r: Record, p: seq<Token>, m: seq<Token>)
      requires Going(bufs, c, r, p, m) && Fine(bufs, c)
      ensures Sound(bufs, c.pending + c.out) && |Flow(bufs, c.pending + c.out, false)| <= |p|
    {
      hide Fine, Flow;
      FineSound(bufs, c);
      FlowJoin(bufs, c.pending, c.out, false);
    }

    static lemma FilterConsumes(bufs: seq<Buf>, bufs': seq<Buf>, c: Chains, rest: seq<nat>)
      requires ConsumedIn(bufs, bufs', c.pending + c.out) && Sound(bufs, c.pending + c.out) && Sound(bufs', rest)
      requires |rest| <= |c.pending + c.out| && rest == (c.pending + c.out)[|c.pending + c.out| - |rest|..]
      requires forall k :: 0 <= k < |rest| && Size(bufs[rest[k]]) > 0 ==> Size(bufs'[rest[k]]) > 0
      ensures Consumes(bufs, bufs', c, rest)
    {
      hide Size, Coherent, Consumed;
    }

    static lemma CalmFiltered(bufs: seq<Buf>, bufs': seq<Buf>, c: Chains, rest: seq<nat>, mode: Mode, strict: bool)
      requires Fine(bufs, c) && ConsumedIn(bufs, bufs', c.pending + c.out) && Calm(bufs, c, mode, strict)
      ensures Calm(bufs', Passed(c, rest), mode, strict)
    {
      hide Calm, Coherent, Size, Fits;
      FilterChain(c);
      InputApart(c);
      FineIds(bufs, c);
      CalmSame(bufs, bufs', c, Passed(c, rest), mode, strict);
    }

    static lemma FilterKept(bufs: seq<Buf>, bufs': seq<Buf>, c: Chains, rest: seq<nat>, gone: seq<Token>, goneMarked: seq<Token>,
                            made: nat, mode: Mode, size: nat, r: Record, p: seq<Token>, m: seq<Token>, w: Watch)
      requires Going(bufs, c, r, p, m) && Fine(bufs, c) && ConsumedIn(bufs, bufs', c.pending + c.out)
      requires Sound(bufs, c.pending + c.out) && Sound(bufs', rest)
      requires |rest| <= |c.pending + c.out| && rest == (c.pending + c.out)[|c.pending + c.out| - |rest|..]
      requires forall k :: 0 <= k < |rest| && Size(bufs[rest[k]]) > 0 ==> Size(bufs'[rest[k]]) > 0
      requires Flow(bufs, c.pending + c.out, false) == gone + Flow(bufs', rest, false)
      requires Flow(bufs, c.pending + c.out, true) == goneMarked + Flow(bufs', rest, true)
      requires w.calm ==> Calm(bufs, c, mode, w.strict)
      requires w.total.Some? ==> Tallied(bufs, c.input, c.buf, made, mode, size, r.faults, w.total.value)
      requires Homed(bufs, c, made)
      requires forall k :: 0 <= k < |c.pending + c.out| - |rest| ==> AllTaken(bufs[(c.pending + c.out)[k]], bufs'[(c.pending + c.out)[k]])
      ensures Homed(bufs', Passed(c, rest), made)
      ensures Going(bufs', Passed(c, rest), r.(plain := r.plain + gone, marked := r.marked + goneMarked), p, m)
      ensures Fine(bufs', Passed(c, rest)) && Load(bufs', Passed(c, rest)) == Load(bufs, c)
      ensures w.calm ==> Calm(bufs', Passed(c, rest), mode, w.strict)
      ensures w.total.Some? ==> Tallied(bufs', c.input, c.buf, made, mode, size, r.faults, w.total.value)
    {
      hide Fine, Going, Calm, Tallied, ConsumedIn, Passed, Size, Load, Flow, Sound, Consumes;
      FilterConsumes(bufs, bufs', c, rest);
      HomedFilter(bufs, bufs', c, rest, made);
      GoingFilter(bufs, bufs', c, rest, gone, goneMarked, r, p, m);
      GoingFine(bufs', Passed(c, rest), r.(plain := r.plain + gone, marked := r.marked + goneMarked), p, m);
      if w.calm { CalmFiltered(bufs, bufs', c, rest, mode, w.strict); }
      if w.total.Some? { TallyFiltered(bufs, bufs', c, made, mode, size, r.faults, w.total.value); }
    }

    static lemma InputApart(c: Chains)
      requires Placed(c)
      ensures forall i :: i in c.input ==> i !in c.pending + c.out
    {
    }

    // ngx_chain_update_chains: all sent copy buffers at the front are free.
    method UpdateChains(out: seq<nat>, ghost p: seq<Token>, ghost m: seq<Token>, ghost w: Watch)
      requires KeptAfter(out, p, m, w)
      modifies `busy, `free, `bufs, `at
      ensures Kept([], p, m, w)
      ensures Load(bufs, Now([])) == old(Load(bufs, After(out))) && (busy == [] || Unsent())
    {
      hide Homed, Tallied, Fine, Going, Calm, Load, Size;
      busy := busy + out;
      while busy != []
        invariant Kept([], p, m, w)
        invariant Load(bufs, Now([])) == old(Load(bufs, After(out)))
        decreases |busy|
      {
        var stop := BackOne(p, m, w);
        if stop {
          return;
        }
      }
    }

    // The buffer at the front of the busy chain.
    method BackOne(ghost p: seq<Token>, ghost m: seq<Token>, ghost w: Watch) returns (stop: bool)
      requires Kept([], p, m, w) && busy != []
      modifies `busy, `free, `bufs, `at
      ensures Kept([], p, m, w) && Load(bufs, Now([])) == old(Load(bufs, Now([]))) && (!stop ==> |busy| < |old(busy)|)
      ensures stop ==> busy == old(busy) && Unsent()
    {
      hide Homed, Tallied, Fine, Going, Calm, Load, Sent, Left, Size, Reset, Coherent, Held, AllAt;
      ghost var c := Now([]);
      FineIds(bufs, c);
      stop := false;
      var i := busy[0];
      if !bufs[i].own {
        ReturnStep(bufs, c);
        HomedReturned(bufs, c, made);
        GoingUnmoved(bufs, c, bufs, Returned(c), record, p, m);
        if w.calm { CalmSame(bufs, bufs, c, Returned(c), mode, w.strict); }
        at := at[i := Gone];
        busy := busy[1..];
      } else if Size(bufs[i]) != 0 {
        stop := true;
        Loadful(bufs, c, made);
      } else {
        FreeStep(bufs, c);
        HomedFreed(bufs, c, made);
        GoingUnmoved(bufs, c, bufs[i := Reset(bufs[i])], Freed(c), record, p, m);
        if w.calm { CalmFreed(bufs, c, mode, w.strict); }
        if w.total.Some? { TallyFreed(bufs, c, made, mode, bufsSize, record.faults, w.total.value); }
        at := at[i := Free];
        bufs := bufs[i := Reset(bufs[i])];
        busy := busy[1..];
        free := [i] + free;
      }
    }

    static lemma Loadful(bufs: seq<Buf>, c: Chains, made: nat)
      requires Fine(bufs, c) && Homed(bufs, c, made) && c.busy != [] && c.busy[0] < |bufs| && bufs[c.busy[0]].own && Size(bufs[c.busy[0]]) != 0
      ensures Size(bufs[c.busy[0]]) > 0 && c.pending != []
    {
      hide Homed;
      FineSound(bufs, c);
      if c.pending == [] { WithFilter(bufs, c, made); }
    }

    static lemma CalmFreed(bufs: seq<Buf>, c: Chains, mode: Mode, strict: bool)
      requires Fine(bufs, c) && Calm(bufs, c, mode, strict) && c.busy != [] && c.busy[0] < |bufs| && bufs[c.busy[0]].own && Size(bufs[c.busy[0]]) == 0
      ensures c.busy[0] < |c.at| && Calm(bufs[c.busy[0] := Reset(bufs[c.busy[0]])], Freed(c), mode, strict)
    {
      hide Calm, Coherent, Size;
      FreedPlaced(bufs, c);
      FineIds(bufs, c);
      CalmSame(bufs, bufs[c.busy[0] := Reset(bufs[c.busy[0]])], c, Freed(c), mode, strict);
    }

    // One buffer that needs no copy goes straight to the filter.
    method Straight(a: nat, ghost p: seq<Token>, ghost m: seq<Token>, ghost w: Watch) returns (rc: Rc)
      requires Kept([], p, m, Off) && input == [] && busy == []
      requires AllAt([a], at, Input) && a < |bufs| && Coherent(bufs[a]) && !bufs[a].own
      requires w.calm ==> Calm(bufs, Now([]).(input := [a]), mode, w.strict) && record.faults == w.faults
      requires Counted(input, w)
      modifies `bufs, `pending, `calls, `record, `at
      ensures Sound(old(bufs), [a])
      ensures calls == old(calls) + 1 && rc == plan(old(calls)).rc && (plan(old(calls)).sent > |p + Flow(old(bufs), [a], false)| ==> pending == [])
      ensures Kept([], p + Flow(old(bufs), [a], false), m + Flow(old(bufs), [a], true), w)
    {
      hide Homed, Tallied, Fine, Going, Calm, Load, Flow, Coherent, Tokens, Sent, Left, Unmoved, NoDup, Special, Placed, Held, Size;
      ghost var c := Now([]);
      ghost var p1, m1 := p + Flow(bufs, [a], false), m + Flow(bufs, [a], true);
      ghost var c1 := c.(input := c.input + [a]);
      assert c.input + [a] == [a];
      GoingAdd(bufs, c, [a], record, p, m);
      GoingFine(bufs, c1, record, p1, m1);
      HomedInput(bufs, c, [a], made);
      HomedDrop(bufs, c1, made);
      GoingPass(bufs, c1, record, p1, m1);
      if w.calm { CalmNext(bufs, c1, Moved(c1), mode, w.strict); }
      record := Passing(record, bufs[a]);
      GoingFine(bufs, Moved(c1), record, p1, m1);
      at := at[a := Out];
      assert Now([a]) == Moved(c1);
      rc := OutputFilter([a], p1, m1, w);
      ghost var c2 := After([a]);
      FineIds(bufs, c2);
      ReturnStep(bufs, c2);
      HomedReturned(bufs, c2, made);
      GoingUnmoved(bufs, c2, bufs, Returned(c2), record, p1, m1);
      if w.calm { CalmSame(bufs, bufs, c2, Returned(c2), mode, w.strict); }
      at := at[a := Gone];
      assert Now([]) == Returned(c2);
    }

    static lemma ArgKept(bufs: seq<Buf>, bufs': seq<Buf>, arg: seq<nat>)
      requires Sound(bufs, arg) && |bufs'| == |bufs| && forall j :: 0 <= j < |bufs| ==> PassedOn(bufs[j], bufs'[j])
      ensures Sound(bufs', arg) && Flow(bufs', arg, false) == Flow(bufs, arg, false) && Flow(bufs', arg, true) == Flow(bufs, arg, true)
      ensures forall k :: 0 <= k < |arg| ==> Coherent(bufs'[arg[k]]) && bufs'[arg[k]].own == bufs[arg[k]].own
    {
      hide Flow, Coherent, PassedOn, Size, Blank, Weight;
      PassedFlow(bufs, bufs', arg, false);
      PassedFlow(bufs, bufs', arg, true);
      forall k | 0 <= k < |arg| ensures bufs'[arg[k]].own == bufs[arg[k]].own {
        PassedTokens(bufs[arg[k]], bufs'[arg[k]]);
      }
    }

    // The incoming buffers enter the chain.
    method Enter(arg: seq<nat>, ghost p: seq<Token>, ghost m: seq<Token>, ghost w: Watch)
      requires Kept([], p, m, Off) && AllAt(arg, at, Input) && NoDup(input + arg) && Sound(bufs, arg)
      requires w.calm ==> Calm(bufs, Now([]).(input := input + arg), mode, w.strict) && record.faults == w.faults
      requires Counted(input + arg, w)
      modifies `input
      ensures Kept([], p + Flow(bufs, arg, false), m + Flow(bufs, arg, true), w)
    {
      hide Homed, Tallied, Fine, Going, Calm, Flow, Sound;
      ghost var c := Now([]);
      HomedInput(bufs, c, arg, made);
      GoingAdd(bufs, c, arg, record, p, m);
      GoingFine(bufs, c.(input := c.input + arg), record, p + Flow(bufs, arg, false), m + Flow(bufs, arg, true));
      input := input + arg;
    }

    // What the answer of a call says of the filter's last answer since, and of
    // what is left.
    ghost predicate Tells(since: nat, disk0: seq<bool>, rc: Rc)
      reads this
    {
      match rc
      case Ok => Said(since, Ok) && input == []
      case Again => Said(since, Again) || Stuck()
      case Error => Said(since, Error) || ReadFailed(disk0, disk)
      case Done => Said(since, Done)
    }

    // The outer loop: fill, pass to the filter, take back.
    method Pump(ghost p: seq<Token>, ghost m: seq<Token>, ghost w: Watch) returns (rc: Rc)
      requires Kept([], p, m, w)
      modifies this
      ensures made <= bufsNum
      ensures rc in {Ok, Again} ==> Kept([], p, m, w)
      ensures Tells(old(calls), old(disk), rc)
      ensures old(Eager(calls, |p|) && ReadsFine(disk)) && bufsNum > 0 ==> rc == Ok && pending == []
    {
      hide Homed, Tallied, Fine, Going, Calm, Load, Read, ReadFailed, Counted, Size, ReadsFine;
      ReadNone(disk);
      var last := None;
      while true
        invariant Kept([], p, m, w) && (last.Some? ==> last.value in {Ok, Again} && Said(old(calls), last.value) && (busy == [] || Unsent()))
        invariant last.None? ==> calls == old(calls)
        invariant Read(old(disk), disk)
        invariant last.Some? && old(Eager(calls, |p|)) ==> pending == []
        decreases Load(bufs, Now([])), if last.None? then 1 else 0
      {
        ghost var disk1 := disk;
        var out, ok := Fill(p, m, w);
        ReadOn(old(disk), disk1, disk);
        if !ok {
          NotFailed(old(disk), disk);
          return Error;
        }
        if out == [] && last != None {
          if input != [] && bufsNum > 0 { BusyOnes(bufs, Now([]), made); }
          return if input != [] then Again else last.value;
        }
        rc := OutputFilter(out, p, m, w);
        if rc == Error || rc == Done {
          return;
        }
        UpdateChains(out, p, m, w);
        last := Some(rc);
      }
    }

    // The chain takes notice of the caller's buffers.
    ghost method Admit(arg: seq<nat>, p: seq<Token>, m: seq<Token>, w: Watch)
      requires Kept([], p, m, Off) && Given(bufs, Now([]), arg)
      requires w.calm ==> Calm(bufs, Now([]).(input := input + arg), mode, w.strict) && record.faults == w.faults
      modifies `at
      ensures Kept([], p, m, Off) && Sound(bufs, arg) && AllAt(arg, at, Input) && NoDup(input + arg)
      ensures w.calm ==> Calm(bufs, Now([]).(input := input + arg), mode, w.strict)
      ensures forall k :: 0 <= k < |arg| ==> !bufs[arg[k]].own
    {
      hide Fine, Going, Coherent, Sent, Left, Load;
      ghost var c := Now([]);
      ClaimStep(bufs, c, arg);
      HomedClaimed(bufs, c, arg, made);
      GoingUnmoved(bufs, c, bufs, c.(at := Claimed(c.at, arg)), record, p, m);
      at := Claimed(at, arg);
    }

    // A single buffer that needs no copy does not enter the chain if that is empty.
    predicate Short(arg: seq<nat>)
      reads this
    {
      input == [] && busy == [] && |arg| == 1 && arg[0] < |bufs| && AsIs(bufs[arg[0]], mode)
    }

    // The short path for one buffer or none, the loops for the rest.
    method Route(arg: seq<nat>, ghost p: seq<Token>, ghost m: seq<Token>, ghost w: Watch) returns (rc: Rc)
      requires Kept([], p, m, Off) && Sound(bufs, arg) && AllAt(arg, at, Input) && NoDup(input + arg)
      requires forall k :: 0 <= k < |arg| ==> !bufs[arg[k]].own
      requires w.calm ==> Calm(bufs, Now([]).(input := input + arg), mode, w.strict) && record.faults == w.faults
      requires Counted(if Short(arg) then input else input + arg, w)
      modifies this
      ensures made <= bufsNum
      ensures rc in {Ok, Again} ==> Kept([], p + Flow(old(bufs), arg, false), m + Flow(old(bufs), arg, true), w)
      ensures Tells(old(calls), old(disk), rc)
      ensures old(Eager(calls, |p + Flow(bufs, arg, false)|) && ReadsFine(disk)) && bufsNum > 0 ==> rc == Ok && pending == []
    {
      hide Fine, Going, Calm, Flow, Coherent, AsIs, PassedOn, SameMarks, Load;
      ghost var bufs0, c1 := bufs, Now([]).(input := input + arg);
      if input == [] && busy == [] {
        if arg == [] {
          NoFlow(bufs, p);
          NoFlow(bufs, m);
          assert c1 == Now([]);
          rc := OutputFilter([], p, m, w);
          assert After([]) == Now([]);
          return;
        }
        if |arg| == 1 {
          var asIs := TestAsIs(arg[0], [], p, m, Off);
          ArgKept(bufs0, bufs, arg);
          if w.calm { CalmTested(bufs0, bufs, c1, arg, mode, w.strict); }
          if w.total.Some? { TallyPassed(bufs0, bufs, if asIs then input else input + arg, buf, made, mode, bufsSize, record.faults, w.total.value); }
          if asIs {
            assert arg == [arg[0]] == input + arg;
            rc := Straight(arg[0], p, m, w);
            return;
          }
        }
      }
      ghost var p1, m1 := p + Flow(bufs, arg, false), m + Flow(bufs, arg, true);
      Enter(arg, p, m, w);
      rc := Pump(p1, m1, w);
    }

    static lemma CalmTested(bufs: seq<Buf>, bufs': seq<Buf>, c: Chains, arg: seq<nat>, mode: Mode, strict: bool)
      requires Calm(bufs, c, mode, strict) && |bufs'| == |bufs| && forall j :: 0 <= j < |bufs| ==> PassedOn(bufs[j], bufs'[j])
      ensures Calm(bufs', c, mode, strict)
    {
      hide AsIs, Proper, PassedOn;
      forall j | 0 <= j < |bufs| ensures AsIs(bufs'[j], mode) == AsIs(bufs[j], mode) && Proper(bufs'[j]) == Proper(bufs[j]) {
        PassedAsIs(bufs[j], bufs'[j], mode);
      }
      PassedMarks(bufs, bufs');
    }

    static lemma NoFlow(bufs: seq<Buf>, p: seq<Token>)
      ensures p + Flow(bufs, [], false) == p && p + Flow(bufs, [], true) == p
    {
    }

    // ngx_output_chain: what came in, in order, is what went out and what is on
    // its way, nothing lost or repeated. Marks keep their place in a call if no
    // copy buffer has any and only the last of the buffers to come has marks and
    // needs a copy; if not even that one does, this stays so.
    method Output(arg: seq<nat>) returns (rc: Rc)
      requires Valid() && Given(bufs, Now([]), arg)
      modifies this
      ensures made <= bufsNum
      ensures rc in {Ok, Again} ==> Valid() && Came(false) == old(Came(false) + Flow(bufs, arg, false)) && Came(true) == old(Came(true) + Flow(bufs, arg, true))
      ensures rc in {Ok, Again} && old(Calm(bufs, Now([]).(input := input + arg), mode, false)) ==> record.faults == old(record.faults)
      ensures rc in {Ok, Again} && old(Calm(bufs, Now([]).(input := input + arg), mode, true)) ==> Calm(bufs, Now([]), mode, true)
      ensures rc in {Ok, Again} && old(Single(if Short(arg) then input else input + arg)) ==>
        Single(input) && record.faults + Strays(input) == old(record.faults + Strays(if Short(arg) then input else input + arg))
      ensures Tells(old(calls), old(disk), rc)
      ensures old(Eager(calls, |Came(false) + Flow(bufs, arg, false)|) && ReadsFine(disk)) && bufsNum > 0 ==>
        rc == Ok && pending == [] && record.plain == old(Came(false) + Flow(bufs, arg, false))
    {
      hide Fine, Going, Calm, Flow, Coherent, Sent, Left;
      ghost var p0, m0, c1 := Came(false), Came(true), Now([]).(input := input + arg);
      if Calm(bufs, c1, mode, true) { CalmLoose(bufs, c1, mode); }
      ghost var chain := if Short(arg) then input else input + arg;
      ghost var w := Watch(Calm(bufs, c1, mode, false), Calm(bufs, c1, mode, true), record.faults,
                           if Single(chain) then Some(record.faults + Strays(chain)) else None);
      Admit(arg, p0, m0, w);
      rc := Route(arg, p0, m0, w);
      if rc in {Ok, Again} { SentAll(); CameIs(p0 + Flow(old(bufs), arg, false), m0 + Flow(old(bufs), arg, true)); }
    }

    // With nothing left and nothing with the filter, all that came in was taken.
    lemma SentAll()
      requires Good([])
      ensures input == [] && pending == [] ==> Came(false) == record.plain
    {
      hide Homed;
      if input == [] && pending == [] {
        NoFlow(bufs, record.plain);
      }
    }

    lemma CameIs(p: seq<Token>, m: seq<Token>)
      requires Good([]) && Going(bufs, Now([]), record, p, m)
      ensures Came(false) == p && Came(true) == m
    {
    }

    // The bytes are always those that came in; the marks exactly if none has
    // strayed or been lost.
    lemma MarksKeptIff()
      requires Valid()
      ensures record.plain + Sent(bufs, Now([]), false) + Left(bufs, Now([]), false) == Came(false)
      ensures record.marked + Sent(bufs, Now([]), true) + Left(bufs, Now([]), true) == Came(true) <==> record.faults == 0
    {
      FaithfulIff(bufs, Now([]), record, Came(false), Came(true));
    }

    // No buffer that may be written to is still with the filter.
    lemma CopyBuffersApart()
      requires Valid()
      ensures forall k :: 0 <= k < |free| ==> free[k] !in pending && free[k] !in busy && free[k] !in input
      ensures buf.Some? ==> buf.value !in pending && buf.value !in busy && buf.value !in input
    {
      hide Held, Going;
      forall i | i in pending ensures i < |at| && at[i] in {Busy, Gone} {
        var k :| 0 <= k < |pending| && pending[k] == i;
      }
    }
  }

  // A buffer in memory, n bytes long.
  function Text(n: nat, flush: bool): (b: Buf)
    ensures Coherent(b) && !b.own
  {
    Buf(seq(n, _ => 0), 0, n, [], 0, 0, false, false, false, true, false, flush, false, false, false, false, false)
  }

  // One copy buffer of two bytes serves one flushed byte and then three bytes in
  // two copies. Whatever the filter takes, and when, the flush goes out a second
  // time in the middle of the three.
  method StrayFlush(plan: nat -> Act) returns (chain: OutputChain, rc: Rc)
    ensures fresh(chain)
    ensures rc in {Ok, Again} ==> chain.Valid() && chain.Single(chain.input) && chain.record.faults + chain.Strays(chain.input) == 1
    ensures (forall i: nat :: plan(i).rc == Ok && plan(i).sent > 4) ==> rc == Ok
    ensures rc == Ok ==> chain.record.faults == 1
  {
    hide Coherent, Fine, Going, Calm, Flow, Sent, Left, Sound;
    var bufs := [Text(1, true), Text(3, false)];
    chain := new OutputChain(1, 2, 1, Mode(false, false, true), bufs, plan, []);
    FlushDue(bufs, [0, 1], chain.mode);
    assert chain.input + [0, 1] == [0, 1];
    assert chain.Single([0, 1]) && chain.Strays([0, 1]) == 1;
    rc := chain.Output([0, 1]);
  }

  lemma FlushDue(bufs: seq<Buf>, arg: seq<nat>, m: Mode)
    requires bufs == [Text(1, true), Text(3, false)] && arg == [0, 1] && m == Mode(false, false, true)
    ensures Sound(bufs, arg) && CupOf(bufs) == NoCup && Due(bufs, arg, NoCup, m, 2) == 1 && |Flow(bufs, arg, false)| == 4
    ensures Countable(bufs, arg, None, 0, 2)
  {
    hide Coherent;
    assert arg[1..] == [1] && arg[1..][1..] == [];
    assert Refills(bufs[1], 2) == 1;
    assert Due(bufs, arg[1..], Cup(2, true), m, 2) == 1;
    assert |Tokens(bufs[0], false)| == 1 && |Tokens(bufs[1], false)| == 3;
    assert Flow(bufs, arg[1..], false) == Tokens(bufs[1], false);
  }
}
