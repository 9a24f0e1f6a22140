// MD5 and SHA-1 over messages that come in pieces (sections 3.1 and 3.2 of RFC
// 1321, section 5.1.1 of FIPS 180-4). The two differ in the compression of a
// block and in the order of the bytes of the length.
module Digest {
  newtype byte = n: int | 0 <= n < 256

  const BlockSize: nat := 64
  const TwoTo61: nat := 0x2000_0000_0000_0000
  const TwoTo64: nat := 0x1_0000_0000_0000_0000

  // ----- what is computed

  // The state after the whole blocks of the data.
  function Blocks<S>(compress: (S, seq<byte>) -> S, s: S, data: seq<byte>): S
    decreases |data|
  {
    if |data| < BlockSize then s else Blocks(compress, compress(s, data[..BlockSize]), data[BlockSize..])
  }

  function Zeros(n: nat): (z: seq<byte>)
    ensures |z| == n && forall i :: 0 <= i < n ==> z[i] == 0
  {
    seq(n, _ => 0)
  }

  function Power256(k: nat): (p: nat)
    ensures p > 0
  {
    if k == 0 then 1 else 256 * Power256(k - 1)
  }

  function ByteOf(n: nat, k: nat): byte { (n / Power256(k) % 256) as byte }

  // Eight bytes of a number, low or high byte first.
  function Bytes8(n: nat, bigEndian: bool): (b: seq<byte>)
    ensures |b| == 8
  {
    seq(8, k requires 0 <= k < 8 => ByteOf(n, if bigEndian then 7 - k else k))
  }

  // The low 64 bits of the length in bits.
  function LengthBytes(n: nat, bigEndian: bool): (b: seq<byte>)
    ensures |b| == 8
  {
    Bytes8(n * 8 % TwoTo64, bigEndian)
  }

  // How many zeros come before the length.
  function Gap(n: nat): nat { (119 - n % BlockSize) % BlockSize }

  function Padded(m: seq<byte>, bigEndian: bool): (p: seq<byte>)
    ensures |p| % BlockSize == 0 && |p| > |m|
  {
    m + [0x80] + Zeros(Gap(|m|)) + LengthBytes(|m|, bigEndian)
  }

  // The padding is the shortest there is.
  lemma PaddedShort(m: seq<byte>, bigEndian: bool)
    ensures |m| + 9 <= |Padded(m, bigEndian)| < |m| + 9 + BlockSize
  {
  }

  lemma {:induction false} BlocksJoin<S>(compress: (S, seq<byte>) -> S, s: S, a: seq<byte>, b: seq<byte>)
    requires |a| % BlockSize == 0
    ensures Blocks(compress, s, a + b) == Blocks(compress, Blocks(compress, s, a), b)
    decreases |a|
  {
    if a == [] {
      assert a + b == b;
    } else {
      assert (a + b)[..BlockSize] == a[..BlockSize] && (a + b)[BlockSize..] == a[BlockSize..] + b;
      BlocksJoin(compress, compress(s, a[..BlockSize]), a[BlockSize..], b);
    }
  }

  // ----- different messages are padded differently

  lemma {:induction false} PowersDivide(x: nat, y: nat, k: nat)
    requires x < Power256(k) && y < Power256(k)
    requires forall j: nat :: j < k ==> x / Power256(j) % 256 == y / Power256(j) % 256
    ensures x == y
  {
    if k > 0 {
      var x', y' := x / 256, y / 256;
      assert Power256(0) == 1;
      assert x / Power256(0) % 256 == y / Power256(0) % 256;
      forall j: nat | j < k - 1 ensures x' / Power256(j) % 256 == y' / Power256(j) % 256 {
        DivideTwice(x, Power256(j));
        DivideTwice(y, Power256(j));
        assert x / Power256(j + 1) % 256 == y / Power256(j + 1) % 256;
      }
      PowersDivide(x', y', k - 1);
    }
  }

  lemma DivideTwice(x: nat, p: nat)
    requires p > 0
    ensures x / 256 / p == x / (256 * p)
  {
    var q := x / (256 * p);
    var r := x % (256 * p);
    assert x == q * (256 * p) + r;
    assert x / 256 == q * p + r / 256 by {
      assert x == 256 * (q * p) + r;
    }
    assert r / 256 < p;
    QuotientIs(x / 256, q, p, r / 256);
  }

  lemma QuotientIs(x: nat, q: nat, p: nat, r: nat)
    requires p > 0 && x == q * p + r && r < p
    ensures x / p == q
  {
    var d := x / p - q;
    assert d * p == r - x % p;
    MulSign(d, p);
  }

  lemma MulSign(d: int, p: nat)
    ensures (d > 0 ==> d * p >= p) && (d < 0 ==> d * p + p <= 0)
  {
  }

  lemma LengthTells(n: nat, m: nat, bigEndian: bool)
    requires n < TwoTo61 && m < TwoTo61 && LengthBytes(n, bigEndian) == LengthBytes(m, bigEndian)
    ensures n == m
  {
    hide Bytes8, LengthBytes;
    LengthIs(n, bigEndian);
    LengthIs(m, bigEndian);
    SmallBits(n);
    SmallBits(m);
    Bytes8Tell(n * 8, m * 8, bigEndian);
  }

  lemma SmallBits(n: nat)
    requires n < TwoTo61
    ensures n * 8 % TwoTo64 == n * 8 < TwoTo64
  {
  }

  lemma Bytes8Tell(n: nat, m: nat, bigEndian: bool)
    requires n < TwoTo64 && m < TwoTo64 && Bytes8(n, bigEndian) == Bytes8(m, bigEndian)
    ensures n == m
  {
    hide Power256;
    PowerEight();
    forall k: nat | k < 8 ensures n / Power256(k) % 256 == m / Power256(k) % 256 {
      var i := if bigEndian then 7 - k else k;
      assert Bytes8(n, bigEndian)[i] == ByteOf(n, k);
      assert Bytes8(m, bigEndian)[i] == ByteOf(m, k);
    }
    PowersDivide(n, m, 8);
  }

  lemma PowerEight()
    ensures Power256(8) == TwoTo64
  {
    assert Power256(2) == 0x1_0000;
    assert Power256(4) == 0x1_0000_0000;
    assert Power256(6) == 0x1_0000_0000_0000;
  }

  // Messages whose length is told in full are told apart by their padding.
  lemma PaddingTellsApart(m: seq<byte>, n: seq<byte>, bigEndian: bool)
    requires |m| < TwoTo61 && |n| < TwoTo61 && Padded(m, bigEndian) == Padded(n, bigEndian)
    ensures m == n
  {
    hide LengthBytes;
    var p := Padded(m, bigEndian);
    assert p[|p| - 8..] == LengthBytes(|m|, bigEndian);
    assert p[|p| - 8..] == LengthBytes(|n|, bigEndian);
    LengthTells(|m|, |n|, bigEndian);
    assert p[..|m|] == m && p[..|n|] == n;
  }

  // ----- the result is read from the state

  const Md5Start: seq<nat> := [0x67452301, 0xefcdab89, 0x98badcfe, 0x10325476]
  const Sha1Start: seq<nat> := [0x67452301, 0xefcdab89, 0x98badcfe, 0x10325476, 0xc3d2e1f0]

  function Bytes4(w: nat, bigEndian: bool): seq<byte> {
    if bigEndian then [ByteOf(w, 3), ByteOf(w, 2), ByteOf(w, 1), ByteOf(w, 0)]
    else [ByteOf(w, 0), ByteOf(w, 1), ByteOf(w, 2), ByteOf(w, 3)]
  }

  function WordBytes(words: seq<nat>, bigEndian: bool): (b: seq<byte>)
    ensures |b| == 4 * |words|
  {
    if words == [] then [] else Bytes4(words[0], bigEndian) + WordBytes(words[1..], bigEndian)
  }

  // The start states as bytes, each in the order of its algorithm.
  const Md5StartBytes: seq<byte> := [0x01, 0x23, 0x45, 0x67, 0x89, 0xab, 0xcd, 0xef, 0xfe, 0xdc, 0xba, 0x98, 0x76, 0x54, 0x32, 0x10]
  const Sha1StartBytes: seq<byte> := [0x67, 0x45, 0x23, 0x01, 0xef, 0xcd, 0xab, 0x89, 0x98, 0xba, 0xdc, 0xfe, 0x10, 0x32, 0x54, 0x76, 0xc3, 0xd2, 0xe1, 0xf0]

  lemma StartBytes()
    ensures WordBytes(Md5Start, false) == Md5StartBytes && WordBytes(Sha1Start, true) == Sha1StartBytes
  {
    hide Bytes4;
    StartWords();
  }

  lemma StartWords()
    ensures Bytes4(0x67452301, true) == [0x67, 0x45, 0x23, 0x01] && Bytes4(0x67452301, false) == [0x01, 0x23, 0x45, 0x67]
    ensures Bytes4(0xefcdab89, true) == [0xef, 0xcd, 0xab, 0x89] && Bytes4(0xefcdab89, false) == [0x89, 0xab, 0xcd, 0xef]
    ensures Bytes4(0x98badcfe, true) == [0x98, 0xba, 0xdc, 0xfe] && Bytes4(0x98badcfe, false) == [0xfe, 0xdc, 0xba, 0x98]
    ensures Bytes4(0x10325476, true) == [0x10, 0x32, 0x54, 0x76] && Bytes4(0x10325476, false) == [0x76, 0x54, 0x32, 0x10]
    ensures Bytes4(0xc3d2e1f0, true) == [0xc3, 0xd2, 0xe1, 0xf0] && Bytes4(0xc3d2e1f0, false) == [0xf0, 0xe1, 0xd2, 0xc3]
  {
    hide Power256;
    FirstPowers();
  }

  lemma FirstPowers()
    ensures Power256(0) == 1 && Power256(1) == 0x100 && Power256(2) == 0x10000 && Power256(3) == 0x1000000
  {
  }

  // A message of one byte, as it is padded for MD5 and for SHA-1.
  lemma OneBytePadded(b: byte)
    ensures Padded([b], false) == [b, 0x80] + Zeros(54) + [8, 0, 0, 0, 0, 0, 0, 0]
    ensures Padded([b], true) == [b, 0x80] + Zeros(54) + [0, 0, 0, 0, 0, 0, 0, 8]
  {
    hide ByteOf;
    EightBits();
    assert LengthBytes(1, false) == [8, 0, 0, 0, 0, 0, 0, 0];
    assert LengthBytes(1, true) == [0, 0, 0, 0, 0, 0, 0, 8];
  }

  lemma EightBits()
    ensures ByteOf(8, 0) == 8 && forall k: nat :: 1 <= k < 8 ==> ByteOf(8, k) == 0
  {
    forall k: nat | 1 <= k < 8 ensures ByteOf(8, k) == 0 { AboveEight(k); }
  }

  lemma {:induction false} AboveEight(k: nat)
    requires k >= 1
    ensures Power256(k) > 8 && 8 / Power256(k) == 0
  {
    if k > 1 { AboveEight(k - 1); }
    hide Power256;
    QuotientIs(8, 0, Power256(k), 8);
  }

  lemma Bytes4Tell(v: nat, w: nat, bigEndian: bool)
    requires v < Power256(4) && w < Power256(4) && Bytes4(v, bigEndian) == Bytes4(w, bigEndian)
    ensures v == w
  {
    hide Power256;
    var x, y := Bytes4(v, bigEndian), Bytes4(w, bigEndian);
    assert x[0] == y[0] && x[1] == y[1] && x[2] == y[2] && x[3] == y[3];
    forall k: nat | k < 4 ensures v / Power256(k) % 256 == w / Power256(k) % 256 {
      assert ByteOf(v, k) == ByteOf(w, k);
    }
    PowersDivide(v, w, 4);
  }

  // States of as many 32-bit words give different results.
  lemma {:induction false} ResultTells(a: seq<nat>, b: seq<nat>, bigEndian: bool)
    requires |a| == |b| && forall i :: 0 <= i < |a| ==> a[i] < Power256(4) && b[i] < Power256(4)
    requires WordBytes(a, bigEndian) == WordBytes(b, bigEndian)
    ensures a == b
  {
    hide Bytes4, Power256;
    if a != [] {
      var x, y := WordBytes(a, bigEndian), WordBytes(b, bigEndian);
      FourFirst(a, bigEndian);
      FourFirst(b, bigEndian);
      Bytes4Tell(a[0], b[0], bigEndian);
      ResultTells(a[1..], b[1..], bigEndian);
    }
  }

  lemma FourFirst(words: seq<nat>, bigEndian: bool)
    requires words != []
    ensures WordBytes(words, bigEndian)[..4] == Bytes4(words[0], bigEndian) && WordBytes(words, bigEndian)[4..] == WordBytes(words[1..], bigEndian)
  {
  }

  // ----- the context

  class Context {
    const compress: (seq<nat>, seq<byte>) -> seq<nat>
    const start: seq<nat>
    const bigEndian: bool

    var state: seq<nat>         // words of 32 bits
    var bytes: nat              // 64 bits
    var buffer: array<byte>

    ghost var message: seq<byte>     // all that came in

    ghost predicate Valid()
      reads this, buffer
    {
      && buffer.Length == BlockSize && bytes == |message| % TwoTo64
      && Done(Whole(message)) && buffer[..|Tail(message)|] == Tail(message)
    }

    // ngx_md5_init, ngx_sha1_init
    constructor (compress: (seq<nat>, seq<byte>) -> seq<nat>, bigEndian: bool)
      ensures Valid() && message == [] && this.compress == compress && this.bigEndian == bigEndian
      ensures start == if bigEndian then Sha1Start else Md5Start
      ensures WordBytes(start, bigEndian) == if bigEndian then Sha1StartBytes else Md5StartBytes
      ensures fresh(buffer)
    {
      this.compress, this.bigEndian := compress, bigEndian;
      start := if bigEndian then Sha1Start else Md5Start;
      state, bytes, message := if bigEndian then Sha1Start else Md5Start, 0, [];
      buffer := new byte[BlockSize];
      new;
      StartBytes();
    }

    // ngx_md5_body, ngx_sha1_body, block by block
    method Body(data: seq<byte>)
      requires |data| % BlockSize == 0
      modifies `state
      ensures state == Blocks(compress, old(state), data)
    {
      var i := 0;
      while i < |data|
        invariant 0 <= i <= |data| && i % BlockSize == 0
        invariant Blocks(compress, state, data[i..]) == Blocks(compress, old(state), data)
      {
        assert data[i..][..BlockSize] == data[i..i + BlockSize] && data[i..][BlockSize..] == data[i + BlockSize..];
        state := compress(state, data[i..i + BlockSize]);
        i := i + BlockSize;
      }
    }

    method Store(at: nat, data: seq<byte>)
      requires at + |data| <= buffer.Length
      modifies buffer
      ensures buffer[..at + |data|] == old(buffer[..at]) + data
      ensures forall i :: at + |data| <= i < buffer.Length ==> buffer[i] == old(buffer[i])
    {
      var i := 0;
      while i < |data|
        invariant 0 <= i <= |data| && buffer[..at + i] == old(buffer[..at]) + data[..i]
        invariant forall k :: at + i <= k < buffer.Length ==> buffer[k] == old(buffer[k])
      {
        ghost var was := buffer[..at + i];
        buffer[at + i] := data[i];
        assert buffer[..at + i + 1] == was + [data[i]];
        i := i + 1;
      }
    }

    // The state is that of the data so far.
    ghost predicate Done(done: seq<byte>)
      reads this
    {
      |done| % BlockSize == 0 && state == Blocks(compress, start, done)
    }

    method More(data: seq<byte>, ghost done: seq<byte>)
      requires Done(done) && |data| % BlockSize == 0
      modifies `state
      ensures Done(done + data)
    {
      Body(data);
      BlocksJoin(compress, start, done, data);
    }

    // The rest of a block.
    method Complete(data: seq<byte>, ghost done: seq<byte>, ghost tail: seq<byte>)
      requires Done(done) && buffer.Length == BlockSize && |tail| + |data| == BlockSize && buffer[..|tail|] == tail
      modifies `state, buffer
      ensures Done(done + (tail + data))
    {
      Store(BlockSize - |data|, data);
      assert buffer[..] == tail + data;
      More(buffer[..], done);
    }

    // ngx_md5_update, ngx_sha1_update
    method Update(data: seq<byte>)
      requires Valid()
      modifies this, buffer
      ensures Valid() && message == old(message) + data && buffer == old(buffer)
    {
      hide Blocks, Whole, Tail;
      ghost var m, done, tail := message, Whole(message), Tail(message);
      Parts(m);
      Counts(|m|, |data|);
      var used := bytes % BlockSize;
      bytes := (bytes + |data|) % TwoTo64;
      message := m + data;
      var rest := data;
      if used > 0 {
        var free := BlockSize - used;
        if |data| < free {
          Store(used, data);
          Associate(done, tail, data);
          Joined(m + data, done, tail + data);
          return;
        }
        Complete(data[..free], done, tail);
        rest := data[free..];
        done := done + (tail + data[..free]);
        Regroup(Whole(m), tail, data, free);
      } else {
        NothingKept(done, tail);
      }
      rest, done := TakeWhole(rest, done);
      Joined(m + data, done, rest);
      Store(0, rest);
    }

    // The whole blocks of the data go straight to the compression.
    method TakeWhole(data: seq<byte>, ghost done: seq<byte>) returns (rest: seq<byte>, ghost done': seq<byte>)
      requires Done(done)
      modifies `state
      ensures Done(done') && done' + rest == done + data && |rest| < BlockSize
    {
      hide Done;
      rest, done' := data, done;
      if |data| >= BlockSize {
        var whole := |data| / BlockSize * BlockSize;
        More(data[..whole], done);
        Associate(done, data[..whole], data[whole..]);
        assert data == data[..whole] + data[whole..];
        done' := done + data[..whole];
        rest := data[whole..];
      }
    }

    // ngx_md5_final, ngx_sha1_final
    method Final() returns (result: seq<byte>)
      requires Valid()
      modifies this, buffer
      ensures result == WordBytes(Blocks(compress, start, Padded(message, bigEndian)), bigEndian) && message == old(message)
    {
      hide Blocks, LengthBytes, Bytes8, Zeros, Padded, Whole, Tail;
      ghost var m, done, tail := message, Whole(message), Tail(message);
      Parts(m);
      Counts(|m|, 0);
      Bits(|m|);
      PaddedIs(m, bigEndian);
      var used := bytes % BlockSize;
      Store(used, [0x80]);
      used := used + 1;
      tail := tail + [0x80];
      var free := BlockSize - used;
      if free < 8 {
        Complete(Zeros(free), done, tail);
        done := done + (tail + Zeros(free));
        tail := [];
        used := 0;
        free := BlockSize;
      }
      Store(used, Zeros(free - 8));
      tail := tail + Zeros(free - 8);
      bytes := bytes * 8 % TwoTo64;
      LengthIs(|m|, bigEndian);
      Complete(Bytes8(bytes, bigEndian), done, tail);
      result := WordBytes(state, bigEndian);
    }
  }

  lemma Associate(a: seq<byte>, b: seq<byte>, c: seq<byte>)
    ensures (a + b) + c == a + (b + c)
  {
  }

  lemma NothingKept(done: seq<byte>, tail: seq<byte>)
    requires tail == []
    ensures done + tail == done
  {
  }

  lemma Regroup(done: seq<byte>, tail: seq<byte>, data: seq<byte>, k: nat)
    requires k <= |data|
    ensures (done + tail) + data == (done + (tail + data[..k])) + data[k..]
  {
    assert data == data[..k] + data[k..];
  }

  lemma LengthIs(n: nat, bigEndian: bool)
    ensures LengthBytes(n, bigEndian) == Bytes8(n * 8 % TwoTo64, bigEndian)
  {
  }

  function Whole(m: seq<byte>): seq<byte> { m[..|m| - |m| % BlockSize] }

  function Tail(m: seq<byte>): seq<byte> { m[|m| - |m| % BlockSize..] }

  lemma Parts(m: seq<byte>)
    ensures m == Whole(m) + Tail(m) && |Whole(m)| % BlockSize == 0 && |Tail(m)| == |m| % BlockSize
  {
  }

  lemma Joined(m: seq<byte>, done: seq<byte>, tail: seq<byte>)
    requires m == done + tail && |done| % BlockSize == 0 && |tail| < BlockSize
    ensures Whole(m) == done && Tail(m) == tail && |m| % BlockSize == |tail|
  {
  }

  lemma Bits(n: nat)
    ensures n % TwoTo64 * 8 % TwoTo64 == n * 8 % TwoTo64
  {
    assert n * 8 == n / TwoTo64 * 8 * TwoTo64 + n % TwoTo64 * 8;
  }

  // The last block of the padded message, or the last two.
  lemma PaddedIs(m: seq<byte>, bigEndian: bool)
    ensures var t, k := Tail(m) + [0x80], BlockSize - |Tail(m)| - 1;
      Padded(m, bigEndian) ==
        if k < 8 then Whole(m) + (t + Zeros(k)) + ([] + Zeros(BlockSize - 8) + LengthBytes(|m|, bigEndian))
        else Whole(m) + (t + Zeros(k - 8) + LengthBytes(|m|, bigEndian))
  {
    hide LengthBytes;
    Parts(m);
    var k := BlockSize - |Tail(m)| - 1;
    if k < 8 {
      assert Zeros(Gap(|m|)) == Zeros(k) + Zeros(BlockSize - 8);
    }
  }

  // The count wraps around at 64 bits, which is a whole number of blocks.
  lemma Counts(n: nat, k: nat)
    ensures (n % TwoTo64 + k) % TwoTo64 == (n + k) % TwoTo64 && n % TwoTo64 % BlockSize == n % BlockSize
  {
  }
}
