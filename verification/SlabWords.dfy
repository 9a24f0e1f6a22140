// Chunk maps as words: the searches of the slab pool, and its size classes.
module SlabWords {
  import opened SlabChunks

  // One word of a chunk map.
  function WordAt(bits: seq<bool>, n: nat): seq<bool>
    requires (n + 1) * WordBits <= |bits|
  {
    bits[n * WordBits..(n + 1) * WordBits]
  }

  // The first clear bit of a word, bit by bit.
  method FirstClear(bits: seq<bool>) returns (i: nat)
    ensures i <= |bits| && (i < |bits| ==> !bits[i]) && (forall j :: 0 <= j < i ==> bits[j])
  {
    i := 0;
    while i < |bits|
      invariant i <= |bits| && forall j :: 0 <= j < i ==> bits[j]
    {
      if !bits[i] {
        return;
      }
      i := i + 1;
    }
  }

  // The same word by word, passing over full words.
  method FirstClearByWords(bits: seq<bool>) returns (i: nat)
    requires |bits| % WordBits == 0
    ensures i <= |bits| && (i < |bits| ==> !bits[i]) && (forall j :: 0 <= j < i ==> bits[j])
  {
    var n := 0;
    while n < |bits| / WordBits
      invariant n <= |bits| / WordBits
      invariant forall j :: 0 <= j < n * WordBits ==> bits[j]
    {
      if !AllSet(WordAt(bits, n)) {
        var k := FirstClear(WordAt(bits, n));
        return n * WordBits + k;
      }
      assert forall j :: n * WordBits <= j < (n + 1) * WordBits ==> bits[j] == WordAt(bits, n)[j - n * WordBits];
      n := n + 1;
    }
    return |bits|;
  }

  // Whether the word of bit i and those after it are full.
  method FullFrom(bits: seq<bool>, i: nat) returns (full: bool)
    requires |bits| % WordBits == 0 && i < |bits|
    ensures full <==> forall j :: i - i % WordBits <= j < |bits| ==> bits[j]
  {
    var n := i / WordBits;
    while n < |bits| / WordBits
      invariant i / WordBits <= n <= |bits| / WordBits
      invariant forall j :: i - i % WordBits <= j < n * WordBits ==> bits[j]
    {
      if !AllSet(WordAt(bits, n)) {
        return false;
      }
      assert forall j :: n * WordBits <= j < (n + 1) * WordBits ==> bits[j] == WordAt(bits, n)[j - n * WordBits];
      n := n + 1;
    }
    return true;
  }

  // Whether no bit is set from bit k of the first word on.
  method EmptyFrom(bits: seq<bool>, k: nat) returns (empty: bool)
    requires |bits| % WordBits == 0 && k < WordBits <= |bits|
    ensures empty <==> NoneSet(bits, k)
  {
    if !NoneSet(WordAt(bits, 0), k) {
      return false;
    }
    var n := 1;
    assert forall j :: 0 <= j < WordBits ==> bits[j] == WordAt(bits, 0)[j];
    while n < |bits| / WordBits
      invariant 1 <= n <= |bits| / WordBits
      invariant forall j :: k <= j < n * WordBits ==> !bits[j]
    {
      if !NoneSet(WordAt(bits, n), 0) {
        return false;
      }
      assert forall j :: n * WordBits <= j < (n + 1) * WordBits ==> bits[j] == WordAt(bits, n)[j - n * WordBits];
      n := n + 1;
    }
    return true;
  }

  // The first bits of the chunk map of a new page.
  function Ones(k: nat, size: nat): (bits: seq<bool>)
    ensures |bits| == size && forall j :: 0 <= j < size ==> bits[j] == (j < k)
  {
    seq(size, j => j < k)
  }

  // A map whose first k bits are set, word by word.
  method FillMap(k: nat, words: nat) returns (bits: seq<bool>)
    requires k / WordBits < words
    ensures bits == Ones(k, words * WordBits)
  {
    var i := 0;
    bits := [];
    while i < k / WordBits
      invariant i <= k / WordBits && bits == Ones(i * WordBits, i * WordBits)
    {
      bits := bits + Ones(WordBits, WordBits);
      i := i + 1;
    }
    bits := bits + Ones(k % WordBits, WordBits);
    i := i + 1;
    while i < words
      invariant k / WordBits < i <= words && bits == Ones(k, i * WordBits)
    {
      bits := bits + Ones(0, WordBits);
      i := i + 1;
    }
  }

  // The map of a new page of small chunks: those that hold the map are set,
  // and the one requested.
  method NewMap(shift: Shift) returns (bits: seq<bool>, n: nat)
    requires shift < ExactShift
    ensures n == Reserved(shift) && bits == Ones(n + 1, Chunks(shift))
  {
    Sizes(shift);
    n := Chunks(shift) / (Size(shift) * 8);
    if n == 0 {
      n := 1;
    }
    bits := FillMap(n + 1, Chunks(shift) / WordBits);
  }

  // The size class of a request: how often the size less one can be halved.
  method FindShift(size: nat) returns (shift: nat)
    requires size <= MaxSize
    ensures shift == ShiftOf(size)
  {
    if size > 8 {
      shift := 1;
      var s := (size - 1) / 2;
      ghost var p := 2;
      while s > 0
        invariant 1 <= shift && p == Power(shift) && s == (size - 1) / p && size > p / 2
        decreases s
      {
        HalvedAgain(size - 1, p);
        shift, p := shift + 1, 2 * p;
        s := s / 2;
      }
      SmallestShift(size, shift);
    } else {
      shift := 3;
    }
  }

  ghost function Power(n: nat): (p: nat)
    ensures p > 0
  {
    if n == 0 then 1 else 2 * Power(n - 1)
  }

  lemma HalvedAgain(x: nat, p: nat)
    requires p > 0
    ensures x / p / 2 == x / (2 * p)
    ensures x / p > 0 ==> x >= p
  {
    var q, r := x / p, x % p;
    assert x == q * p + r;
    Halves(q, p, r);
    Quotient(x, 2 * p, q / 2, (q % 2) * p + r);
    if q > 0 { MulMono(1, q, p); }
  }

  lemma Halves(q: nat, p: nat, r: nat)
    requires r < p
    ensures q * p + r == (q / 2) * (2 * p) + ((q % 2) * p + r) && (q % 2) * p + r < 2 * p
  {
    var h, b := q / 2, q % 2;
    assert q == 2 * h + b;
    assert q * p == (2 * h + b) * p == 2 * h * p + b * p;
    assert b == 0 || b == 1;
  }

  lemma Quotient(x: nat, d: nat, q: nat, r: nat)
    requires d > 0 && x == q * d + r && r < d
    ensures x / d == q
  {
    var k := x / d;
    if k < q {
      MulMono(k + 1, q, d);
    } else if q < k {
      MulMono(q + 1, k, d);
    }
  }

  lemma SmallestShift(size: nat, shift: nat)
    requires 8 < size <= MaxSize && shift >= 1 && size > Power(shift) / 2 && (size - 1) / Power(shift) == 0
    ensures shift == ShiftOf(size)
  {
    assert Power(3) == 8 && Power(4) == 16 && Power(5) == 32 && Power(6) == 64;
    assert Power(7) == 128 && Power(8) == 256 && Power(9) == 512 && Power(10) == 1024 && Power(11) == 2048;
    forall k: nat | k <= 3 ensures Power(k) <= 8 { PowerGrows(k, 3); }
    forall k | k >= 12 ensures Power(k) >= 4096 { PowerGrows(12, k); }
  }

  lemma {:induction false} PowerGrows(a: nat, b: nat)
    requires a <= b
    ensures Power(a) <= Power(b)
  {
    if a < b { PowerGrows(a, b - 1); }
  }
}
