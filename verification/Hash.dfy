// The static hash: sized once for its names, its elements packed into buckets
// of cache lines.
module Hash {
  import opened Options

  newtype byte = n: int | 0 <= n < 256

  function Lower(c: byte): byte { if 65 <= c <= 90 then c + 32 else c }

  function Lowered(s: seq<byte>): (r: seq<byte>)
    ensures |r| == |s|
  {
    seq(|s|, i requires 0 <= i < |s| => Lower(s[i]))
  }

  const TwoTo64: nat := 0x1_0000_0000_0000_0000

  // ngx_hash_key, in 64 bits
  function KeyOf(s: seq<byte>): nat {
    if s == [] then 0 else (KeyOf(s[..|s| - 1]) * 31 + s[|s| - 1] as nat) % TwoTo64
  }

  // The key of "HoSt", which is that of "host".
  lemma OneKey()
    ensures Lowered([72, 111, 83, 116]) == [104, 111, 115, 116] && KeyOf([104, 111, 115, 116]) == 3208616
  {
    var a, b, c, d: seq<byte> := [104], [104, 111], [104, 111, 115], [104, 111, 115, 116];
    assert d[..3] == c && c[..2] == b && b[..1] == a && a[..0] == [];
    assert KeyOf(a) == 104 && KeyOf(b) == 3335 && KeyOf(c) == 103500;
  }

  // ngx_hash_key_lc
  method KeyLc(s: seq<byte>) returns (key: nat)
    ensures key == KeyOf(Lowered(s))
  {
    key := 0;
    var i := 0;
    ghost var l := Lowered(s);
    while i < |s|
      invariant 0 <= i <= |s| && key == KeyOf(l[..i])
    {
      assert l[..i + 1][..i] == l[..i];
      key := (key * 31 + Lower(s[i]) as nat) % TwoTo64;
      i := i + 1;
    }
    assert l[..i] == l;
  }

  // A name without data is passed over; values are not null.
  datatype Key = Key(name: Option<seq<byte>>, hash: nat, value: nat)

  // What stands in a bucket; the value 0 ends it.
  datatype Elt = Elt(value: nat, name: seq<byte>)

  const End: Elt := Elt(0, [])

  // To the size of a pointer, and to that of a cache line.
  function Align8(n: nat): (r: nat)
    ensures n <= r < n + 8 && r % 8 == 0
  {
    (n + 7) / 8 * 8
  }

  const Line: nat := 64

  function AlignLine(n: nat): (r: nat)
    ensures n <= r < n + Line && r % Line == 0
  {
    (n + (Line - 1)) / Line * Line
  }

  // NGX_HASH_ELT_SIZE: the value, the length in two bytes and the name.
  function EltSize(len: nat): (n: nat)
    ensures n >= 10 + len && n >= 16 && n % 8 == 0
  {
    8 + Align8(len + 2)
  }

  function EltOf(k: Key): Elt
    requires k.name.Some?
  {
    Elt(k.value, Lowered(k.name.value))
  }

  // ----- what goes where

  predicate In(k: Key, size: nat, b: nat)
    requires size > 0
  {
    k.name.Some? && k.hash % size == b
  }

  // The bytes that the first n names take in bucket b.
  function Used(names: seq<Key>, size: nat, b: nat, n: nat): nat
    requires size > 0 && n <= |names|
  {
    if n == 0 then 0
    else Used(names, size, b, n - 1) + if In(names[n - 1], size, b) then EltSize(|names[n - 1].name.value|) else 0
  }

  lemma {:induction false} UsedGrows(names: seq<Key>, size: nat, b: nat, n: nat, m: nat)
    requires size > 0 && n <= m <= |names|
    ensures Used(names, size, b, n) <= Used(names, size, b, m)
    ensures n < m && In(names[n], size, b) ==> Used(names, size, b, n) + EltSize(|names[n].name.value|) <= Used(names, size, b, m)
    decreases m
  {
    if n < m {
      UsedGrows(names, size, b, n, m - 1);
    }
  }

  // What bucket b lists of the names from n on.
  function List(names: seq<Key>, size: nat, b: nat, n: nat): seq<Elt>
    requires size > 0 && n <= |names|
    decreases |names| - n
  {
    if n == |names| then []
    else (if In(names[n], size, b) then [EltOf(names[n])] else []) + List(names, size, b, n + 1)
  }

  // ----- looking up

  datatype Table = Table(buckets: seq<Option<nat>>, size: nat, elts: map<nat, Elt>)

  // The elements from address a on.
  ghost predicate Chain(elts: map<nat, Elt>, a: nat, l: seq<Elt>)
    decreases |l|
  {
    a in elts && a % 8 == 0 &&
    if l == [] then elts[a].value == 0
    else elts[a] == l[0] && l[0].value > 0 && Chain(elts, a + EltSize(|l[0].name|), l[1..])
  }

  ghost predicate Holds(h: Table, names: seq<Key>) {
    && h.size > 0 && |h.buckets| == h.size
    && forall b :: 0 <= b < h.size ==> BucketHolds(h, names, b)
  }

  ghost predicate BucketHolds(h: Table, names: seq<Key>, b: nat)
    requires h.size > 0 && b < |h.buckets|
  {
    if h.buckets[b].None? then List(names, h.size, b, 0) == [] else Chain(h.elts, h.buckets[b].value, List(names, h.size, b, 0))
  }

  function FirstIn(l: seq<Elt>, name: seq<byte>): Option<nat> {
    if l == [] then None else if l[0].name == name then Some(l[0].value) else FirstIn(l[1..], name)
  }

  // ngx_hash_find
  method Find(h: Table, key: nat, name: seq<byte>, ghost names: seq<Key>) returns (value: Option<nat>)
    requires Holds(h, names)
    ensures value == FirstIn(List(names, h.size, key % h.size, 0), name)
  {
    ghost var l := List(names, h.size, key % h.size, 0);
    ghost var all := l;
    assert BucketHolds(h, names, key % h.size);
    if h.buckets[key % h.size] == None {
      return None;
    }
    var a: nat := h.buckets[key % h.size].value;
    while h.elts[a].value != 0
      invariant Chain(h.elts, a, l) && FirstIn(l, name) == FirstIn(all, name)
      decreases |l|
    {
      var same := SameName(name, h.elts[a].name);
      if same {
        return Some(h.elts[a].value);
      }
      NextElt(a, |h.elts[a].name|);
      a := Align8(a + 10 + |h.elts[a].name|);
      l := l[1..];
    }
    return None;
  }

  // The next element starts at the next address for a pointer.
  lemma NextElt(a: nat, len: nat)
    requires a % 8 == 0
    ensures Align8(a + 10 + len) == a + EltSize(len)
  {
  }

  method SameName(name: seq<byte>, other: seq<byte>) returns (same: bool)
    ensures same <==> name == other
  {
    if |name| != |other| {
      return false;
    }
    var i := 0;
    while i < |name|
      invariant 0 <= i <= |name| && forall j :: 0 <= j < i ==> name[j] == other[j]
    {
      if name[i] != other[i] {
        return false;
      }
      i := i + 1;
    }
    return true;
  }

  // The value of the first name that is the query, letter case aside.
  function First(names: seq<Key>, name: seq<byte>, n: nat): Option<nat>
    requires n <= |names|
    decreases |names| - n
  {
    if n == |names| then None
    else if names[n].name.Some? && Lowered(names[n].name.value) == name then Some(names[n].value)
    else First(names, name, n + 1)
  }

  ghost predicate Hashed(names: seq<Key>) {
    forall i :: 0 <= i < |names| && names[i].name.Some? ==> names[i].hash == KeyOf(Lowered(names[i].name.value))
  }

  // The bucket of the key has all that could match.
  lemma {:induction false} BucketEnough(names: seq<Key>, size: nat, name: seq<byte>, n: nat)
    requires size > 0 && n <= |names| && Hashed(names)
    ensures FirstIn(List(names, size, KeyOf(name) % size, n), name) == First(names, name, n)
    decreases |names| - n
  {
    hide Lowered, KeyOf;
    if n < |names| {
      BucketEnough(names, size, name, n + 1);
      var b := KeyOf(name) % size;
      if In(names[n], size, b) {
        assert List(names, size, b, n)[1..] == List(names, size, b, n + 1);
      } else {
        assert List(names, size, b, n) == List(names, size, b, n + 1);
      }
    }
  }

  // ----- the size

  predicate Fits(names: seq<Key>, size: nat, limit: nat)
    requires size > 0
  {
    forall b :: 0 <= b < size ==> Used(names, size, b, |names|) <= limit
  }

  // The first size from `start` on with all buckets short enough, else the last.
  ghost predicate Chosen(names: seq<Key>, size: nat, start: nat, max: nat, limit: nat) {
    && 0 < size <= max
    && (if size >= start && Fits(names, size, limit) then forall s :: start <= s < size && s > 0 ==> !Fits(names, s, limit)
        else size == max && forall s :: start <= s <= max && s > 0 ==> !Fits(names, s, limit))
  }

  function FirstSize(count: nat, max: nat, limit: nat): nat
    requires limit >= 16
  {
    var start := count / (limit / 16);
    if max > 10000 && count > 0 && max / count < 100 then max - 1000 else if start > 0 then start else 1
  }

  method FindSize(names: seq<Key>, max: nat, limit: nat, test: array<nat>) returns (size: nat)
    requires 16 <= limit < 65536 && 0 < max == test.Length
    modifies test
    ensures Chosen(names, size, FirstSize(|names|, max, limit), max, limit)
  {
    hide Used, Fits;
    var start := |names| / (limit / 16);
    start := if start > 0 then start else 1;
    if max > 10000 && |names| > 0 && max / |names| < 100 {
      start := max - 1000;
    }
    size := start;
    while size <= max
      invariant start <= size && start > 0
      invariant forall s :: start <= s < size && s <= max ==> !Fits(names, s, limit)
    {
      var fits := TestSize(names, size, limit, test);
      if fits {
        return;
      }
      size := size + 1;
    }
    size := max;
  }

  method TestSize(names: seq<Key>, size: nat, limit: nat, test: array<nat>) returns (fits: bool)
    requires 0 < size <= test.Length && limit < 65536
    modifies test
    ensures fits <==> Fits(names, size, limit)
  {
    ClearTest(test, size, 0);
    var n := 0;
    while n < |names|
      invariant 0 <= n <= |names|
      invariant forall b :: 0 <= b < size ==> test[b] == Used(names, size, b, n) <= limit
    {
      if names[n].name.Some? {
        var key := names[n].hash % size;
        var len := test[key] + EltSize(|names[n].name.value|);
        if len > limit {
          UsedGrows(names, size, key, n + 1, |names|);
          return false;
        }
        test[key] := len % 65536;
      }
      n := n + 1;
    }
    return true;
  }

  method ClearTest(test: array<nat>, size: nat, v: nat)
    requires size <= test.Length
    modifies test
    ensures forall b :: 0 <= b < size ==> test[b] == v
  {
    var i := 0;
    while i < size
      invariant 0 <= i <= size && forall b :: 0 <= b < i ==> test[b] == v
    {
      test[i] := v;
      i := i + 1;
    }
  }

  // ----- where the buckets are

  // A bucket with its end, in whole lines; an empty one takes no place.
  function Cap(names: seq<Key>, size: nat, b: nat): (c: nat)
    requires size > 0
    ensures c % Line == 0 && (Used(names, size, b, |names|) > 0 ==> c >= 8 + Used(names, size, b, |names|))
  {
    var u := Used(names, size, b, |names|);
    if u == 0 then 0 else AlignLine(8 + u)
  }

  function Base(names: seq<Key>, size: nat, b: nat): (a: nat)
    requires size > 0
    ensures a % Line == 0
  {
    if b == 0 then 0 else Base(names, size, b - 1) + Cap(names, size, b - 1)
  }

  lemma {:induction false} BasesGrow(names: seq<Key>, size: nat, b: nat, c: nat)
    requires size > 0 && b < c
    ensures Base(names, size, b) + Cap(names, size, b) <= Base(names, size, c)
    decreases c
  {
    if b < c - 1 { BasesGrow(names, size, b, c - 1); }
  }

  // Where name n goes.
  function Addr(names: seq<Key>, size: nat, n: nat): (a: nat)
    requires size > 0 && n < |names| && names[n].name.Some?
    ensures a % 8 == 0
  {
    UsedEven(names, size, names[n].hash % size, n);
    Base(names, size, names[n].hash % size) + Used(names, size, names[n].hash % size, n)
  }

  lemma {:induction false} UsedEven(names: seq<Key>, size: nat, b: nat, n: nat)
    requires size > 0 && n <= |names|
    ensures Used(names, size, b, n) % 8 == 0
  {
    if n > 0 { UsedEven(names, size, b, n - 1); }
  }

  // The end of bucket b.
  function EndAddr(names: seq<Key>, size: nat, b: nat): nat
    requires size > 0
  {
    Base(names, size, b) + Used(names, size, b, |names|)
  }

  // Elements and ends do not overlap, and stay in their buckets.
  lemma AddrsApart(names: seq<Key>, size: nat, n: nat, m: nat)
    requires size > 0 && n < m < |names| && names[n].name.Some? && names[m].name.Some?
    ensures Addr(names, size, n) + EltSize(|names[n].name.value|) <= Addr(names, size, m)
         || Addr(names, size, m) + EltSize(|names[m].name.value|) <= Addr(names, size, n)
  {
    var b, c := names[n].hash % size, names[m].hash % size;
    if b == c {
      UsedGrows(names, size, b, n, m);
    } else {
      UsedGrows(names, size, b, n, |names|);
      UsedGrows(names, size, c, m, |names|);
      if b < c { BasesGrow(names, size, b, c); } else { BasesGrow(names, size, c, b); }
    }
  }

  lemma EndApart(names: seq<Key>, size: nat, n: nat, b: nat)
    requires size > 0 && n < |names| && names[n].name.Some? && b < size && Used(names, size, b, |names|) > 0
    ensures Addr(names, size, n) + EltSize(|names[n].name.value|) <= EndAddr(names, size, b)
         || EndAddr(names, size, b) + 8 <= Addr(names, size, n)
  {
    var c := names[n].hash % size;
    UsedGrows(names, size, c, n, |names|);
    if b < c { BasesGrow(names, size, b, c); } else if c < b { BasesGrow(names, size, c, b); }
  }

  lemma EndsApart(names: seq<Key>, size: nat, b: nat, c: nat)
    requires size > 0 && b < c && Used(names, size, b, |names|) > 0
    ensures EndAddr(names, size, b) + 8 <= EndAddr(names, size, c)
  {
    BasesGrow(names, size, b, c);
  }

  // ----- filling

  ghost predicate Placed(elts: map<nat, Elt>, names: seq<Key>, size: nat, n: nat)
    requires size > 0 && n <= |names|
  {
    forall i {:trigger names[i]} :: 0 <= i < n && names[i].name.Some? ==> Addr(names, size, i) in elts && elts[Addr(names, size, i)] == EltOf(names[i])
  }

  ghost predicate Ended(elts: map<nat, Elt>, names: seq<Key>, size: nat, c: nat)
    requires size > 0
  {
    forall b :: 0 <= b < c && Used(names, size, b, |names|) > 0 ==> EndAddr(names, size, b) in elts && elts[EndAddr(names, size, b)] == End
  }

  // Where an element may stand: the place of a name or an end.
  ghost predicate Spot(names: seq<Key>, size: nat, n: nat, c: nat, a: nat, e: Elt)
    requires size > 0 && n <= |names|
  {
    || (exists i {:trigger names[i]} :: 0 <= i < n && names[i].name.Some? && a == Addr(names, size, i) && e == EltOf(names[i]))
    || (exists b {:trigger EndAddr(names, size, b)} :: 0 <= b < c && Used(names, size, b, |names|) > 0 && a == EndAddr(names, size, b) && e == End)
  }

  ghost predicate Spots(elts: map<nat, Elt>, names: seq<Key>, size: nat, n: nat, c: nat)
    requires size > 0 && n <= |names|
  {
    forall a :: a in elts ==> Spot(names, size, n, c, a, elts[a])
  }

  predicate Valued(names: seq<Key>) { forall i :: 0 <= i < |names| && names[i].name.Some? ==> names[i].value > 0 }

  // From name n on a bucket lists what it should.
  lemma {:induction false} Listed(elts: map<nat, Elt>, names: seq<Key>, size: nat, b: nat, n: nat)
    requires b < size && n <= |names| && Placed(elts, names, size, |names|) && Ended(elts, names, size, size) && Valued(names)
    requires Used(names, size, b, |names|) > 0
    ensures Chain(elts, Base(names, size, b) + Used(names, size, b, n), List(names, size, b, n))
    decreases |names| - n
  {
    hide EltSize, Lowered, Used, List, Base, Placed, Ended, Addr;
    UsedEven(names, size, b, n);
    NextListed(names, size, b, n);
    if n < |names| {
      Listed(elts, names, size, b, n + 1);
      if In(names[n], size, b) {
        PlacedAt(elts, names, size, n);
      }
    } else {
      EndedAt(elts, names, size, b);
    }
  }

  lemma NextListed(names: seq<Key>, size: nat, b: nat, n: nat)
    requires size > 0 && n <= |names|
    ensures n == |names| ==> List(names, size, b, n) == []
    ensures n < |names| && In(names[n], size, b) ==>
      List(names, size, b, n) == [EltOf(names[n])] + List(names, size, b, n + 1) && List(names, size, b, n)[1..] == List(names, size, b, n + 1)
    ensures n < |names| && In(names[n], size, b) ==> Used(names, size, b, n + 1) == Used(names, size, b, n) + EltSize(|names[n].name.value|)
    ensures n < |names| && In(names[n], size, b) ==> Addr(names, size, n) == Base(names, size, b) + Used(names, size, b, n)
    ensures n < |names| && !In(names[n], size, b) ==>
      List(names, size, b, n) == List(names, size, b, n + 1) && Used(names, size, b, n + 1) == Used(names, size, b, n)
  {
    hide EltSize, Lowered, Base;
  }

  lemma PlacedAt(elts: map<nat, Elt>, names: seq<Key>, size: nat, n: nat)
    requires size > 0 && n < |names| && Placed(elts, names, size, |names|) && Valued(names) && names[n].name.Some?
    ensures Addr(names, size, n) in elts && elts[Addr(names, size, n)] == EltOf(names[n]) && EltOf(names[n]).value > 0
    ensures |EltOf(names[n]).name| == |names[n].name.value|
  {
  }

  lemma EndedAt(elts: map<nat, Elt>, names: seq<Key>, size: nat, b: nat)
    requires b < size && Ended(elts, names, size, size) && Used(names, size, b, |names|) > 0
    ensures var a := Base(names, size, b) + Used(names, size, b, |names|); a in elts && elts[a] == End
  {
    assert EndAddr(names, size, b) == Base(names, size, b) + Used(names, size, b, |names|);
  }

  lemma {:induction false} NothingListed(names: seq<Key>, size: nat, b: nat, n: nat)
    requires size > 0 && n <= |names| && Used(names, size, b, |names|) == 0
    ensures List(names, size, b, n) == []
    decreases |names| - n
  {
    hide Used, List;
    NextListed(names, size, b, n);
    if n < |names| {
      NothingListed(names, size, b, n + 1);
      UsedGrows(names, size, b, n, |names|);
    }
  }

  // The bytes of one element.
  function Extent(e: Elt): nat { if e.value == 0 then 8 else 10 + |e.name| }

  // No two elements overlap, and all are in the memory of the buckets.
  ghost predicate Apart(elts: map<nat, Elt>, total: nat) {
    && (forall a :: a in elts ==> a + Extent(elts[a]) <= total)
    && (forall a, c :: a in elts && c in elts && a < c ==> a + Extent(elts[a]) <= c)
  }

  lemma SpotInside(names: seq<Key>, size: nat, a: nat, e: Elt)
    requires size > 0 && Valued(names) && Spot(names, size, |names|, size, a, e)
    ensures a + Extent(e) <= Base(names, size, size)
  {
    hide EltSize, Lowered;
    if i :| 0 <= i < |names| && names[i].name.Some? && a == Addr(names, size, i) && e == EltOf(names[i]) {
      var b := names[i].hash % size;
      UsedGrows(names, size, b, i, |names|);
      BasesGrow(names, size, b, size);
      SizeCovers(|names[i].name.value|);
    } else {
      var b :| 0 <= b < size && Used(names, size, b, |names|) > 0 && a == EndAddr(names, size, b) && e == End;
      BasesGrow(names, size, b, size);
    }
  }

  lemma SizeCovers(len: nat)
    ensures EltSize(len) >= 10 + len
  {
  }

  lemma SpotsClear(names: seq<Key>, size: nat, a: nat, e: Elt, c: nat, f: Elt)
    requires size > 0 && Valued(names) && Spot(names, size, |names|, size, a, e) && Spot(names, size, |names|, size, c, f) && a < c
    ensures a + Extent(e) <= c
  {
    hide EltSize, Lowered, Addr, EndAddr;
    if i :| 0 <= i < |names| && names[i].name.Some? && a == Addr(names, size, i) && e == EltOf(names[i]) {
      SizeCovers(|names[i].name.value|);
      if j :| 0 <= j < |names| && names[j].name.Some? && c == Addr(names, size, j) && f == EltOf(names[j]) {
        if i < j { AddrsApart(names, size, i, j); } else if j < i { AddrsApart(names, size, j, i); }
      } else {
        var b :| 0 <= b < size && Used(names, size, b, |names|) > 0 && c == EndAddr(names, size, b) && f == End;
        EndApart(names, size, i, b);
      }
    } else {
      var b :| 0 <= b < size && Used(names, size, b, |names|) > 0 && a == EndAddr(names, size, b) && e == End;
      if j :| 0 <= j < |names| && names[j].name.Some? && c == Addr(names, size, j) && f == EltOf(names[j]) {
        EndApart(names, size, j, b);
      } else {
        var d :| 0 <= d < size && Used(names, size, d, |names|) > 0 && c == EndAddr(names, size, d) && f == End;
        if b < d { EndsApart(names, size, b, d); } else if d < b { EndsApart(names, size, d, b); }
      }
    }
  }

  lemma AllApart(elts: map<nat, Elt>, names: seq<Key>, size: nat)
    requires size > 0 && Valued(names) && Spots(elts, names, size, |names|, size)
    ensures Apart(elts, Base(names, size, size))
  {
    hide Spot, Extent;
    forall a | a in elts ensures a + Extent(elts[a]) <= Base(names, size, size) {
      SpotInside(names, size, a, elts[a]);
    }
    forall a, c | a in elts && c in elts && a < c ensures a + Extent(elts[a]) <= c {
      SpotsClear(names, size, a, elts[a], c, elts[c]);
    }
  }

  // ----- building

  datatype Result = Built(table: Table) | BadMaxSize | BucketTooLarge | NameTooLong | BucketTooFull

  const Most: nat := 65536 - Line

  predicate TooLong(k: Key, bucketSize: nat) { k.name.Some? && bucketSize < EltSize(|k.name.value|) + 8 }

  predicate Full(names: seq<Key>, size: nat, b: nat)
    requires size > 0
  {
    Used(names, size, b, |names|) > 0 && 8 + Used(names, size, b, |names|) > Most
  }

  // ngx_hash_init
  method Init(names: seq<Key>, maxSize: nat, bucketSize: nat) returns (r: Result, ghost size: nat)
    requires Valued(names) && (bucketSize >= 24 || maxSize == 0 || exists n :: 0 <= n < |names| && names[n].name.Some?)
    ensures r == BadMaxSize <==> maxSize == 0
    ensures r == BucketTooLarge <==> maxSize > 0 && bucketSize > Most
    ensures r == NameTooLong <==> maxSize > 0 && bucketSize <= Most && exists n {:trigger names[n]} :: 0 <= n < |names| && TooLong(names[n], bucketSize)
    ensures r.Built? || r == BucketTooFull ==> bucketSize >= 24 && Chosen(names, size, FirstSize(|names|, maxSize, bucketSize - 8), maxSize, bucketSize - 8)
    ensures r == BucketTooFull ==> exists b :: 0 <= b < size && Full(names, size, b)
    ensures r.Built? ==> r.table.size == size && Holds(r.table, names) && Apart(r.table.elts, Base(names, size, size)) && forall b :: 0 <= b < size ==> !Full(names, size, b)
  {
    hide Fits, Used, Holds, Apart, Chosen, Base, EltSize, Full;
    size := 0;
    if maxSize == 0 {
      return BadMaxSize, size;
    }
    if bucketSize > Most {
      return BucketTooLarge, size;
    }
    var n := 0;
    while n < |names|
      invariant 0 <= n <= |names| && forall i :: 0 <= i < n ==> !TooLong(names[i], bucketSize)
    {
      if names[n].name.Some? {
        if bucketSize < EltSize(|names[n].name.value|) + 8 {
          return NameTooLong, size;
        }
      }
      n := n + 1;
    }
    RoomForOne(names, bucketSize);
    var test := new nat[maxSize];
    var s := FindSize(names, maxSize, bucketSize - 8, test);
    size := s;
    SizeIn(names, s, FirstSize(|names|, maxSize, bucketSize - 8), maxSize, bucketSize - 8);
    var full := Lengths(names, s, test);
    if full {
      return BucketTooFull, size;
    }
    var buckets := Lines(names, s, test);
    var elts := Fill(names, s, test, buckets);
    FilledHolds(Table(buckets, s, elts), names);
    AllApart(elts, names, s);
    r := Built(Table(buckets, s, elts));
  }

  // A bucket that is long enough for its names has room for one.
  lemma RoomForOne(names: seq<Key>, bucketSize: nat)
    requires bucketSize >= 24 || exists n :: 0 <= n < |names| && names[n].name.Some?
    requires forall i :: 0 <= i < |names| ==> !TooLong(names[i], bucketSize)
    ensures bucketSize >= 24
  {
  }

  lemma SizeIn(names: seq<Key>, size: nat, start: nat, max: nat, limit: nat)
    requires Chosen(names, size, start, max, limit)
    ensures 0 < size <= max
  {
  }

  // The length of each bucket, its end included.
  method Lengths(names: seq<Key>, size: nat, test: array<nat>) returns (full: bool)
    requires 0 < size <= test.Length
    modifies test
    ensures full ==> exists b :: 0 <= b < size && Full(names, size, b)
    ensures !full ==> forall b :: 0 <= b < size ==> test[b] == 8 + Used(names, size, b, |names|) && !Full(names, size, b)
  {
    hide EltSize;
    ClearTest(test, size, 8);
    var n := 0;
    while n < |names|
      invariant 0 <= n <= |names|
      invariant forall b :: 0 <= b < size ==> test[b] == 8 + Used(names, size, b, n) && (test[b] == 8 || test[b] <= Most)
    {
      if names[n].name.Some? {
        var key := names[n].hash % size;
        var len := test[key] + EltSize(|names[n].name.value|);
        SizeCovers(|names[n].name.value|);
        if len > Most {
          UsedGrows(names, size, key, n + 1, |names|);
          assert Full(names, size, key);
          return true;
        }
        test[key] := len % 65536;
      }
      n := n + 1;
    }
    return false;
  }

  // Buckets take whole cache lines, one after the other; empty ones have none.
  method Lines(names: seq<Key>, size: nat, test: array<nat>) returns (buckets: seq<Option<nat>>)
    requires 0 < size <= test.Length
    requires forall b :: 0 <= b < size ==> test[b] == 8 + Used(names, size, b, |names|) && !Full(names, size, b)
    modifies test
    ensures |buckets| == size
    ensures forall b :: 0 <= b < size ==> buckets[b] == Place(names, size, b)
  {
    hide Used, Full, Cap, Base, Place, CapOrEnd;
    WholeLines(names, size, test);
    var elts, i := 0, 0;
    buckets := [];
    NoBase(names, size);
    while i < size
      invariant 0 <= i <= size && |buckets| == i && elts == Base(names, size, i)
      invariant forall b :: 0 <= b < i ==> buckets[b] == Place(names, size, b)
      modifies {}
    {
      NextBase(names, size, i);
      if test[i] == 8 {
        buckets := buckets + [None];
      } else {
        buckets := buckets + [Some(elts)];
        elts := elts + test[i];
      }
      i := i + 1;
    }
  }

  // The address of a bucket, if it has one.
  function Place(names: seq<Key>, size: nat, b: nat): Option<nat>
    requires size > 0
  {
    if Used(names, size, b, |names|) == 0 then None else Some(Base(names, size, b))
  }

  function CapOrEnd(names: seq<Key>, size: nat, b: nat): nat
    requires size > 0
  {
    if Used(names, size, b, |names|) == 0 then 8 else Cap(names, size, b)
  }

  lemma NoBase(names: seq<Key>, size: nat)
    requires size > 0
    ensures Base(names, size, 0) == 0
  {
  }

  lemma NextBase(names: seq<Key>, size: nat, b: nat)
    requires size > 0
    ensures Place(names, size, b) == if CapOrEnd(names, size, b) == 8 then None else Some(Base(names, size, b))
    ensures Base(names, size, b + 1) == Base(names, size, b) + if CapOrEnd(names, size, b) == 8 then 0 else CapOrEnd(names, size, b)
  {
  }

  method WholeLines(names: seq<Key>, size: nat, test: array<nat>)
    requires 0 < size <= test.Length
    requires forall b :: 0 <= b < size ==> test[b] == 8 + Used(names, size, b, |names|) && !Full(names, size, b)
    modifies test
    ensures forall b :: 0 <= b < size ==> test[b] == CapOrEnd(names, size, b)
  {
    hide Used, Cap, CapOrEnd;
    var i := 0;
    while i < size
      invariant 0 <= i <= size
      invariant forall b :: 0 <= b < i ==> test[b] == CapOrEnd(names, size, b)
      invariant forall b :: i <= b < size ==> test[b] == 8 + Used(names, size, b, |names|)
    {
      assert !Full(names, size, i);
      CapIs(names, size, i);
      if test[i] != 8 {
        LineFits(test[i]);
        test[i] := AlignLine(test[i]) % 65536;
      }
      i := i + 1;
    }
  }

  lemma CapIs(names: seq<Key>, size: nat, b: nat)
    requires size > 0
    ensures CapOrEnd(names, size, b) == if Used(names, size, b, |names|) == 0 then 8 else AlignLine(8 + Used(names, size, b, |names|))
  {
  }

  lemma LineFits(n: nat)
    requires n <= Most
    ensures AlignLine(n) <= Most
  {
  }

  // The elements, and the ends of the buckets.
  method Fill(names: seq<Key>, size: nat, test: array<nat>, buckets: seq<Option<nat>>) returns (elts: map<nat, Elt>)
    requires 0 < size <= test.Length && |buckets| == size
    requires forall b :: 0 <= b < size ==> buckets[b] == Place(names, size, b)
    requires forall b :: 0 <= b < size ==> !Full(names, size, b)
    modifies test
    ensures Placed(elts, names, size, |names|) && Ended(elts, names, size, size) && Spots(elts, names, size, |names|, size)
  {
    hide Placed, Ended, Spots, EltSize, Base, Used, Full, Place, Addr, EndAddr;
    ClearTest(test, size, 0);
    elts := map[];
    NonePlaced(names, size);
    var n := 0;
    while n < |names|
      invariant 0 <= n <= |names| && Placed(elts, names, size, n) && Spots(elts, names, size, n, 0)
      invariant forall b :: 0 <= b < size ==> test[b] == Used(names, size, b, n)
    {
      if names[n].name.Some? {
        var key := names[n].hash % size;
        assert !Full(names, size, key);
        NextPlace(names, size, n);
        PlaceOne(elts, names, size, n);
        elts := elts[buckets[key].value + test[key] := Elt(names[n].value, Lowered(names[n].name.value))];
        test[key] := (test[key] + EltSize(|names[n].name.value|)) % 65536;
      } else {
        PassOne(elts, names, size, n);
        OthersSame(names, size, n);
      }
      n := n + 1;
    }
    var i := 0;
    NoneEnded(elts, names, size);
    while i < size
      invariant 0 <= i <= size && Placed(elts, names, size, |names|) && Ended(elts, names, size, i) && Spots(elts, names, size, |names|, i)
      modifies {}
    {
      EndOne(elts, names, size, i);
      EndPlace(names, size, i);
      if buckets[i] != None {
        elts := elts[buckets[i].value + test[i] := End];
      }
      i := i + 1;
    }
  }

  lemma NonePlaced(names: seq<Key>, size: nat)
    requires size > 0
    ensures Placed(map[], names, size, 0) && Spots(map[], names, size, 0, 0) && forall b :: Used(names, size, b, 0) == 0
  {
  }

  lemma NoneEnded(elts: map<nat, Elt>, names: seq<Key>, size: nat)
    requires size > 0
    ensures Ended(elts, names, size, 0)
  {
  }

  lemma PlaceOne(elts: map<nat, Elt>, names: seq<Key>, size: nat, n: nat)
    requires size > 0 && n < |names| && names[n].name.Some? && Placed(elts, names, size, n) && Spots(elts, names, size, n, 0)
    ensures var a := Addr(names, size, n);
      Placed(elts[a := EltOf(names[n])], names, size, n + 1) && Spots(elts[a := EltOf(names[n])], names, size, n + 1, 0)
  {
    hide EltSize, Lowered, Addr, EndAddr, EltOf;
    var a := Addr(names, size, n);
    var elts' := elts[a := EltOf(names[n])];
    forall i {:trigger names[i]} | 0 <= i < n && names[i].name.Some? ensures Addr(names, size, i) != a {
      AddrsApart(names, size, i, n);
      SizeCovers(|names[i].name.value|);
      SizeCovers(|names[n].name.value|);
    }
    forall x | x in elts' ensures Spot(names, size, n + 1, 0, x, elts'[x]) {
      if x != a { assert Spot(names, size, n, 0, x, elts[x]); }
    }
  }

  lemma NextPlace(names: seq<Key>, size: nat, n: nat)
    requires size > 0 && n < |names| && names[n].name.Some? && !Full(names, size, names[n].hash % size)
    ensures var b := names[n].hash % size;
      && Place(names, size, b).Some? && Place(names, size, b).value + Used(names, size, b, n) == Addr(names, size, n)
      && Used(names, size, b, n + 1) == Used(names, size, b, n) + EltSize(|names[n].name.value|) < 65536
      && forall c :: c != b ==> Used(names, size, c, n + 1) == Used(names, size, c, n)
  {
    hide EltSize, Base;
    var b := names[n].hash % size;
    SizeCovers(|names[n].name.value|);
    UsedGrows(names, size, b, n, |names|);
  }

  lemma OthersSame(names: seq<Key>, size: nat, n: nat)
    requires size > 0 && n < |names| && names[n].name.None?
    ensures forall c :: Used(names, size, c, n + 1) == Used(names, size, c, n)
  {
  }

  lemma EndPlace(names: seq<Key>, size: nat, b: nat)
    requires size > 0
    ensures Place(names, size, b).None? <==> Used(names, size, b, |names|) == 0
    ensures Place(names, size, b).Some? ==> Place(names, size, b).value + Used(names, size, b, |names|) == EndAddr(names, size, b)
  {
  }

  lemma PassOne(elts: map<nat, Elt>, names: seq<Key>, size: nat, n: nat)
    requires size > 0 && n < |names| && names[n].name.None? && Placed(elts, names, size, n) && Spots(elts, names, size, n, 0)
    ensures Placed(elts, names, size, n + 1) && Spots(elts, names, size, n + 1, 0)
  {
    hide EltSize, Lowered, Base, Used;
    forall x | x in elts ensures Spot(names, size, n + 1, 0, x, elts[x]) {
      assert Spot(names, size, n, 0, x, elts[x]);
    }
  }

  lemma EndOne(elts: map<nat, Elt>, names: seq<Key>, size: nat, c: nat)
    requires c < size && Placed(elts, names, size, |names|) && Ended(elts, names, size, c) && Spots(elts, names, size, |names|, c)
    ensures var a := EndAddr(names, size, c);
      var elts' := if Used(names, size, c, |names|) == 0 then elts else elts[a := End];
      Placed(elts', names, size, |names|) && Ended(elts', names, size, c + 1) && Spots(elts', names, size, |names|, c + 1)
  {
    hide Placed, Ended, Spots, Used, EndAddr;
    if Used(names, size, c, |names|) > 0 {
      EndKeepsPlaces(elts, names, size, c);
    }
    EndAdds(elts, names, size, c);
    EndSpots(elts, names, size, c);
  }

  lemma EndKeepsPlaces(elts: map<nat, Elt>, names: seq<Key>, size: nat, c: nat)
    requires c < size && Placed(elts, names, size, |names|) && Used(names, size, c, |names|) > 0
    ensures Placed(elts[EndAddr(names, size, c) := End], names, size, |names|)
  {
    hide EltSize, Lowered, Addr, EndAddr, EltOf, Used;
    forall i {:trigger names[i]} | 0 <= i < |names| && names[i].name.Some? ensures Addr(names, size, i) != EndAddr(names, size, c) {
      EndApart(names, size, i, c);
      SizeCovers(|names[i].name.value|);
    }
  }

  lemma EndAdds(elts: map<nat, Elt>, names: seq<Key>, size: nat, c: nat)
    requires c < size && Ended(elts, names, size, c)
    ensures Ended(if Used(names, size, c, |names|) == 0 then elts else elts[EndAddr(names, size, c) := End], names, size, c + 1)
  {
    hide EndAddr, Used;
    if Used(names, size, c, |names|) > 0 {
      forall b | 0 <= b < c && Used(names, size, b, |names|) > 0 ensures EndAddr(names, size, b) != EndAddr(names, size, c) {
        EndsApart(names, size, b, c);
      }
    }
  }

  lemma EndSpots(elts: map<nat, Elt>, names: seq<Key>, size: nat, c: nat)
    requires c < size && Spots(elts, names, size, |names|, c)
    ensures Spots(if Used(names, size, c, |names|) == 0 then elts else elts[EndAddr(names, size, c) := End], names, size, |names|, c + 1)
  {
    hide EltSize, Lowered, Addr, EndAddr, EltOf, Used;
    var a := EndAddr(names, size, c);
    var elts' := if Used(names, size, c, |names|) == 0 then elts else elts[a := End];
    forall x | x in elts' ensures Spot(names, size, |names|, c + 1, x, elts'[x]) {
      if x in elts && elts'[x] == elts[x] { assert Spot(names, size, |names|, c, x, elts[x]); }
    }
  }

  lemma {:induction false} FilledHolds(h: Table, names: seq<Key>)
    requires h.size > 0 && |h.buckets| == h.size && Valued(names)
    requires forall b :: 0 <= b < h.size ==> h.buckets[b] == Place(names, h.size, b)
    requires Placed(h.elts, names, h.size, |names|) && Ended(h.elts, names, h.size, h.size)
    ensures Holds(h, names)
  {
    hide Placed, Ended, Chain, Base;
    forall b | 0 <= b < h.size ensures BucketHolds(h, names, b) {
      if Used(names, h.size, b, |names|) == 0 {
        NothingListed(names, h.size, b, 0);
      } else {
        Listed(h.elts, names, h.size, b, 0);
      }
    }
  }

  // Built for names hashed in lower case, the table answers with the first of
  // them that is the query, or none.
  method Query(h: Table, name: seq<byte>, ghost names: seq<Key>) returns (value: Option<nat>)
    requires Holds(h, names) && Hashed(names)
    ensures value == First(names, Lowered(name), 0)
  {
    hide Holds, Hashed, First, FirstIn, List, KeyOf, Lowered;
    var key := KeyLc(name);
    assert h.size > 0 by { HoldsSize(h, names); }
    value := Find(h, key, Lowered(name), names);
    BucketEnough(names, h.size, Lowered(name), 0);
  }

  lemma HoldsSize(h: Table, names: seq<Key>)
    requires Holds(h, names)
    ensures h.size > 0
  {
  }
}
