// The text of IPv4 and IPv6 addresses (section 2.2 of RFC 4291), printed and
// parsed.
module Inet {
  import opened Options

  newtype byte = n: int | 0 <= n < 256

  // ----- numbers in text

  predicate IsDigit(c: char) { '0' <= c <= '9' }

  function HexValue(c: char): Option<nat> {
    if '0' <= c <= '9' then Some((c - '0') as nat)
    else if 'a' <= c <= 'f' then Some((c - 'a') as nat + 10)
    else if 'A' <= c <= 'F' then Some((c - 'A') as nat + 10)
    else None
  }

  lemma HexBoth(v: nat)
    requires v < 16
    ensures HexValue("0123456789ABCDEF"[v]) == HexValue("0123456789abcdef"[v]) == Some(v)
  {
  }

  function HexDigit(v: nat): (c: char)
    requires v < 16
    ensures HexValue(c) == Some(v) && c != ':' && c != '.'
  {
    "0123456789abcdef"[v]
  }

  // %xd: without leading zeros.
  function Hex(v: nat): (s: string)
    ensures s != []
  {
    if v < 16 then [HexDigit(v)] else Hex(v / 16) + [HexDigit(v % 16)]
  }

  function DecDigit(v: nat): (c: char)
    requires v < 10
    ensures '0' <= c <= '9' && (c - '0') as nat == v && HexValue(c) == Some(v)
  {
    "0123456789"[v]
  }

  // %ud
  function Dec(v: nat): (s: string)
    ensures s != []
  {
    if v < 10 then [DecDigit(v)] else Dec(v / 10) + [DecDigit(v % 10)]
  }

  // %ud.%ud.%ud.%ud
  function Quad(a: nat, b: nat, c: nat, d: nat): string {
    Dec(a) + ("." + (Dec(b) + ("." + (Dec(c) + ("." + Dec(d))))))
  }

  // ----- IPv4

  // ngx_inet_addr: the four octets in one number, none for INADDR_NONE, which
  // stands for an error too.
  method InetAddr(text: string) returns (addr: Option<nat>)
    ensures addr == Addr4(text)
  {
    hide Octets;
    var octet: nat, n: nat, sum: nat := 0, 0, 0;
    var i := 0;
    assert text[0..] == text;
    while i < |text|
      invariant 0 <= i <= |text| && Octets(text, 0, 0, 0) == Octets(text[i..], octet, n, sum)
    {
      OctetsAt(text, i, octet, n, sum);
      var c := text[i];
      i := i + 1;
      if IsDigit(c) {
        octet := octet * 10 + (c - '0') as nat;
        if octet > 255 {
          return None;
        }
        continue;
      }
      if c == '.' {
        sum := Shift(sum, octet);
        octet := 0;
        n := n + 1;
        continue;
      }
      return None;
    }
    assert text[i..] == [];
    OctetsEnd(octet, n, sum);
    if n == 3 {
      sum := Shift(sum, octet);
      return if sum == 0xffff_ffff then None else Some(sum);
    }
    return None;
  }

  function Addr4(text: string): Option<nat> {
    match Octets(text, 0, 0, 0)
    case None => None
    case Some(v) => if v == 0xffff_ffff then None else Some(v)
  }

  // In 32 bits.
  function Shift(sum: nat, octet: nat): nat { sum * 256 % 0x1_0000_0000 + octet }

  function Octets(s: string, octet: nat, n: nat, sum: nat): Option<nat> {
    if s == [] then (if n == 3 then Some(Shift(sum, octet)) else None)
    else if IsDigit(s[0]) then
      var v := octet * 10 + (s[0] - '0') as nat;
      if v > 255 then None else Octets(s[1..], v, n, sum)
    else if s[0] == '.' then Octets(s[1..], 0, n + 1, Shift(sum, octet))
    else None
  }

  lemma OctetsAt(text: string, i: nat, octet: nat, n: nat, sum: nat)
    requires i < |text|
    ensures Octets(text[i..], octet, n, sum) ==
            (if IsDigit(text[i]) then
              (if octet * 10 + (text[i] - '0') as nat > 255 then None else Octets(text[i + 1..], octet * 10 + (text[i] - '0') as nat, n, sum))
            else if text[i] == '.' then Octets(text[i + 1..], 0, n + 1, Shift(sum, octet))
            else None)
  {
    assert text[i..][1..] == text[i + 1..];
  }

  lemma OctetsEnd(octet: nat, n: nat, sum: nat)
    ensures Octets([], octet, n, sum) == if n == 3 then Some(Shift(sum, octet)) else None
  {
  }

  // ----- IPv6: what the text says

  // The groups so far, where "::" stood, the digits of the group begun, and the
  // text after the last colon.
  datatype Scan = Scan(words: seq<nat>, zero: Option<nat>, nibbles: nat, word: nat, tail: Option<string>)

  // The address once the text ends.
  function Finish(t: Scan): Option<seq<nat>> {
    if t.nibbles == 0 && t.zero.None? then None
    else
      var words := t.words + [t.word];
      if |words| > 8 then None
      else if |words| == 8 then (if t.zero.None? then Some(words) else None)
      else if t.zero.Some? && t.zero.value <= |words| then Some(words[..t.zero.value] + Zeros(8 - |words|) + words[t.zero.value..])
      else None
  }

  function Zeros(n: nat): (z: seq<nat>)
    ensures |z| == n && forall i :: 0 <= i < n ==> z[i] == 0
  {
    seq(n, _ => 0)
  }

  // One more character, other than a dot that starts an IPv4 address.
  function Next(t: Scan, c: char, rest: string): Option<Scan> {
    if c == ':' then
      if t.nibbles > 0 then
        (if |t.words| + 1 < 8 then Some(Scan(t.words + [t.word], t.zero, 0, 0, Some(rest))) else None)
      else if t.zero.None? then Some(t.(zero := Some(|t.words|), tail := Some(rest)))
      else None
    else if t.nibbles >= 4 || HexValue(c).None? then None
    else Some(t.(nibbles := t.nibbles + 1, word := t.word * 16 + HexValue(c).value))
  }

  // The last two groups as an IPv4 address.
  function Embedded(t: Scan): Option<seq<nat>> {
    if |t.words| > 6 || t.tail.None? then None
    else
      match Addr4(t.tail.value)
      case None => None
      case Some(v) => Finish(t.(words := t.words + [v / 65536 % 65536], word := v % 65536))
  }

  function ScanFrom(s: string, t: Scan): Option<seq<nat>> {
    if s == [] then Finish(t)
    else if s[0] == '.' && t.nibbles > 0 then Embedded(t)
    else
      match Next(t, s[0], s[1..])
      case None => None
      case Some(t') => ScanFrom(s[1..], t')
  }

  // A digit, or none.
  function ScanHex(rest: string, t: Scan, c: char): Option<seq<nat>> {
    if t.nibbles >= 4 || HexValue(c).None? then None
    else ScanFrom(rest, t.(nibbles := t.nibbles + 1, word := t.word * 16 + HexValue(c).value))
  }

  const Start: Scan := Scan([], None, 0, 0, None)

  function Parse(text: string): Option<seq<nat>> {
    if text == [] then None
    else if text[0] == ':' then ScanFrom(text[1..], Start)
    else ScanFrom(text, Start)
  }

  // ----- IPv6: the text of an address

  predicate IsAddress(w: seq<nat>) { |w| == 8 && forall i :: 0 <= i < 8 ==> w[i] < 65536 }

  predicate ZeroRun(w: seq<nat>, z: nat, m: nat) {
    z + m <= |w| && forall i :: z <= i < z + m ==> w[i] == 0
  }

  // The first of the longest runs of two zero groups or more, if there is one.
  ghost predicate FirstLongest(w: seq<nat>, z: Option<nat>, m: nat) {
    match z
    case None => m == 1 && forall a: nat, k: nat :: ZeroRun(w, a, k) ==> k <= 1
    case Some(b) => m >= 2 && ZeroRun(w, b, m) && forall a: nat, k: nat :: ZeroRun(w, a, k) ==> k < m || (k == m && a >= b)
  }

  // Whether the last two groups are printed as an IPv4 address.
  predicate Mapped(w: seq<nat>, z: Option<nat>, m: nat)
    requires |w| == 8
  {
    z == Some(0) && ((m == 5 && w[5] == 0xffff) || m == 6 || (m == 7 && w[7] / 256 != 0 && w[7] % 256 != 1))
  }

  function Dotted(w: seq<nat>): string
    requires |w| == 8
  {
    Quad(w[6] / 256, w[6] % 256, w[7] / 256, w[7] % 256)
  }

  // The text from group i on.
  function Groups(w: seq<nat>, z: Option<nat>, m: nat, i: nat): string
    requires |w| == 8 && m > 0
    decreases 8 - i
  {
    if Mapped(w, z, m) && i >= 6 then Dotted(w)
    else if i >= 8 then ""
    else if z == Some(i) then ":" + Groups(w, z, m, i + m)
    else Hex(w[i]) + (if i < 7 then ":" else "") + Groups(w, z, m, i + 1)
  }

  function Text(w: seq<nat>, z: Option<nat>, m: nat): string
    requires |w| == 8 && m > 0
  {
    (if z == Some(0) then ":" else "") + Groups(w, z, m, 0)
  }

  // ----- the printer

  function Word(p: seq<byte>, g: nat): nat
    requires |p| == 16 && g < 8
  {
    p[2 * g] as nat * 256 + p[2 * g + 1] as nat
  }

  function Words(p: seq<byte>): (w: seq<nat>)
    requires |p| == 16
    ensures IsAddress(w)
  {
    seq(8, g requires 0 <= g < 8 => Word(p, g))
  }

  // The longest run so far, and the zero groups right before group g.
  ghost predicate RunsTo(w: seq<nat>, g: nat, z: Option<nat>, m: nat, last: nat, n: nat) {
    && g <= |w| && n <= g && FirstLongest(w[..g - n], z, m)
    && ZeroRun(w, g - n, n) && (n < g ==> w[g - n - 1] != 0) && (n > 0 ==> last == g - n)
  }

  // Runs end before the one begun, or in it.
  lemma RunEnds(w: seq<nat>, g: nat, z: Option<nat>, m: nat, last: nat, n: nat)
    requires RunsTo(w, g, z, m, last, n)
    ensures n > m ==> FirstLongest(w[..g], Some(last), n)
    ensures n <= m ==> FirstLongest(w[..g], z, m)
  {
    var u, v := w[..g], w[..g - n];
    forall a: nat, k: nat | ZeroRun(u, a, k) && k > 0 && a + k > g - n
      ensures a >= g - n && k <= n
    {
      assert n < g ==> u[g - n - 1] != 0;
    }
    forall a: nat, k: nat | ZeroRun(u, a, k) && a + k <= g - n
      ensures ZeroRun(v, a, k)
    {
    }
    if z.Some? {
      forall i | z.value <= i < z.value + m ensures u[i] == 0 { assert v[i] == 0; }
    }
    forall i | g - n <= i < g ensures u[i] == 0 {}
  }

  // ngx_inet6_ntop
  method Ntop(p: seq<byte>) returns (text: string)
    requires |p| == 16
    ensures exists z: Option<nat>, m: nat :: m > 0 && FirstLongest(Words(p), z, m) && text == Text(Words(p), z, m)
  {
    var z, m := LongestRun(p);
    ghost var w := Words(p);
    var n := 8;
    text := "";
    MappedIff(p, z, m);
    if z == Some(0) {
      if (m == 5 && p[10] == 255 && p[11] == 255) || m == 6 || (m == 7 && p[14] != 0 && p[15] != 1) {
        n := 6;
      }
      text := text + ":";
    }
    hide Printed, Text, Hex, Dec, Quad, FirstLongest, Mapped, Words, Word, Dotted;
    TextStarts(w, z, m, text);
    DottedBytes(p);
    var i := 0;
    while i < n
      invariant i <= 8 && Printed(w, z, m, text, i)
      decreases 8 - i
    {
      if z == Some(i) {
        RunPrinted(w, z, m, text, i);
        text := text + ":";
        i := i + m;
        continue;
      }
      GroupPrinted(w, z, m, text, i);
      WordIs(p, i);
      text := text + Hex(Word(p, i));
      if i < 7 {
        text := text + ":";
      }
      i := i + 1;
    }
    AllPrinted(w, z, m, text, i);
    if n == 6 {
      text := text + Quad(p[12] as nat, p[13] as nat, p[14] as nat, p[15] as nat);
    }
  }

  // The text as far as group i.
  ghost predicate Printed(w: seq<nat>, z: Option<nat>, m: nat, text: string, i: nat) {
    |w| == 8 && m > 0 && Text(w, z, m) == text + Groups(w, z, m, i)
  }

  // The groups printed one by one.
  function Limit(w: seq<nat>, z: Option<nat>, m: nat): nat
    requires |w| == 8
  {
    if Mapped(w, z, m) then 6 else 8
  }

  lemma DottedBytes(p: seq<byte>)
    requires |p| == 16
    ensures Dotted(Words(p)) == Quad(p[12] as nat, p[13] as nat, p[14] as nat, p[15] as nat)
  {
    hide Dec, Words, Word;
    WordIs(p, 6);
    WordIs(p, 7);
  }

  lemma TextStarts(w: seq<nat>, z: Option<nat>, m: nat, text: string)
    requires |w| == 8 && m > 0 && text == if z == Some(0) then ":" else ""
    ensures Printed(w, z, m, text, 0)
  {
  }

  lemma RunPrinted(w: seq<nat>, z: Option<nat>, m: nat, text: string, i: nat)
    requires |w| == 8 && Printed(w, z, m, text, i) && FirstLongest(w, z, m) && i < Limit(w, z, m) && z == Some(i)
    ensures Printed(w, z, m, text + ":", i + m) && i + m <= 8
  {
    hide FirstLongest, Hex, Dec;
    RunInside(w, z, m);
  }

  lemma GroupPrinted(w: seq<nat>, z: Option<nat>, m: nat, text: string, i: nat)
    requires |w| == 8 && Printed(w, z, m, text, i) && i < Limit(w, z, m) && z != Some(i)
    ensures Printed(w, z, m, if i < 7 then text + Hex(w[i]) + ":" else text + Hex(w[i]), i + 1)
  {
    hide Hex, Dec, Text, Dotted, Mapped;
    if i >= 7 {
      assert Hex(w[i]) + "" == Hex(w[i]);
    }
  }

  lemma AllPrinted(w: seq<nat>, z: Option<nat>, m: nat, text: string, i: nat)
    requires |w| == 8 && Printed(w, z, m, text, i) && Limit(w, z, m) <= i <= 8
    ensures Text(w, z, m) == if Mapped(w, z, m) then text + Dotted(w) else text
  {
  }

  lemma RunInside(w: seq<nat>, z: Option<nat>, m: nat)
    requires FirstLongest(w, z, m) && z.Some?
    ensures z.value + m <= |w| && m >= 2
  {
  }

  lemma WordIs(p: seq<byte>, g: nat)
    requires |p| == 16 && g < 8
    ensures Words(p)[g] == Word(p, g)
    ensures Words(p)[g] / 256 == p[2 * g] as nat && Words(p)[g] % 256 == p[2 * g + 1] as nat
  {
  }

  lemma MappedIff(p: seq<byte>, z: Option<nat>, m: nat)
    requires |p| == 16
    ensures Mapped(Words(p), z, m) <==> z == Some(0) && ((m == 5 && p[10] == 255 && p[11] == 255) || m == 6 || (m == 7 && p[14] != 0 && p[15] != 1))
  {
    hide Words, Word;
    WordIs(p, 5);
    WordIs(p, 7);
  }

  // The first longest run of zero groups, found in one pass.
  method LongestRun(p: seq<byte>) returns (zero: Option<nat>, max: nat)
    requires |p| == 16
    ensures max > 0 && FirstLongest(Words(p), zero, max)
  {
    ghost var w := Words(p);
    var last := 0;
    zero, max := None, 1;
    var n, i := 0, 0;
    while i < 8
      invariant 0 <= i <= 8 && 0 <= n && max > 0 && RunsTo(w, i, zero, max, last, n)
    {
      assert w[i] == Word(p, i);
      if p[2 * i] != 0 || p[2 * i + 1] != 0 {
        RunEnds(w, i, zero, max, last, n);
        if max < n {
          zero, max := Some(last), n;
        }
        n := 0;
        RunBroken(w, i, zero, max);
        i := i + 1;
        continue;
      }
      if n == 0 {
        last := i;
      }
      n := n + 1;
      i := i + 1;
      assert w[..i - n] == w[..i - n];
    }
    RunEnds(w, 8, zero, max, last, n);
    assert w[..8] == w;
    if max < n {
      zero, max := Some(last), n;
    }
  }

  // A group that is not zero is in no run.
  lemma RunBroken(w: seq<nat>, g: nat, z: Option<nat>, m: nat)
    requires g < |w| && w[g] != 0 && FirstLongest(w[..g], z, m) && m > 0
    ensures FirstLongest(w[..g + 1], z, m)
  {
    var u, v := w[..g + 1], w[..g];
    forall a: nat, k: nat | ZeroRun(u, a, k) && k > 0 ensures ZeroRun(v, a, k) {
      assert u[g] != 0;
    }
    if z.Some? {
      forall i | z.value <= i < z.value + m ensures u[i] == 0 { assert v[i] == 0; }
    }
  }

  // ----- the parser

  function Pair(v: nat): seq<byte> { [(v / 256 % 256) as byte, (v % 256) as byte] }

  function BytesOf(w: seq<nat>): (b: seq<byte>)
    ensures |b| == 2 * |w|
  {
    if w == [] then [] else BytesOf(w[..|w| - 1]) + Pair(w[|w| - 1])
  }

  lemma {:induction false} BytesJoin(u: seq<nat>, v: seq<nat>)
    ensures BytesOf(u + v) == BytesOf(u) + BytesOf(v)
  {
    if v == [] {
      assert u + v == u;
    } else {
      assert (u + v)[..|u + v| - 1] == u + v[..|v| - 1];
      BytesJoin(u, v[..|v| - 1]);
    }
  }

  lemma {:induction false} BytesOfZeros(n: nat)
    ensures forall i :: 0 <= i < 2 * n ==> BytesOf(Zeros(n))[i] == 0
  {
    if n > 0 {
      assert Zeros(n)[..n - 1] == Zeros(n - 1);
      BytesOfZeros(n - 1);
    }
  }

  // The bytes of an address are the address.
  lemma BytesBack(p: seq<byte>)
    requires |p| == 16
    ensures BytesOf(Words(p)) == p
  {
    BytesBackTo(p, 8);
    assert Words(p)[..8] == Words(p) && p[..16] == p;
  }

  lemma {:induction false} BytesBackTo(p: seq<byte>, g: nat)
    requires |p| == 16 && g <= 8
    ensures BytesOf(Words(p)[..g]) == p[..2 * g]
  {
    hide Words;
    if g > 0 {
      BytesBackTo(p, g - 1);
      WordIs(p, g - 1);
      assert Words(p)[..g][..g - 1] == Words(p)[..g - 1];
      assert Pair(Words(p)[g - 1]) == p[2 * g - 2..2 * g];
    }
  }

  method Emit(addr: array<byte>, a: nat, v: nat)
    requires a + 2 <= addr.Length
    modifies addr
    ensures addr[..a + 2] == old(addr[..a]) + Pair(v)
  {
    addr[a] := (v / 256 % 256) as byte;
    addr[a + 1] := (v % 256) as byte;
  }

  // The state of the parser in its variables: the groups written, where zeros
  // are to go, and where the last colon was.
  ghost predicate Reads(text: string, t: Scan, a: nat, n: nat, zero: Option<nat>, digit: Option<nat>, nibbles: nat, word: nat) {
    && a == 2 * |t.words| && n == 8 - |t.words| && t.nibbles == nibbles && t.word == word
    && zero == (if t.zero.Some? then Some(2 * t.zero.value) else None)
    && (t.zero.Some? ==> t.zero.value <= |t.words|)
    && (if digit.Some? then digit.value <= |text| && t.tail == Some(text[digit.value..]) else t.tail == None)
  }

  // ngx_inet6_addr
  method Inet6Addr(text: string, addr: array<byte>) returns (ok: bool)
    requires addr.Length == 16
    modifies addr
    ensures ok <==> Parse(text).Some?
    ensures ok ==> addr[..] == BytesOf(Parse(text).value)
  {
    hide ScanFrom, Next, Finish, Embedded, BytesOf, HexValue;
    if text == [] {
      return false;
    }
    var p, a, n, nibbles, word: nat := 0, 0, 8, 0, 0;
    var zero: Option<nat>, digit: Option<nat> := None, None;
    ghost var t := Start;
    assert text[0..] == text;
    if text[0] == ':' {
      p := 1;
    }
    NoBytes();
    while p < |text|
      invariant p <= |text| && 0 < n <= 8 && a + 2 * n == 16 && Reads(text, t, a, n, zero, digit, nibbles, word)
      invariant Parse(text) == ScanFrom(text[p..], t) && addr[..a] == BytesOf(t.words)
    {
      ScanAt(text, p, t);
      var c := text[p];
      p := p + 1;
      if c == ':' {
        if nibbles > 0 {
          digit := Some(p);
          Emit(addr, a, word);
          BytesNext(t.words, word);
          a := a + 2;
          n := n - 1;
          if n > 0 {
            t := Scan(t.words + [word], t.zero, 0, 0, Some(text[p..]));
            nibbles := 0;
            word := 0;
            continue;
          }
        } else if zero == None {
          digit := Some(p);
          zero := Some(a);
          t := t.(zero := Some(|t.words|), tail := Some(text[p..]));
          continue;
        }
        return false;
      }
      if c == '.' && nibbles > 0 {
        if n < 2 || digit == None {
          return false;
        }
        var v := InetAddr(text[digit.value..]);
        if v == None {
          return false;
        }
        Emit(addr, a, v.value / 65536 % 65536);
        BytesNext(t.words, v.value / 65536 % 65536);
        t := t.(words := t.words + [v.value / 65536 % 65536], word := v.value % 65536);
        ok := Complete(addr, a + 2, n - 1, zero, nibbles, v.value % 65536, t);
        return;
      }
      nibbles := nibbles + 1;
      if nibbles > 4 || HexValue(c) == None {
        return false;
      }
      word := word * 16 + HexValue(c).value;
      t := t.(nibbles := nibbles, word := word);
    }
    assert text[p..] == [];
    ScanEnds(t);
    ok := Complete(addr, a, n, zero, nibbles, word, t);
  }

  lemma NoBytes()
    ensures BytesOf([]) == []
  {
  }

  lemma BytesNext(w: seq<nat>, v: nat)
    ensures BytesOf(w + [v]) == BytesOf(w) + Pair(v)
  {
    assert (w + [v])[..|w|] == w;
  }

  lemma ScanEnds(t: Scan)
    ensures ScanFrom([], t) == Finish(t)
  {
  }

  // What each character does.
  lemma ScanAt(text: string, p: nat, t: Scan)
    requires p < |text|
    ensures var c, rest := text[p], text[p + 1..];
      && (c == ':' && t.nibbles > 0 ==> ScanFrom(text[p..], t) == if |t.words| + 1 < 8 then ScanFrom(rest, Scan(t.words + [t.word], t.zero, 0, 0, Some(rest))) else None)
      && (c == ':' && t.nibbles == 0 ==> ScanFrom(text[p..], t) == if t.zero.None? then ScanFrom(rest, t.(zero := Some(|t.words|), tail := Some(rest))) else None)
      && (c == '.' && t.nibbles > 0 ==> ScanFrom(text[p..], t) == Embedded(t))
      && (c != ':' && !(c == '.' && t.nibbles > 0) ==> ScanFrom(text[p..], t) == ScanHex(rest, t, c))
    ensures |t.words| > 6 || t.tail.None? || Addr4(t.tail.value).None? ==> Embedded(t) == None
    ensures |t.words| <= 6 && t.tail.Some? && Addr4(t.tail.value).Some? ==>
      Embedded(t) == Finish(t.(words := t.words + [Addr4(t.tail.value).value / 65536 % 65536], word := Addr4(t.tail.value).value % 65536))
  {
    hide HexValue, Addr4, Finish;
    assert text[p..][1..] == text[p + 1..];
  }

  // The last group, and the zeros for "::".
  method Complete(addr: array<byte>, a0: nat, n0: nat, zero: Option<nat>, nibbles: nat, word: nat, ghost t: Scan) returns (ok: bool)
    requires addr.Length == 16 && 0 < n0 <= 8 && a0 + 2 * n0 == 16 && a0 == 2 * |t.words| && t.nibbles == nibbles && t.word == word
    requires zero == (if t.zero.Some? then Some(2 * t.zero.value) else None) && (t.zero.Some? ==> t.zero.value <= |t.words|)
    requires addr[..a0] == BytesOf(t.words)
    modifies addr
    ensures ok <==> Finish(t).Some?
    ensures ok ==> addr[..] == BytesOf(Finish(t).value)
  {
    hide BytesOf;
    if nibbles == 0 && zero == None {
      return false;
    }
    Emit(addr, a0, word);
    BytesNext(t.words, word);
    ghost var w := t.words + [word];
    var a, n := a0 + 2, n0 - 1;
    if n > 0 {
      if zero.Some? {
        Spread(addr, a, zero.value, 2 * n);
        ZerosBetween(w, t.zero.value, n);
        return true;
      }
      return false;
    }
    assert addr[..] == addr[..a];
    ok := zero == None;
  }

  function NoByte(k: nat): (r: seq<byte>)
    ensures |r| == k && forall i :: 0 <= i < k ==> r[i] == 0
  {
    seq(k, _ => 0)
  }

  lemma ZerosBetween(w: seq<nat>, z: nat, n: nat)
    requires z <= |w|
    ensures BytesOf(w[..z] + Zeros(n) + w[z..]) == BytesOf(w)[..2 * z] + NoByte(2 * n) + BytesOf(w)[2 * z..]
  {
    hide BytesOf, Zeros, NoByte;
    var x, y := BytesOf(w[..z]), BytesOf(w[z..]);
    BytesJoin(w[..z] + Zeros(n), w[z..]);
    BytesJoin(w[..z], Zeros(n));
    assert w == w[..z] + w[z..];
    BytesJoin(w[..z], w[z..]);
    assert (x + y)[..2 * z] == x && (x + y)[2 * z..] == y;
    BytesOfZeros(n);
    assert BytesOf(Zeros(n)) == NoByte(2 * n);
  }

  // The bytes from z on move k up, and zeros come in between.
  method Spread(addr: array<byte>, a: nat, z: nat, k: nat)
    requires z <= a && a + k == addr.Length
    modifies addr
    ensures addr[..] == old(addr[..a])[..z] + NoByte(k) + old(addr[..a])[z..]
  {
    hide NoByte;
    var s: int, d: int := a - 1, a - 1 + k;
    while s >= z
      invariant z - 1 <= s < a && d == s + k
      invariant forall i :: 0 <= i <= s ==> addr[i] == old(addr[i])
      invariant forall i :: 0 <= i < z ==> addr[i] == old(addr[i])
      invariant forall i :: d < i < addr.Length ==> addr[i] == old(addr[i - k])
    {
      addr[d] := addr[s];
      d := d - 1;
      s := s - 1;
    }
    var i := z;
    while i < z + k
      invariant z <= i <= z + k
      invariant forall j :: 0 <= j < z ==> addr[j] == old(addr[j])
      invariant forall j :: z <= j < i ==> addr[j] == 0
      invariant forall j :: z + k <= j < addr.Length ==> addr[j] == old(addr[j - k])
    {
      addr[i] := 0;
      i := i + 1;
    }
    SpreadIs(old(addr[..]), addr[..], a, z, k);
    assert old(addr[..])[..a] == old(addr[..a]);
  }

  lemma SpreadIs(b: seq<byte>, b': seq<byte>, a: nat, z: nat, k: nat)
    requires |b| == |b'| == a + k && z <= a
    requires (forall j :: 0 <= j < z ==> b'[j] == b[j]) && (forall j :: z <= j < z + k ==> b'[j] == 0)
    requires forall j :: z + k <= j < |b| ==> b'[j] == b[j - k]
    ensures b' == b[..a][..z] + NoByte(k) + b[..a][z..]
  {
    hide NoByte;
  }

  // ----- the parser reads what the printer writes

  predicate HexText(s: string) { forall i :: 0 <= i < |s| ==> HexValue(s[i]).Some? && s[i] != ':' && s[i] != '.' }

  function HexNumber(s: string, before: nat): nat
    requires HexText(s)
  {
    if s == [] then before else HexNumber(s[1..], before * 16 + HexValue(s[0]).value)
  }

  lemma {:induction false} HexNumberNext(s: string, c: char, before: nat)
    requires HexText(s) && HexText([c]) && HexValue(c).Some?
    ensures HexText(s + [c]) && HexNumber(s + [c], before) == HexNumber(s, before) * 16 + HexValue(c).value
  {
    hide HexValue;
    if s == [] {
      assert s + [c] == [c] && [c][1..] == [];
    } else {
      assert (s + [c])[1..] == s[1..] + [c];
      HexNumberNext(s[1..], c, before * 16 + HexValue(s[0]).value);
    }
  }

  lemma {:induction false} HexIs(v: nat, k: nat)
    requires k > 0 && v < Sixteens(k)
    ensures HexText(Hex(v)) && HexNumber(Hex(v), 0) == v && 1 <= |Hex(v)| <= k
    decreases k
  {
    hide HexValue;
    if v < 16 {
      assert Hex(v)[1..] == [];
    } else {
      HexIs(v / 16, k - 1);
      HexNumberNext(Hex(v / 16), HexDigit(v % 16), 0);
    }
  }

  function Sixteens(k: nat): nat { if k == 0 then 1 else 16 * Sixteens(k - 1) }

  lemma {:induction false} ScanDigits(s: string, rest: string, t: Scan)
    requires HexText(s) && t.nibbles + |s| <= 4
    ensures ScanFrom(s + rest, t) == ScanFrom(rest, t.(nibbles := t.nibbles + |s|, word := HexNumber(s, t.word)))
    decreases |s|
  {
    hide HexValue, Finish, Embedded;
    if s == [] {
      assert s + rest == rest;
    } else {
      var t' := t.(nibbles := t.nibbles + 1, word := t.word * 16 + HexValue(s[0]).value);
      assert (s + rest)[1..] == s[1..] + rest;
      assert Next(t, s[0], s[1..] + rest) == Some(t');
      ScanDigits(s[1..], rest, t');
    }
  }

  // A group in digits, from a fresh start.
  lemma ScanGroup(v: nat, rest: string, t: Scan)
    requires v < 65536 && t.nibbles == 0 && t.word == 0
    ensures 1 <= |Hex(v)| <= 4
    ensures ScanFrom(Hex(v) + rest, t) == ScanFrom(rest, t.(nibbles := |Hex(v)|, word := v))
  {
    hide ScanFrom, Hex;
    assert Sixteens(4) == 65536;
    HexIs(v, 4);
    ScanDigits(Hex(v), rest, t);
  }

  lemma ScanColon(rest: string, t: Scan)
    ensures t.nibbles > 0 && |t.words| + 1 < 8 ==> ScanFrom(":" + rest, t) == ScanFrom(rest, Scan(t.words + [t.word], t.zero, 0, 0, Some(rest)))
    ensures t.nibbles == 0 && t.zero.None? ==> ScanFrom(":" + rest, t) == ScanFrom(rest, t.(zero := Some(|t.words|), tail := Some(rest)))
  {
    assert (":" + rest)[1..] == rest;
  }

  // ----- the IPv4 part

  lemma {:induction false} DecIs(v: nat, k: nat)
    requires k > 0 && v < Tens(k)
    ensures HexText(Dec(v)) && 1 <= |Dec(v)| <= k
    decreases k
  {
    if v >= 10 {
      DecIs(v / 10, k - 1);
    }
  }

  function Tens(k: nat): nat { if k == 0 then 1 else 10 * Tens(k - 1) }

  lemma {:induction false} OctetsDec(v: nat, rest: string, n: nat, sum: nat)
    requires v < 256
    ensures Octets(Dec(v) + rest, 0, n, sum) == Octets(rest, v, n, sum)
  {
    if v < 10 {
      assert (Dec(v) + rest)[1..] == rest;
    } else {
      var c := DecDigit(v % 10);
      assert Dec(v) + rest == Dec(v / 10) + ([c] + rest);
      OctetsDec(v / 10, [c] + rest, n, sum);
      assert ([c] + rest)[1..] == rest;
    }
  }

  lemma OctetsDot(rest: string, v: nat, n: nat, sum: nat)
    ensures Octets("." + rest, v, n, sum) == Octets(rest, 0, n + 1, Shift(sum, v))
  {
    assert ("." + rest)[1..] == rest;
  }

  // One octet and the dot behind it.
  lemma NextOctet(v: nat, rest: string, n: nat, sum: nat)
    requires v < 256 && sum < 0x100_0000
    ensures Octets(Dec(v) + ("." + rest), 0, n, sum) == Octets(rest, 0, n + 1, sum * 256 + v)
  {
    hide Octets, Dec, Shift;
    OctetsDec(v, "." + rest, n, sum);
    OctetsDot(rest, v, n, sum);
    ShiftIs(sum, v);
  }

  lemma LastOctet(v: nat, sum: nat)
    requires v < 256 && sum < 0x100_0000
    ensures Octets(Dec(v), 0, 3, sum) == Some(sum * 256 + v)
  {
    hide Octets, Dec, Shift;
    NothingMore(Dec(v));
    OctetsDec(v, "", 3, sum);
    OctetsEnd(v, 3, sum);
    ShiftIs(sum, v);
  }

  lemma QuadOctets(a: nat, b: nat, c: nat, d: nat)
    requires a < 256 && b < 256 && c < 256 && d < 256
    ensures Octets(Quad(a, b, c, d), 0, 0, 0) == Some(((a * 256 + b) * 256 + c) * 256 + d)
  {
    hide Octets, Dec;
    NextOctet(a, Dec(b) + ("." + (Dec(c) + ("." + Dec(d)))), 0, 0);
    NextOctet(b, Dec(c) + ("." + Dec(d)), 1, a);
    NextOctet(c, Dec(d), 2, a * 256 + b);
    LastOctet(d, (a * 256 + b) * 256 + c);
  }

  lemma ShiftIs(sum: nat, v: nat)
    requires sum < 0x100_0000
    ensures Shift(sum, v) == sum * 256 + v
  {
  }

  lemma NothingMore(s: string)
    ensures s + "" == s
  {
  }

  lemma DottedAddr(w: seq<nat>)
    requires IsAddress(w)
    ensures Addr4(Dotted(w)) == if w[6] == 65535 && w[7] == 65535 then None else Some(w[6] * 65536 + w[7])
  {
    hide Octets, Quad;
    QuadOctets(w[6] / 256, w[6] % 256, w[7] / 256, w[7] % 256);
  }

  lemma ScanDotted(w: seq<nat>, t: Scan)
    requires IsAddress(w) && t.nibbles == 0 && |t.words| <= 6 && t.tail == Some(Dotted(w))
    ensures ScanFrom(Dotted(w), t) == if w[6] == 65535 && w[7] == 65535 then None
                                      else Finish(t.(nibbles := 1, words := t.words + [w[6]], word := w[7]))
  {
    hide Dec, Octets, Addr4, Dotted;
    var v := w[6] / 256;
    assert Tens(3) == 1000;
    DecIs(v, 3);
    var rest := "." + (Dec(w[6] % 256) + ("." + (Dec(w[7] / 256) + ("." + Dec(w[7] % 256)))));
    DottedIs(w);
    ScanDigits(Dec(v), rest, t);
    var t1 := t.(nibbles := |Dec(v)|, word := HexNumber(Dec(v), t.word));
    assert ScanFrom(rest, t1) == Embedded(t1) by { assert rest[0] == '.'; }
    DottedAddr(w);
  }

  lemma DottedIs(w: seq<nat>)
    requires |w| == 8
    ensures Dotted(w) == Dec(w[6] / 256) + ("." + (Dec(w[6] % 256) + ("." + (Dec(w[7] / 256) + ("." + Dec(w[7] % 256))))))
  {
  }

  // ----- all groups

  // The groups read before group i, which is not inside the run.
  function Got(w: seq<nat>, z: Option<nat>, m: nat, i: nat): seq<nat>
    requires i <= |w|
  {
    if z.Some? && z.value + m <= i then w[..z.value] + w[z.value + m..i] else w[..i]
  }

  ghost predicate At(w: seq<nat>, z: Option<nat>, m: nat, i: nat, t: Scan) {
    && IsAddress(w) && FirstLongest(w, z, m) && m > 0 && i <= 8 && (z.Some? ==> i <= z.value || z.value + m <= i)
    && t.nibbles == 0 && t.word == 0 && t.words == Got(w, z, m, i)
    && t.zero == (if z.Some? && z.value < i then z else None)
    && (i > 0 ==> t.tail == Some(Groups(w, z, m, i))) && (Mapped(w, z, m) ==> i <= 6 || i == m)
  }

  // An address that reads as INADDR_NONE, the value for errors.
  predicate AllOnes(w: seq<nat>, z: Option<nat>, m: nat)
    requires |w| == 8
  {
    Mapped(w, z, m) && w[6] == 65535 && w[7] == 65535
  }

  lemma {:induction false} ScanGroups(w: seq<nat>, z: Option<nat>, m: nat, i: nat, t: Scan)
    requires At(w, z, m, i, t) && (i == 8 ==> z.Some? && z.value + m == 8) && (i == 0 ==> z != Some(0))
    ensures ScanFrom(Groups(w, z, m, i), t) == if AllOnes(w, z, m) then None else Some(w)
    decreases 8 - i
  {
    hide ScanFrom, FirstLongest, Hex, Dotted, Finish;
    if z.Some? { RunInside(w, z, m); }
    if Mapped(w, z, m) && i >= 6 {
      ScanDotted(w, t);
      FinishDotted(w, z, m, i, t);
    } else if i >= 8 {
      ScanEnds(t);
      FinishRun(w, z, m, t);
    } else if z == Some(i) {
      var t' := t.(zero := Some(i), tail := Some(Groups(w, z, m, i + m)));
      ScanColon(Groups(w, z, m, i + m), t);
      ScanGroups(w, z, m, i + m, t');
    } else if i < 7 {
      var rest := Groups(w, z, m, i + 1);
      assert Groups(w, z, m, i) == Hex(w[i]) + (":" + rest);
      ScanGroup(w[i], ":" + rest, t);
      ScanColon(rest, t.(nibbles := |Hex(w[i])|, word := w[i]));
      GotNext(w, z, m, i);
      ScanGroups(w, z, m, i + 1, Scan(t.words + [w[i]], t.zero, 0, 0, Some(rest)));
    } else {
      assert Groups(w, z, m, i) == Hex(w[i]) + "";
      ScanGroup(w[i], "", t);
      ScanEnds(t.(nibbles := |Hex(w[i])|, word := w[i]));
      FinishLast(w, z, m, t, |Hex(w[i])|);
    }
  }

  lemma GotNext(w: seq<nat>, z: Option<nat>, m: nat, i: nat)
    requires i < |w| && m > 0 && (z.Some? ==> i < z.value || z.value + m <= i)
    ensures Got(w, z, m, i) + [w[i]] == Got(w, z, m, i + 1)
  {
  }

  lemma RunZeros(w: seq<nat>, z: Option<nat>, m: nat)
    requires FirstLongest(w, z, m) && z.Some?
    ensures z.value + m <= |w| && w == w[..z.value] + Zeros(m) + w[z.value + m..]
  {
    var b := z.value;
    assert ZeroRun(w, b, m);
    assert w[b..b + m] == Zeros(m);
    assert w == w[..b] + w[b..b + m] + w[b + m..];
  }

  lemma FinishLast(w: seq<nat>, z: Option<nat>, m: nat, t: Scan, nibbles: nat)
    requires At(w, z, m, 7, t) && nibbles > 0 && z != Some(7)
    ensures Finish(t.(nibbles := nibbles, word := w[7])) == Some(w)
  {
    hide FirstLongest, Groups, Zeros;
    GotNext(w, z, m, 7);
    if z.Some? {
      RunInside(w, z, m);
      RunZeros(w, z, m);
      Rejoined(w[..z.value], w[z.value + m..]);
      assert w[z.value + m..8] == w[z.value + m..];
    } else {
      assert w[..8] == w;
    }
  }

  lemma Rejoined(a: seq<nat>, b: seq<nat>)
    ensures (a + b)[..|a|] == a && (a + b)[|a|..] == b
  {
  }

  lemma FinishRun(w: seq<nat>, z: Option<nat>, m: nat, t: Scan)
    requires At(w, z, m, 8, t) && z.Some? && z.value + m == 8
    ensures Finish(t) == Some(w)
  {
    hide FirstLongest, Groups;
    RunInside(w, z, m);
    RunZeros(w, z, m);
    var b, words := z.value, t.words + [0];
    assert w[b + m..8] == [] && t.words == w[..b];
    assert words == w[..b] + [0];
    assert Zeros(m) == Zeros(m - 1) + [0];
    assert words[..b] == w[..b] && words[b..] == [0];
    assert w[b + m..] == [] && w == w[..b] + (Zeros(m - 1) + [0]);
    assert w[..b] + Zeros(m - 1) + [0] == w;
  }

  lemma FinishDotted(w: seq<nat>, z: Option<nat>, m: nat, i: nat, t: Scan)
    requires At(w, z, m, i, t) && Mapped(w, z, m) && i >= 6
    ensures |t.words| <= 6 && Finish(t.(nibbles := 1, words := t.words + [w[6]], word := w[7])) == Some(w)
  {
    hide FirstLongest, Groups;
    RunZeros(w, z, m);
    var k := if m < 6 then m else 6;
    LeadingZeros(w, m, k);
    assert w[..0] == [];
    assert t.words == if m <= 6 then w[m..6] else [];
    assert t.words + [w[6]] + [w[7]] == w[k..];
    assert w == w[..k] + w[k..];
    var words := t.words + [w[6]] + [w[7]];
    assert words[..0] == [] && words[0..] == words && [] + Zeros(k) + words == w;
  }

  lemma LeadingZeros(w: seq<nat>, m: nat, k: nat)
    requires k <= m <= |w| && w == w[..0] + Zeros(m) + w[m..]
    ensures w[..k] == Zeros(k)
  {
    assert w[..0] == [];
    assert w[..m] == Zeros(m);
    forall i | 0 <= i < k ensures w[i] == 0 { assert w[..m][i] == 0; }
  }

  // What the printer writes the parser reads back, except exactly the addresses
  // printed with 255.255.255.255 at the end.
  lemma ParsesBack(w: seq<nat>, z: Option<nat>, m: nat)
    requires IsAddress(w) && FirstLongest(w, z, m) && m > 0
    ensures Parse(Text(w, z, m)) == if AllOnes(w, z, m) then None else Some(w)
  {
    hide ScanFrom, FirstLongest, Hex, Dotted;
    if z == Some(0) {
      RunInside(w, z, m);
      var rest := Groups(w, z, m, m);
      var t := Start.(zero := Some(0), tail := Some(rest));
      assert Text(w, z, m) == ":" + (":" + rest);
      assert Text(w, z, m)[1..] == ":" + rest;
      ScanColon(rest, Start);
      ScanGroups(w, z, m, m, t);
    } else {
      TextHead(w, z, m);
      ScanGroups(w, z, m, 0, Start);
    }
  }

  lemma TextHead(w: seq<nat>, z: Option<nat>, m: nat)
    requires IsAddress(w) && m > 0 && z != Some(0)
    ensures Text(w, z, m) == Groups(w, z, m, 0) && Text(w, z, m) != [] && Text(w, z, m)[0] != ':'
  {
    HexIs(w[0], 4);
    assert Sixteens(4) == 65536;
    assert Hex(w[0])[0] != ':';
  }

  // The addresses ::255.255.255.255 and ::ffff:255.255.255.255.
  predicate Collides(p: seq<byte>)
    requires |p| == 16
  {
    && (forall i :: 0 <= i < 10 ==> p[i] == 0)
    && p[10] == p[11] && (p[10] == 0 || p[10] == 255)
    && forall i :: 12 <= i < 16 ==> p[i] == 255
  }

  lemma ZeroGroups(p: seq<byte>, n: nat)
    requires |p| == 16 && n <= 8
    ensures (forall i :: 0 <= i < 2 * n ==> p[i] == 0) <==> forall g :: 0 <= g < n ==> Words(p)[g] == 0
  {
    hide Words;
    forall g | 0 <= g < n ensures Words(p)[g] == 0 <==> p[2 * g] == 0 && p[2 * g + 1] == 0 {
      WordIs(p, g);
    }
    if forall g :: 0 <= g < n ==> Words(p)[g] == 0 {
      forall i | 0 <= i < 2 * n ensures p[i] == 0 {
        assert Words(p)[i / 2] == 0;
      }
    }
  }

  lemma CollidesIff(p: seq<byte>, z: Option<nat>, m: nat)
    requires |p| == 16 && FirstLongest(Words(p), z, m) && m > 0
    ensures AllOnes(Words(p), z, m) <==> Collides(p)
  {
    hide Words, Word, FirstLongest;
    var w := Words(p);
    ZeroGroups(p, 5);
    WordIs(p, 5);
    WordIs(p, 6);
    WordIs(p, 7);
    if AllOnes(w, z, m) {
      assert ZeroRun(w, 0, m) by { RunIs(w, z, m); }
      assert m < 7;
    } else if Collides(p) {
      assert w[6] == 65535 && w[7] == 65535 && (w[5] == 0 || w[5] == 65535);
      LongestHere(w, z, m);
    }
  }

  lemma RunIs(w: seq<nat>, z: Option<nat>, m: nat)
    requires FirstLongest(w, z, m) && z.Some?
    ensures ZeroRun(w, z.value, m)
  {
  }

  lemma LongestHere(w: seq<nat>, z: Option<nat>, m: nat)
    requires |w| == 8 && FirstLongest(w, z, m) && (forall g :: 0 <= g < 5 ==> w[g] == 0) && w[6] != 0 && w[7] != 0
    ensures z == Some(0) && m == if w[5] == 0 then 6 else 5
  {
    assert ZeroRun(w, 0, 5);
    if w[5] == 0 { assert ZeroRun(w, 0, 6); }
    RunIs(w, z, m);
    assert w[6] != 0 && w[7] != 0 && (w[5] == 0 || w[5] != 0);
  }

  // ngx_inet6_addr(ngx_inet6_ntop(p)) is p, but for the addresses that collide
  // with the value for errors of ngx_inet_addr.
  method RoundTrip(p: seq<byte>, addr: array<byte>) returns (ok: bool)
    requires |p| == 16 && addr.Length == 16
    modifies addr
    ensures ok <==> !Collides(p)
    ensures ok ==> addr[..] == p
  {
    hide Parse, Text, FirstLongest, BytesOf, Words, AllOnes, Collides;
    var text := Ntop(p);
    ghost var z: Option<nat>, m: nat :| m > 0 && FirstLongest(Words(p), z, m) && text == Text(Words(p), z, m);
    ok := Inet6Addr(text, addr);
    BytesBack(p);
    ParsesBack(Words(p), z, m);
    CollidesIff(p, z, m);
  }
}
