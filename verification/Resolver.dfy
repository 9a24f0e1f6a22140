// Names in DNS messages (sections 3.1 and 4.1.4 of RFC 1035): the encoder of the
// query and the decoder of compressed names in a response.
module Resolver {
  import opened Options

  newtype byte = n: int | 0 <= n < 256

  datatype Error = BadLabelType | OutOfResponse | PointersLoop

  datatype Result = Ok(name: seq<byte>) | Err(error: Error)

  const DOT: byte := 46
  const MaxSteps: nat := 128

  function Lower(c: byte): byte { if 65 <= c <= 90 then c + 32 else c }

  function Lowered(s: seq<byte>): (r: seq<byte>)
    ensures |r| == |s|
  {
    seq(|s|, i requires 0 <= i < |s| => Lower(s[i]))
  }

  // ----- one step through the bytes of a name

  datatype Step = End | Jump(to: nat) | Label(from: nat, len: nat) | Bad(error: Error)

  function Pointer(hi: byte, lo: byte): nat { hi as nat % 64 * 256 + lo as nat }

  // What stands at p, provided that what follows starts inside the message.
  function StepAt(buf: seq<byte>, p: nat): (s: Step)
    requires p < |buf|
    ensures s.Jump? ==> s.to < |buf|
    ensures s.Label? ==> s.from + s.len < |buf| && s.from == p + 1 && 0 < s.len < 64
  {
    var n := buf[p];
    if n == 0 then End
    else if 64 <= n < 192 then Bad(BadLabelType)
    else if n >= 192 then
      if p + 1 >= |buf| then Bad(OutOfResponse)
      else if Pointer(n, buf[p + 1]) >= |buf| then Bad(OutOfResponse)
      else Jump(Pointer(n, buf[p + 1]))
    else if p + 1 + n as nat >= |buf| then Bad(OutOfResponse)
    else Label(p + 1, n as nat)
  }

  // ----- what a name is

  // The labels that the bytes at p spell, following the pointers, and the number
  // of labels and pointers passed before the end.
  ghost predicate Spells(buf: seq<byte>, p: nat, labels: seq<seq<byte>>, steps: nat)
    decreases steps
  {
    p < |buf| &&
    match StepAt(buf, p)
    case End => labels == [] && steps == 0
    case Jump(q) => steps > 0 && Spells(buf, q, labels, steps - 1)
    case Label(q, n) => labels != [] && steps > 0 && labels[0] == buf[q..q + n] && Spells(buf, q + n, labels[1..], steps - 1)
    case Bad(_) => false
  }

  datatype Outcome = Named(labels: seq<seq<byte>>) | Failed(error: Error)

  function Prepend(before: seq<seq<byte>>, o: Outcome): Outcome {
    match o
    case Named(labels) => Named(before + labels)
    case Failed(_) => o
  }

  // The walk that gives up after some steps.
  ghost function Walk(buf: seq<byte>, p: nat, left: nat): Outcome
    requires p < |buf|
    decreases left
  {
    if left == 0 then Failed(PointersLoop)
    else
      match StepAt(buf, p)
      case End => Named([])
      case Jump(q) => Walk(buf, q, left - 1)
      case Label(q, n) => Prepend([buf[q..q + n]], Walk(buf, q + n, left - 1))
      case Bad(e) => Failed(e)
  }

  // A name is found if and only if it takes fewer steps than allowed; a longer
  // one is taken for a loop.
  lemma {:induction false} WalkFinds(buf: seq<byte>, p: nat, labels: seq<seq<byte>>, steps: nat, left: nat)
    requires Spells(buf, p, labels, steps)
    ensures Walk(buf, p, left) == if steps < left then Named(labels) else Failed(PointersLoop)
    decreases left
  {
    if left > 0 {
      match StepAt(buf, p)
      case End =>
      case Jump(q) => WalkFinds(buf, q, labels, steps - 1, left - 1);
      case Label(q, n) =>
        WalkFinds(buf, q + n, labels[1..], steps - 1, left - 1);
        assert [labels[0]] + labels[1..] == labels;
      case Bad(_) => assert false;
    }
  }

  // What is found is what the bytes spell.
  lemma {:induction false} FoundIsSpelled(buf: seq<byte>, p: nat, left: nat) returns (steps: nat)
    requires p < |buf| && Walk(buf, p, left).Named?
    ensures steps < left && Spells(buf, p, Walk(buf, p, left).labels, steps)
    decreases left
  {
    match StepAt(buf, p)
    case End => steps := 0;
    case Jump(q) =>
      steps := FoundIsSpelled(buf, q, left - 1);
      steps := steps + 1;
    case Label(q, n) =>
      var labels := Walk(buf, p, left).labels;
      steps := FoundIsSpelled(buf, q + n, left - 1);
      assert labels[1..] == Walk(buf, q + n, left - 1).labels;
      steps := steps + 1;
    case Bad(_) => assert false;
  }

  // ----- the text of a name

  // Each label lower-cased, with a dot behind it.
  function Dots(labels: seq<seq<byte>>): (r: seq<byte>) {
    if labels == [] then [] else Lowered(labels[0]) + [DOT] + Dots(labels[1..])
  }

  // The bytes that the first pass counts.
  function Weight(labels: seq<seq<byte>>): (w: nat)
    ensures labels == [] <==> w == 0
  {
    if labels == [] then 0 else 1 + |labels[0]| + Weight(labels[1..])
  }

  lemma {:induction false} DotsLength(labels: seq<seq<byte>>)
    ensures |Dots(labels)| == Weight(labels)
  {
    if labels != [] { DotsLength(labels[1..]); }
  }

  lemma {:induction false} DotsJoin(a: seq<seq<byte>>, b: seq<seq<byte>>)
    ensures Dots(a + b) == Dots(a) + Dots(b) && Weight(a + b) == Weight(a) + Weight(b)
  {
    if a == [] {
      assert a + b == b;
    } else {
      assert (a + b)[1..] == a[1..] + b;
      DotsJoin(a[1..], b);
    }
  }

  // The dot behind the last label goes.
  function Dotted(labels: seq<seq<byte>>): seq<byte> {
    var r := Dots(labels);
    if r == [] then [] else r[..|r| - 1]
  }

  ghost function Copied(buf: seq<byte>, src: nat): Result
    requires src < |buf|
  {
    match Walk(buf, src, MaxSteps)
    case Named(labels) => Ok(Dotted(labels))
    case Failed(e) => Err(e)
  }

  // ngx_resolver_copy, with the message ending at `last`.
  method Copy(buf: seq<byte>, src: nat) returns (r: Result)
    requires src < |buf|
    ensures r == Copied(buf, src)
  {
    var len, error := Measure(buf, src);
    if error.Some? {
      return Err(error.value);
    }
    ghost var labels := Walk(buf, src, MaxSteps).labels;
    if len == 0 {
      return Ok([]);
    }
    var dst := new byte[len];
    DotsLength(labels);
    Retrace(buf, src, dst, labels);
    r := Ok(dst[..len - 1]);
  }

  // What a walk does at each kind of byte.
  lemma WalkAt(buf: seq<byte>, p: nat, left: nat)
    requires p < |buf| && left > 0
    ensures buf[p] == 0 ==> Walk(buf, p, left) == Named([])
    ensures 64 <= buf[p] < 192 ==> Walk(buf, p, left) == Failed(BadLabelType)
    ensures buf[p] >= 192 ==>
      Walk(buf, p, left) == if p + 1 < |buf| && Pointer(buf[p], buf[p + 1]) < |buf| then Walk(buf, Pointer(buf[p], buf[p + 1]), left - 1) else Failed(OutOfResponse)
    ensures var q := p + 1 + buf[p] as nat;
      0 < buf[p] < 64 ==> Walk(buf, p, left) == if q < |buf| then Prepend([buf[p + 1..q]], Walk(buf, q, left - 1)) else Failed(OutOfResponse)
  {
  }

  // The first pass: how many bytes the name takes.
  method Measure(buf: seq<byte>, src: nat) returns (len: nat, error: Option<Error>)
    requires src < |buf|
    ensures match Walk(buf, src, MaxSteps)
            case Named(labels) => error == None && len == Weight(labels)
            case Failed(e) => error == Some(e)
  {
    hide Walk, StepAt, Pointer, Weight;
    var p: nat, i: nat := src, 0;
    len, error := 0, None;
    ghost var seen: seq<seq<byte>> := [];
    assert Weight([]) == 0 by { NoWeight(); }
    FailedAll(seen, Walk(buf, src, MaxSteps));
    while i < MaxSteps
      invariant i <= MaxSteps && p < |buf| && len == Weight(seen)
      invariant Walk(buf, src, MaxSteps) == Prepend(seen, Walk(buf, p, MaxSteps - i))
    {
      WalkAt(buf, p, MaxSteps - i);
      ghost var p0 := p;
      var n := buf[p];
      p := p + 1;
      if n == 0 {
        assert seen + [] == seen;
        return;
      }
      if n >= 64 {
        if n < 192 {
          return len, Some(BadLabelType);
        }
        if p >= |buf| {
          return len, Some(OutOfResponse);
        }
        p := Pointer(n, buf[p]);
      } else {
        len := len + 1 + n as nat;
        p := p + n as nat;
      }
      if p >= |buf| {
        return len, Some(OutOfResponse);
      }
      if n < 64 {
        SeenMore(seen, buf[p0 + 1..p], Walk(buf, p, MaxSteps - i - 1));
        seen := seen + [buf[p0 + 1..p]];
      }
      i := i + 1;
    }
    WalkedOut(buf, p);
    error := Some(PointersLoop);
  }

  lemma NoWeight()
    ensures Weight([]) == 0
  {
  }

  lemma FailedAll(seen: seq<seq<byte>>, o: Outcome)
    requires seen == []
    ensures Prepend(seen, o) == o
  {
  }

  lemma WalkedOut(buf: seq<byte>, p: nat)
    requires p < |buf|
    ensures Walk(buf, p, 0) == Failed(PointersLoop)
  {
  }

  lemma SeenMore(seen: seq<seq<byte>>, part: seq<byte>, o: Outcome)
    ensures Prepend(seen, Prepend([part], o)) == Prepend(seen + [part], o)
    ensures Weight(seen + [part]) == Weight(seen) + 1 + |part|
  {
    if o.Named? { assert seen + ([part] + o.labels) == seen + [part] + o.labels; }
    DotsJoin(seen, [part]);
  }

  // The second pass follows the first without its checks, and fills the bytes
  // counted there.
  method Retrace(buf: seq<byte>, src0: nat, dst: array<byte>, ghost labels: seq<seq<byte>>)
    requires src0 < |buf| && Walk(buf, src0, MaxSteps) == Named(labels) && dst.Length == |Dots(labels)|
    modifies dst
    ensures dst[..] == Dots(labels)
  {
    hide Filled, Dots, Lowered, Walk, Lower;
    NothingFilled(labels);
    ghost var left, rest := MaxSteps, labels;
    var src: nat, d: nat := src0, 0;
    while true
      invariant src < |buf| && Walk(buf, src, left) == Named(rest)
      invariant d <= dst.Length && Filled(dst[..d], rest, Dots(labels))
      decreases left
    {
      NextStep(buf, src, left, rest);
      AllFilled(dst[..d], rest, Dots(labels));
      var n := buf[src];
      src := src + 1;
      if n == 0 {
        break;
      }
      if n >= 192 {
        src := Pointer(n, buf[src]);
      } else {
        ghost var was := dst[..d];
        CopyLabel(dst, d, buf, src, n as nat);
        d := d + n as nat + 1;
        src := src + n as nat;
        FilledNext(was, dst[..d], rest, Dots(labels));
        rest := rest[1..];
      }
      left := left - 1;
    }
    assert d == dst.Length;
  }

  // A walk that succeeds needs none of the checks.
  lemma NextStep(buf: seq<byte>, src: nat, left: nat, rest: seq<seq<byte>>)
    requires src < |buf| && Walk(buf, src, left) == Named(rest)
    ensures left > 0 && (buf[src] == 0 ==> rest == []) && (buf[src] < 64 || buf[src] >= 192)
    ensures buf[src] >= 192 ==> src + 1 < |buf| && Pointer(buf[src], buf[src + 1]) < |buf| && Walk(buf, Pointer(buf[src], buf[src + 1]), left - 1) == Named(rest)
    ensures 0 < buf[src] < 64 ==> src + 1 + buf[src] as nat < |buf| && rest != [] && rest[0] == buf[src + 1..src + 1 + buf[src] as nat]
    ensures 0 < buf[src] < 64 ==> Walk(buf, src + 1 + buf[src] as nat, left - 1) == Named(rest[1..])
  {
  }

  // What is written so far, with the labels still to come.
  ghost predicate Filled(done: seq<byte>, rest: seq<seq<byte>>, all: seq<byte>) {
    done + Dots(rest) == all
  }

  lemma NothingFilled(labels: seq<seq<byte>>)
    ensures Filled([], labels, Dots(labels))
  {
  }

  lemma AllFilled(done: seq<byte>, rest: seq<seq<byte>>, all: seq<byte>)
    requires Filled(done, rest, all)
    ensures if rest == [] then done == all else |done| + |rest[0]| + 1 <= |all|
  {
  }

  lemma FilledNext(done: seq<byte>, done': seq<byte>, rest: seq<seq<byte>>, all: seq<byte>)
    requires Filled(done, rest, all) && rest != [] && done' == done + Lowered(rest[0]) + [DOT]
    ensures Filled(done', rest[1..], all)
  {
  }

  // A label, lower-cased, and a dot.
  method CopyLabel(dst: array<byte>, d: nat, buf: seq<byte>, src: nat, n: nat)
    requires d + n < dst.Length && src + n <= |buf|
    modifies dst
    ensures dst[..d + n + 1] == old(dst[..d]) + Lowered(buf[src..src + n]) + [DOT]
  {
    CopyLowered(dst, d, buf, src, n);
    ghost var was := dst[..d + n];
    dst[d + n] := DOT;
    assert dst[..d + n + 1] == was + [DOT];
  }

  // ngx_strlow
  method CopyLowered(dst: array<byte>, d: nat, buf: seq<byte>, src: nat, n: nat)
    requires d + n <= dst.Length && src + n <= |buf|
    modifies dst
    ensures dst[..d + n] == old(dst[..d]) + Lowered(buf[src..src + n])
  {
    var i := 0;
    while i < n
      invariant i <= n && dst[..d + i] == old(dst[..d]) + Lowered(buf[src..src + n])[..i]
    {
      assert Lowered(buf[src..src + n])[i] == Lower(buf[src + i]);
      ghost var was := dst[..d + i];
      dst[d + i] := Lower(buf[src + i]);
      assert dst[..d + i + 1] == was + [Lower(buf[src + i])];
      i := i + 1;
    }
  }

  // ----- the name in a query

  // The parts between the dots.
  function Split(name: seq<byte>): (labels: seq<seq<byte>>)
    ensures labels != []
  {
    if name == [] then [[]]
    else
      var labels := Split(name[1..]);
      if name[0] == DOT then [[]] + labels else [[name[0]] + labels[0]] + labels[1..]
  }

  function Wire(labels: seq<seq<byte>>): (r: seq<byte>)
    ensures r != []
  {
    if labels == [] then [0] else [(|labels[0]| % 256) as byte] + labels[0] + Wire(labels[1..])
  }

  predicate Fits(part: seq<byte>) { 1 <= |part| <= 255 }

  predicate AllFit(labels: seq<seq<byte>>) { forall l :: l in labels ==> Fits(l) }

  lemma SplitNext(name: seq<byte>, s: nat)
    requires s < |name|
    ensures var labels := Split(name[s + 1..]);
      Split(name[s..]) == if name[s] == DOT then [[]] + labels else [[name[s]] + labels[0]] + labels[1..]
  {
    assert name[s..][1..] == name[s + 1..];
  }

  function FirstLen(name: seq<byte>, s: nat): nat
    requires s <= |name|
  {
    |Split(name[s..])[0]|
  }

  // The end of the encoding of what stands from s on, but for the first length.
  ghost predicate Encoded(tail: seq<byte>, name: seq<byte>, s: nat) {
    s <= |name| && AllFit(Split(name[s..])[1..]) && tail == Split(name[s..])[0] + Wire(Split(name[s..])[1..])
  }

  lemma EncodeEnd(name: seq<byte>)
    ensures Encoded([0], name, |name|) && FirstLen(name, |name|) == 0
  {
    assert name[|name|..] == [] && Split([]) == [[]];
    assert Split([])[1..] == [];
  }

  lemma EncodeChar(name: seq<byte>, s: nat, tail: seq<byte>)
    requires s < |name| && name[s] != DOT && Encoded(tail, name, s + 1)
    ensures Encoded([name[s]] + tail, name, s) && FirstLen(name, s) == FirstLen(name, s + 1) + 1
  {
    SplitNext(name, s);
    assert Split(name[s..])[1..] == Split(name[s + 1..])[1..];
  }

  lemma EncodeLabel(name: seq<byte>, s: nat, tail: seq<byte>, len: nat)
    requires s < |name| && name[s] == DOT && Encoded(tail, name, s + 1) && 1 <= len <= 255 && len == FirstLen(name, s + 1)
    ensures Encoded([(len % 256) as byte] + tail, name, s) && FirstLen(name, s) == 0
  {
    SplitNext(name, s);
    WireStarts(Split(name[s + 1..]), tail);
    assert Split(name[s..])[1..] == Split(name[s + 1..]);
  }

  lemma EncodeAll(name: seq<byte>, tail: seq<byte>, len: nat)
    requires Encoded(tail, name, 0) && 1 <= len <= 255 && len == FirstLen(name, 0)
    ensures AllFit(Split(name)) && [(len % 256) as byte] + tail == Wire(Split(name))
  {
    assert name[0..] == name;
    WireStarts(Split(name), tail);
  }

  lemma WireStarts(labels: seq<seq<byte>>, tail: seq<byte>)
    requires labels != [] && Fits(labels[0]) && AllFit(labels[1..]) && tail == labels[0] + Wire(labels[1..])
    ensures AllFit(labels) && [(|labels[0]| % 256) as byte] + tail == Wire(labels)
  {
    assert labels == [labels[0]] + labels[1..];
  }

  // ngx_resolver_create_name_query: the name, written from its end.
  method EncodeName(name: seq<byte>) returns (r: Option<seq<byte>>)
    ensures r == if name != [] && AllFit(Split(name)) then Some(Wire(Split(name))) else None
  {
    hide Split, Wire, AllFit, Encoded, FirstLen;
    var out := new byte[if name == [] then 1 else |name| + 2];
    var p: int := out.Length - 1;
    out[p] := 0;
    assert out[p..] == [0];
    p := p - 1;
    var len: nat := 0;
    if name == [] {
      return None;
    }
    var s := |name|;
    EncodeEnd(name);
    while s > 0
      invariant 0 <= s <= |name| && p == s && len == FirstLen(name, s) && Encoded(out[p + 1..], name, s)
    {
      s := s - 1;
      ghost var tail := out[p + 1..];
      if name[s] != DOT {
        out[p] := name[s];
        assert out[p..] == [name[s]] + tail;
        EncodeChar(name, s, tail);
        len := len + 1;
      } else {
        if len == 0 || len > 255 {
          Refused(name, s);
          return None;
        }
        out[p] := (len % 256) as byte;
        assert out[p..] == [(len % 256) as byte] + tail;
        EncodeLabel(name, s, tail, len);
        len := 0;
      }
      p := p - 1;
    }
    if len == 0 || len > 255 {
      FirstRefused(name, 0);
      return None;
    }
    ghost var tail := out[1..];
    out[0] := (len % 256) as byte;
    assert out[..] == [(len % 256) as byte] + tail;
    EncodeAll(name, tail, len);
    r := Some(out[..]);
  }

  // A part that is empty or too long, and the name is refused.
  lemma FirstRefused(name: seq<byte>, s: nat)
    requires s <= |name| && (FirstLen(name, s) == 0 || FirstLen(name, s) > 255)
    ensures !AllFit(Split(name[s..])) && (s == 0 ==> !AllFit(Split(name)))
  {
    assert Split(name[s..])[0] in Split(name[s..]) && !Fits(Split(name[s..])[0]);
    assert name[0..] == name;
  }

  lemma Refused(name: seq<byte>, s: nat)
    requires s < |name| && name[s] == DOT && (FirstLen(name, s + 1) == 0 || FirstLen(name, s + 1) > 255)
    ensures !AllFit(Split(name))
  {
    FirstRefused(name, s + 1);
    RefusedBefore(name, s + 1);
  }

  lemma RefusedBefore(name: seq<byte>, s: nat)
    requires 0 < s <= |name| && name[s - 1] == DOT && !AllFit(Split(name[s..]))
    ensures !AllFit(Split(name))
  {
    SplitNext(name, s - 1);
    assert Split(name[s - 1..])[1..] == Split(name[s..]);
    RestRefused(name, s - 1);
  }

  // One bad part, and the name is refused.
  lemma {:induction false} RestRefused(name: seq<byte>, s: nat)
    requires s < |name| && !AllFit(Split(name[s..])[1..])
    ensures !AllFit(Split(name))
    decreases s
  {
    var labels := Split(name[s..]);
    var l :| l in labels[1..] && !Fits(l);
    if s == 0 {
      assert name[0..] == name && l in labels;
    } else {
      var before := Split(name[s - 1..]);
      SplitNext(name, s - 1);
      assert before[1..] == labels || before[1..] == labels[1..];
      assert l in before[1..];
      RestRefused(name, s - 1);
    }
  }

  // ----- the decoder undoes the encoder

  ghost predicate StandsAt(buf: seq<byte>, p: nat, s: seq<byte>) {
    p + |s| <= |buf| && buf[p..p + |s|] == s
  }

  predicate Short(part: seq<byte>) { 1 <= |part| <= 63 }

  lemma {:induction false} WireSpells(buf: seq<byte>, p: nat, labels: seq<seq<byte>>)
    requires AllFit(labels) && (forall l :: l in labels ==> Short(l)) && StandsAt(buf, p, Wire(labels))
    ensures Spells(buf, p, labels, |labels|)
    decreases |labels|
  {
    WireParts(buf, p, labels);
    hide Wire, StandsAt, StepAt;
    if labels != [] {
      assert labels[0] in labels;
      LabelStep(buf, p, |labels[0]|);
      LabelThere(buf, p + 1, labels[0]);
      WireSpells(buf, p + 1 + |labels[0]|, labels[1..]);
      assert Spells(buf, p + 1 + |labels[0]|, labels[1..], |labels| - 1);
    }
  }

  lemma LabelStep(buf: seq<byte>, p: nat, n: nat)
    requires 0 < n < 64 && p + 1 + n < |buf| && buf[p] as nat == n
    ensures StepAt(buf, p) == Label(p + 1, n)
  {
  }

  lemma LabelThere(buf: seq<byte>, p: nat, s: seq<byte>)
    requires StandsAt(buf, p, s)
    ensures p + |s| <= |buf| && s == buf[p..p + |s|]
  {
  }

  lemma WireIs(labels: seq<seq<byte>>)
    requires AllFit(labels)
    ensures Wire(labels)[0] as int == if labels == [] then 0 else |labels[0]|
    ensures labels != [] ==> |labels[0]| < 256 && Wire(labels) == [|labels[0]| as byte] + (labels[0] + Wire(labels[1..]))
  {
    if labels != [] {
      assert Fits(labels[0]) by { assert labels[0] in labels; }
      SmallRest(|labels[0]|);
    }
  }

  lemma SmallRest(n: nat)
    requires n < 256
    ensures n % 256 == n
  {
  }

  lemma WireParts(buf: seq<byte>, p: nat, labels: seq<seq<byte>>)
    requires AllFit(labels) && StandsAt(buf, p, Wire(labels))
    ensures p < |buf| && buf[p] as int == if labels == [] then 0 else |labels[0]|
    ensures labels != [] ==> StandsAt(buf, p + 1, labels[0]) && p + 1 + |labels[0]| < |buf| && StandsAt(buf, p + 1 + |labels[0]|, Wire(labels[1..]))
  {
    hide StandsAt, Wire, AllFit;
    WireIs(labels);
    FirstStands(buf, p, Wire(labels));
    if labels != [] {
      PartsStand(buf, p, [|labels[0]| as byte], labels[0] + Wire(labels[1..]));
      PartsStand(buf, p + 1, labels[0], Wire(labels[1..]));
      FirstStands(buf, p + 1 + |labels[0]|, Wire(labels[1..]));
    }
  }

  lemma FirstStands(buf: seq<byte>, p: nat, s: seq<byte>)
    requires StandsAt(buf, p, s) && s != []
    ensures p < |buf| && buf[p] == s[0]
  {
    assert buf[p] == buf[p..p + |s|][0];
  }

  lemma PartsStand(buf: seq<byte>, p: nat, a: seq<byte>, b: seq<byte>)
    requires StandsAt(buf, p, a + b)
    ensures StandsAt(buf, p, a) && StandsAt(buf, p + |a|, b)
  {
    var all := buf[p..p + |a + b|];
    assert all[..|a|] == a && all[|a|..] == b;
    assert buf[p..p + |a|] == all[..|a|] && buf[p + |a|..p + |a| + |b|] == all[|a|..];
  }

  // Joining the parts again.
  lemma {:induction false} SplitDotted(name: seq<byte>)
    ensures Dots(Split(name)) == Lowered(name) + [DOT]
  {
    var labels := Split(name);
    if name == [] {
      assert labels[1..] == [] && Lowered(name) == [];
    } else {
      var rest := Split(name[1..]);
      SplitDotted(name[1..]);
      LoweredNext(name);
      if name[0] == DOT {
        assert labels[1..] == rest;
      } else {
        assert labels[1..] == rest[1..];
        LoweredNext(labels[0]);
        assert Dots(labels) == [Lower(name[0])] + Dots(rest) by { assert Dots(rest) == Lowered(rest[0]) + [DOT] + Dots(rest[1..]); }
      }
    }
  }

  lemma LoweredNext(s: seq<byte>)
    requires s != []
    ensures Lowered(s) == [Lower(s[0])] + Lowered(s[1..])
  {
  }

  // ----- a long part is never read back

  // The labels found are short, whatever the message holds.
  lemma {:induction false} FoundShort(buf: seq<byte>, p: nat, left: nat)
    requires p < |buf| && Walk(buf, p, left).Named?
    ensures forall l :: l in Walk(buf, p, left).labels ==> |l| < 64
    decreases left
  {
    match StepAt(buf, p)
    case End =>
    case Jump(q) => FoundShort(buf, q, left - 1);
    case Label(q, n) => FoundShort(buf, q + n, left - 1);
    case Bad(_) => assert false;
  }

  // 64 bytes without a dot.
  ghost predicate Gap(s: seq<byte>, i: nat) { i + 64 <= |s| && forall j :: i <= j < i + 64 ==> s[j] != DOT }

  lemma {:induction false} ShortNoGap(labels: seq<seq<byte>>, i: nat)
    requires forall l :: l in labels ==> |l| < 64
    ensures !Gap(Dots(labels), i)
  {
    if labels != [] {
      var n, s := |labels[0]|, Dots(labels);
      assert labels[0] in labels && s[n] == DOT;
      if i > n && Gap(s, i) {
        ShortNoGap(labels[1..], i - n - 1);
        forall j | i - n - 1 <= j < i - n + 63 ensures Dots(labels[1..])[j] != DOT {
          assert s[j + n + 1] == Dots(labels[1..])[j];
        }
        assert false;
      }
    }
  }

  lemma {:induction false} LongGap(labels: seq<seq<byte>>) returns (i: nat)
    requires (forall l :: l in labels ==> DOT !in l) && exists l :: l in labels && |l| >= 64
    ensures Gap(Dots(labels), i)
  {
    var n, s := |labels[0]|, Dots(labels);
    if n >= 64 {
      i := 0;
      LoweredPlain(labels[0]);
      forall j | 0 <= j < 64 ensures s[j] != DOT { assert s[j] == Lowered(labels[0])[j]; }
    } else {
      var k := LongGap(labels[1..]);
      i := k + n + 1;
      forall j | i <= j < i + 64 ensures s[j] != DOT { assert s[j] == Dots(labels[1..])[j - n - 1]; }
    }
  }

  lemma LoweredPlain(s: seq<byte>)
    requires DOT !in s
    ensures DOT !in Lowered(s)
  {
    forall j | 0 <= j < |s| ensures Lowered(s)[j] != DOT { assert s[j] in s; }
  }

  lemma {:induction false} PartsPlain(name: seq<byte>)
    ensures forall l :: l in Split(name) ==> DOT !in l
  {
    if name != [] { PartsPlain(name[1..]); }
  }

  lemma {:induction false} DotsEnd(labels: seq<seq<byte>>)
    requires labels != []
    ensures Dots(labels) == Dotted(labels) + [DOT]
  {
    var s := Dots(labels);
    if |labels| > 1 {
      DotsEnd(labels[1..]);
      assert s == Lowered(labels[0]) + [DOT] + Dots(labels[1..]);
    } else {
      assert labels[1..] == [] && Dots(labels[1..]) == [];
      assert s == Lowered(labels[0]) + [DOT] + [];
    }
    assert s[|s| - 1] == DOT;
  }

  // No message has a name with a part over 63 bytes.
  lemma LongNotRead(buf: seq<byte>, src: nat, name: seq<byte>)
    requires src < |buf| && exists l :: l in Split(name) && |l| >= 64
    ensures Copied(buf, src) != Ok(Lowered(name))
  {
    assert name != [];
    if Copied(buf, src) == Ok(Lowered(name)) {
      var labels := Walk(buf, src, MaxSteps).labels;
      FoundShort(buf, src, MaxSteps);
      DotsEnd(labels);
      SplitDotted(name);
      PartsPlain(name);
      var i := LongGap(Split(name));
      ShortNoGap(labels, i);
      assert false;
    }
  }

  // A name written by the encoder, anywhere in a message, is read back in lower
  // case if and only if no label is over 63 bytes and there are at most 127; the
  // encoder lets labels of up to 255 bytes through.
  lemma NameReadBack(name: seq<byte>, before: seq<byte>, after: seq<byte>)
    requires AllFit(Split(name))
    ensures Copied(before + Wire(Split(name)) + after, |before|) == Ok(Lowered(name)) <==>
            (forall l :: l in Split(name) ==> Short(l)) && |Split(name)| <= 127
  {
    var labels := Split(name);
    var buf := before + Wire(labels) + after;
    assert StandsAt(buf, |before|, Wire(labels));
    if forall l :: l in labels ==> Short(l) {
      SplitDotted(name);
      WireSpells(buf, |before|, labels);
      WalkFinds(buf, |before|, labels, |labels|, MaxSteps);
    } else {
      LongNotRead(buf, |before|, name);
    }
  }

  // ----- how many steps are enough

  // Labels of one byte, each but the first behind a pointer.
  function Hop(t: nat): seq<byte>
    requires t < 16384
  {
    [1, 97, (192 + t / 256) as byte, (t % 256) as byte]
  }

  function Hopping(from: nat, k: nat): (r: seq<byte>)
    requires from + 4 * k < 16384
    ensures |r| == 4 * k + 1
    decreases k
  {
    if k == 0 then [0] else Hop(from + 4) + Hopping(from + 4, k - 1)
  }

  function OneByte(m: nat): (r: seq<seq<byte>>)
    ensures |r| == m
  {
    if m == 0 then [] else [[97]] + OneByte(m - 1)
  }

  lemma HopSteps(buf: seq<byte>, p: nat, t: nat)
    requires t < 16384 && t < |buf| && StandsAt(buf, p, Hop(t)) && p + 4 < |buf|
    ensures StepAt(buf, p) == Label(p + 1, 1) && buf[p + 1..p + 2] == [97] && StepAt(buf, p + 2) == Jump(t)
  {
    var hop := buf[p..p + 4];
    assert hop[0] == 1 && hop[1] == 97 && hop[2] == (192 + t / 256) as byte && hop[3] == (t % 256) as byte;
    assert Pointer((192 + t / 256) as byte, (t % 256) as byte) == t;
  }

  lemma {:induction false} HoppingSpells(buf: seq<byte>, p: nat, m: nat)
    requires p + 4 * m < 16384 && StandsAt(buf, p, Hopping(p, m))
    ensures Spells(buf, p, OneByte(m), 2 * m)
    decreases m
  {
    if m > 0 {
      PartsStand(buf, p, Hop(p + 4), Hopping(p + 4, m - 1));
      HopSteps(buf, p, p + 4);
      HoppingSpells(buf, p + 4, m - 1);
      hide StepAt, StandsAt, Hopping, Hop;
      assert Spells(buf, p + 2, OneByte(m - 1), 2 * m - 1);
    } else {
      FirstStands(buf, p, [0]);
    }
  }

  // The header of a message, here an empty one, comes before its first name.
  const Header: seq<byte> := [0, 0, 0, 0, 0, 0, 0, 0, 0, 0, 0, 0]

  // The limit counts labels and pointers alike, so a name of 129 bytes can be
  // taken for a loop although names of 255 bytes are legal.
  lemma LegalNameRefused()
    ensures Spells(Header + Hopping(12, 64), 12, OneByte(64), 128) && Weight(OneByte(64)) + 1 == 129
    ensures Copied(Header + Hopping(12, 64), 12) == Err(PointersLoop)
  {
    hide Hopping, OneByte, Spells, Walk, Weight;
    var buf := Header + Hopping(12, 64);
    assert buf[12..12 + |Hopping(12, 64)|] == Hopping(12, 64);
    HoppingSpells(buf, 12, 64);
    WalkFinds(buf, 12, OneByte(64), 128, MaxSteps);
    OneByteWeight(64);
  }

  lemma {:induction false} OneByteWeight(m: nat)
    ensures Weight(OneByte(m)) == 2 * m
  {
    if m > 0 {
      OneByteWeight(m - 1);
    }
  }
}
