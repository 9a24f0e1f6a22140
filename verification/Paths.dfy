// Steps from a state on, one after the other.
module Paths {
  ghost predicate Path<S(!new)>(next: (S, S) -> bool, s: S, more: seq<S>) {
    more == [] || (next(s, more[0]) && Path(next, more[0], more[1..]))
  }

  function End<S>(s: S, more: seq<S>): S { if more == [] then s else more[|more| - 1] }

  lemma First<S(!new)>(next: (S, S) -> bool, s: S, s1: S, more: seq<S>)
    requires next(s, s1) && Path(next, s1, more)
    ensures Path(next, s, [s1] + more) && End(s, [s1] + more) == End(s1, more)
  {
    assert ([s1] + more)[1..] == more;
  }

  lemma {:induction false} Join<S(!new)>(next: (S, S) -> bool, s: S, a: seq<S>, b: seq<S>)
    requires Path(next, s, a) && Path(next, End(s, a), b)
    ensures Path(next, s, a + b) && End(s, a + b) == End(End(s, a), b)
  {
    if a == [] {
      assert a + b == b;
    } else {
      Join(next, a[0], a[1..], b);
      assert (a + b)[1..] == a[1..] + b;
    }
  }

  lemma {:induction false} Link<S(!new)>(next: (S, S) -> bool, s: S, more: seq<S>, i: nat)
    requires Path(next, s, more) && i < |more|
    ensures next(if i == 0 then s else more[i - 1], more[i])
  {
    if i > 0 { Link(next, more[0], more[1..], i - 1); }
  }
}
