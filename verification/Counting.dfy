// Sizes of finite sets that change by one element.
module Counting {

  function If(b: bool): int { if b then 1 else 0 }

  lemma {:induction false} SubsetSize<T>(a: set<T>, b: set<T>)
    requires a <= b
    ensures |a| <= |b|
  {
    if a != {} {
      var x :| x in a;
      SubsetSize(a - {x}, b - {x});
    }
  }

  // Only the membership of p changes.
  lemma SetChange<T>(a: set<T>, a': set<T>, p: T, before: bool, after: bool)
    requires p in a <==> before
    requires p in a' <==> after
    requires forall q :: q in a && q != p ==> q in a'
    requires forall q :: q in a' && q != p ==> q in a
    ensures |a'| == |a| - If(before) + If(after)
  {
    assert a - {p} == a' - {p};
    assert |a - {p}| == |a| - If(before);
    assert |a' - {p}| == |a'| - If(after);
  }
}
