// Two records of the marked stream: what went out, and what was due. A mark that
// goes out before its time, or a mark that never goes out, tells them apart for
// good.
module Marking {
  import opened Bufs

  ghost predicate Parted(went: seq<Token>, due: seq<Token>) {
    exists i :: 0 <= i < |went| && i < |due| && went[i] != due[i]
  }

  // Marks were lost, and no byte has come since.
  ghost predicate Behind(went: seq<Token>, due: seq<Token>) {
    |went| < |due| && went == due[..|went|] && AllMarks(due[|went|..])
  }

  // A mark went out before its time, and the next token is a byte.
  ghost predicate Ahead(went: seq<Token>, due: seq<Token>) {
    |went| == |due| + 1 && due == went[..|due|] && went[|due|].Mark?
  }

  predicate AllMarks(t: seq<Token>) { forall i :: 0 <= i < |t| ==> t[i].Mark? }

  // After n faults; byteNext says that a byte is due next.
  ghost predicate Faulty(went: seq<Token>, due: seq<Token>, n: nat, byteNext: bool) {
    if n == 0 then went == due else Parted(went, due) || Behind(went, due) || (Ahead(went, due) && byteNext)
  }

  // The records agree if and only if there was no fault.
  lemma SameIffNoFault(went: seq<Token>, due: seq<Token>, rest: seq<Token>, n: nat, byteNext: bool)
    requires Faulty(went, due, n, byteNext)
    ensures went + rest == due + rest <==> n == 0
  {
    if went + rest == due + rest {
      assert |went| == |due|;
      assert went == (went + rest)[..|went|] == due;
    }
  }

  // What one buffer gives: bytes first, or marks only.
  predicate Whole(t: seq<Token>) { (t != [] && t[0].Byte?) || AllMarks(t) }

  lemma PartedStays(went: seq<Token>, due: seq<Token>, s: seq<Token>, t: seq<Token>)
    requires Parted(went, due)
    ensures Parted(went + s, due + t)
  {
    var i :| 0 <= i < |went| && i < |due| && went[i] != due[i];
    assert (went + s)[i] != (due + t)[i];
  }

  // The same on both.
  lemma BothGo(went: seq<Token>, due: seq<Token>, t: seq<Token>, n: nat, byteNext: bool, byteNext': bool)
    requires Faulty(went, due, n, byteNext) && Whole(t) && (byteNext ==> t != [] && t[0].Byte?)
    ensures Faulty(went + t, due + t, n, byteNext')
    ensures n > 0 && t != [] && t[0].Byte? ==> Parted(went + t, due + t)
  {
    if n == 0 || t == [] {
      assert went + [] == went && due + [] == due;
    } else if Parted(went, due) {
      PartedStays(went, due, t, t);
    } else if t[0].Byte? {
      var k := if |went| < |due| then |went| else |due|;
      assert Behind(went, due) ==> due[k] == due[|went|..][0];
      assert (went + t)[k] != (due + t)[k];
    } else if !Parted(went + t, due + t) {
      MarksBehind(went, due, t);
    }
  }

  lemma MarksBehind(went: seq<Token>, due: seq<Token>, t: seq<Token>)
    requires Behind(went, due) && AllMarks(t) && !Parted(went + t, due + t)
    ensures Behind(went + t, due + t)
  {
    var w, d := went + t, due + t;
    forall i | 0 <= i < |w| ensures w[i] == d[i] {}
    forall i | |w| <= i < |d| ensures d[i].Mark? {
      if i < |due| { assert d[i] == due[|went|..][i - |went|]; } else { assert d[i] == t[i - |due|]; }
    }
  }

  // Some bytes of a buffer, with a mark that is not due.
  lemma Strays(went: seq<Token>, due: seq<Token>, t: seq<Token>, mark: Token, n: nat, byteNext: bool)
    requires Faulty(went, due, n, byteNext) && t != [] && t[0].Byte? && mark.Mark?
    ensures Faulty(went + (t + [mark]), due + t, n + 1, true)
  {
    BothGo(went, due, t, n, byteNext, false);
    assert went + (t + [mark]) == (went + t) + [mark] && due + t == (due + t) + [];
    if n > 0 { PartedStays(went + t, due + t, [mark], []); }
  }

  // A mark that does not go out.
  lemma Loses(went: seq<Token>, due: seq<Token>, mark: Token, n: nat)
    requires Faulty(went, due, n, false) && mark.Mark?
    ensures Faulty(went, due + [mark], n + 1, false)
  {
    if n > 0 && Parted(went, due) {
      PartedStays(went, due, [], [mark]);
      assert went + [] == went;
    } else {
      assert went == (due + [mark])[..|went|];
      assert (due + [mark])[|went|..] == due[|went|..] + [mark];
    }
  }
}
