// Nobody waits for ever without need: from every state a process in the lock
// call can still get the lock.
module ShmtxProgress {
  import opened Counting
  import opened Shmtx
  import opened Paths

  ghost function Next(c: Config): (State, State) -> bool { (s, s') => Moves(c, s, s') }

  lemma {:induction false} Continued(c: Config, r: seq<State>, more: seq<State>)
    requires Run(c, r) && Path(Next(c), r[|r| - 1], more)
    ensures Run(c, r + more) && (r + more)[|r + more| - 1] == End(r[|r| - 1], more)
  {
    forall i | 0 < i < |r + more| ensures Moves(c, (r + more)[i - 1], (r + more)[i]) {
      if i >= |r| { Link(Next(c), r[|r| - 1], more, i - |r|); }
    }
  }

  // Inside ngx_shmtx_lock.
  predicate InLock(pc: Pc) {
    pc.Try? || pc.TrySwap? || pc.Announce? || pc.Retry? || pc.RetrySwap? || pc.Withdraw? || pc.Sleep?
  }

  ghost predicate Sound(c: Config, s: State) { |c.procs| < HALF_RANGE && Inv(c, s) }

  // Nobody else has moved.
  ghost predicate OnlyBy(p: Pid, s: State, s': State) {
    s'.pc.Keys == s.pc.Keys && forall q :: q in s.pc && q != p ==> s'.pc[q] == s.pc[q]
  }

  // One action of p.
  lemma Go(c: Config, s: State, p: Pid, pc': Pc, sh': Shared) returns (s': State)
    requires Sound(c, s) && p in s.pc && !s.pc[p].Force? && !pc'.Force? && Acts(c, p, s.pc[p], s.sh, pc', sh')
    ensures s' == State(sh', s.pc[p := pc']) && Moves(c, s, s') && Sound(c, s') && OnlyBy(p, s, s')
  {
    hide Inv;
    s' := State(sh', s.pc[p := pc']);
    assert Step(c, s, p, s');
    StepInv(c, s, p, s');
  }

  // A process that tries takes a free lock.
  lemma Take(c: Config, s: State, p: Pid) returns (more: seq<State>)
    requires Sound(c, s) && p in s.pc
    requires (s.sh.lock == 0 && (Tries(s.pc[p]) || s.pc[p].Announce?)) || (s.sh.lock == p && (s.pc[p].Withdraw? || s.pc[p].Hold?))
    ensures Path(Next(c), s, more) && Sound(c, End(s, more)) && OnlyBy(p, s, End(s, more))
    ensures p in End(s, more).pc && End(s, more).pc[p] == Hold && End(s, more).sh.lock == p && End(s, more).sh.sem == s.sh.sem
    decreases match s.pc[p] case Announce => 4 case Retry => 3 case Try(_) => 2 case Peek => 2 case RetrySwap => 2 case Hold => 0 case _ => 1
  {
    hide Inv;
    var s1;
    match s.pc[p] {
      case Peek => s1 := Go(c, s, p, PeekSwap, s.sh);
      case PeekSwap => s1 := Go(c, s, p, Hold, s.sh.(lock := p));
      case Try(n) => s1 := Go(c, s, p, TrySwap(n), s.sh);
      case TrySwap(_) => s1 := Go(c, s, p, Hold, s.sh.(lock := p));
      case Announce => s1 := Go(c, s, p, Retry, s.sh.(wait := Wrap(s.sh.wait + 1)));
      case Retry => s1 := Go(c, s, p, RetrySwap, s.sh);
      case RetrySwap => s1 := Go(c, s, p, Withdraw, s.sh.(lock := p));
      case Withdraw => s1 := Go(c, s, p, Hold, s.sh.(wait := Wrap(s.sh.wait - 1)));
      case Hold => more := []; return;
    }
    more := Take(c, s1, p);
    First(Next(c), s, s1, more);
    more := [s1] + more;
  }

  // The owner gives the lock back, and is about to look for sleepers.
  lemma GiveBack(c: Config, s: State, p: Pid) returns (more: seq<State>)
    requires Sound(c, s) && p in s.pc && s.sh.lock == p && !s.pc[p].Dead?
    ensures Path(Next(c), s, more) && Sound(c, End(s, more)) && OnlyBy(p, s, End(s, more))
    ensures p in End(s, more).pc && End(s, more).pc[p] == ReadWait && End(s, more).sh.lock == 0 && End(s, more).sh.sem == s.sh.sem
    decreases match s.pc[p] case Withdraw => 2 case Hold => 1 case _ => 0
  {
    hide NoSleepers, TakersSawSome, Conserved, NoneForgotten;
    var s1;
    match s.pc[p] {
      case Withdraw => s1 := Go(c, s, p, Hold, s.sh.(wait := Wrap(s.sh.wait - 1)));
      case Hold => s1 := Go(c, s, p, Release, s.sh);
      case Release =>
        s1 := Go(c, s, p, ReadWait, s.sh.(lock := 0));
        more := [s1];
        First(Next(c), s, s1, []);
        return;
    }
    more := GiveBack(c, s1, p);
    First(Next(c), s, s1, more);
    more := [s1] + more;
  }

  // A process that wakes others posts, as long as there is anybody to wake.
  lemma Wake(c: Config, s: State, p: Pid) returns (more: seq<State>)
    requires Sound(c, s) && c.semaphore && p in s.pc && Wakes(s.pc[p]) && s.sh.lock == 0
    requires s.pc[p].Post? || Signed(s.sh.wait) > 0
    ensures Path(Next(c), s, more) && Sound(c, End(s, more)) && OnlyBy(p, s, End(s, more))
    ensures End(s, more).sh.sem == s.sh.sem + 1 && End(s, more).sh.lock == 0
    decreases match s.pc[p] case TakeWaiter(w) => if w == s.sh.wait then 1 else 3 case ReadWait => 2 case _ => 0
  {
    hide Inv;
    var s1;
    match s.pc[p] {
      case ReadWait => s1 := Go(c, s, p, TakeWaiter(s.sh.wait), s.sh);
      case TakeWaiter(w) =>
        if w == s.sh.wait {
          s1 := Go(c, s, p, Post, s.sh.(wait := Wrap(w - 1)));
        } else {
          s1 := Go(c, s, p, ReadWait, s.sh);
        }
      case Post =>
        s1 := Go(c, s, p, Idle, s.sh.(sem := s.sh.sem + 1));
        more := [s1];
        First(Next(c), s, s1, []);
        return;
    }
    more := Wake(c, s1, p);
    First(Next(c), s, s1, more);
    more := [s1] + more;
  }

  // A sleeper is on the counter, or a post is owed to it, or one was made.
  lemma Owed(c: Config, s: State, p: Pid)
    requires Sound(c, s) && p in s.pc && s.pc[p] == Sleep
    ensures c.semaphore && Signed(s.sh.wait) + s.sh.sem + |Posting(s)| > 0
    ensures Posting(s) == {} && s.sh.sem == 0 ==> Signed(s.sh.wait) > 0
  {
    assert p in Waiting(s);
  }

  // With the lock free, a sleeper can be posted.
  lemma Roused(c: Config, s: State, p: Pid) returns (more: seq<State>)
    requires Sound(c, s) && p in s.pc && s.pc[p] == Sleep && s.sh.lock == 0
    ensures Path(Next(c), s, more) && Sound(c, End(s, more))
    ensures p in End(s, more).pc && End(s, more).pc[p] == Sleep && End(s, more).sh.lock == 0 && End(s, more).sh.sem > 0
  {
    hide Inv;
    Owed(c, s, p);
    if s.sh.sem > 0 {
      return [];
    }
    if q :| q in Posting(s) {
      more := Wake(c, s, q);
    } else {
      assert Posting(s) == {};
      Active(c, s);
      if q :| q in s.pc && Wakes(s.pc[q]) {
        more := Wake(c, s, q);
      } else {
        var q :| q in s.pc && Tries(s.pc[q]);
        more := TryWake(c, s, q, p);
      }
    }
  }

  lemma Active(c: Config, s: State)
    requires Sound(c, s) && s.sh.lock == 0 && Signed(s.sh.wait) > 0 && s.sh.sem == 0
    ensures SomeoneActive(s)
  {
  }

  // Another process takes the lock, gives it back and looks for sleepers.
  lemma TryWake(c: Config, s: State, q: Pid, p: Pid) returns (more: seq<State>)
    requires Sound(c, s) && p in s.pc && s.pc[p] == Sleep && s.sh.lock == 0 && s.sh.sem == 0
    requires q in s.pc && Tries(s.pc[q]) && forall o :: o in s.pc ==> !Wakes(s.pc[o])
    ensures Path(Next(c), s, more) && Sound(c, End(s, more))
    ensures p in End(s, more).pc && End(s, more).pc[p] == Sleep && End(s, more).sh.lock == 0 && End(s, more).sh.sem > 0
  {
    hide Inv;
    var a := Take(c, s, q);
    var s1 := End(s, a);
    var b := GiveBack(c, s1, q);
    var s2 := End(s1, b);
    Join(Next(c), s, a, b);
    Owed(c, s2, p);
    assert Posting(s2) == {};
    var d := Wake(c, s2, q);
    Join(Next(c), s, a + b, d);
    more := a + b + d;
  }

  // With the lock free, a process in the lock call can get it.
  lemma GetsFree(c: Config, s: State, p: Pid) returns (more: seq<State>)
    requires Sound(c, s) && p in s.pc && InLock(s.pc[p]) && !s.pc[p].Withdraw? && s.sh.lock == 0
    ensures Path(Next(c), s, more) && p in End(s, more).pc && End(s, more).pc[p] == Hold
  {
    hide Inv;
    if s.pc[p] != Sleep {
      more := Take(c, s, p);
      return;
    }
    var a := Roused(c, s, p);
    var s1 := End(s, a);
    var s2 := Go(c, s1, p, Try(0), s1.sh.(sem := s1.sh.sem - 1));
    var b := Take(c, s2, p);
    First(Next(c), s1, s2, b);
    Join(Next(c), s, a, [s2] + b);
    more := a + ([s2] + b);
  }

  // A process that is idle forces a dead owner's lock open.
  lemma ForceOpen(c: Config, s: State, q: Pid) returns (more: seq<State>)
    requires Sound(c, s) && q in s.pc && s.pc[q] == Idle && s.sh.lock in s.pc && s.pc[s.sh.lock].Dead?
    ensures Path(Next(c), s, more) && Sound(c, End(s, more)) && End(s, more).sh.lock == 0 && End(s, more).pc.Keys == s.pc.Keys
    ensures forall o :: o in s.pc && o != q && o != s.sh.lock ==> End(s, more).pc[o] == s.pc[o]
  {
    hide Inv;
    var d := s.sh.lock;
    var s1 := State(s.sh, s.pc[q := Force(d)]);
    assert Step(c, s, q, s1);
    StepInv(c, s, q, s1);
    var s2 := State(s1.sh.(lock := 0), s1.pc[d := Gone][q := ReadWait]);
    assert Step(c, s1, q, s2);
    StepInv(c, s1, q, s2);
    First(Next(c), s1, s2, []);
    First(Next(c), s, s1, [s2]);
    more := [s1, s2];
  }

  // While another process has the lock, one that wants it goes to sleep.
  lemma FallAsleep(c: Config, s: State, p: Pid) returns (more: seq<State>)
    requires Sound(c, s) && c.semaphore && p in s.pc && s.sh.lock != 0 && InLock(s.pc[p]) && !s.pc[p].Withdraw?
    ensures Path(Next(c), s, more) && OnlyBy(p, s, End(s, more))
    ensures p in End(s, more).pc && End(s, more).pc[p] == Sleep && End(s, more).sh.lock == s.sh.lock
    decreases match s.pc[p] case Try(_) => 4 case TrySwap(_) => 4 case Announce => 3 case Sleep => 0 case _ => 1,
              match s.pc[p] case Try(n) => if n < c.spin then c.spin - n else 0 case TrySwap(n) => if n < c.spin then c.spin - n else 0 case _ => 0
  {
    hide Inv;
    var s1;
    match s.pc[p] {
      case Try(n) => s1 := Go(c, s, p, AfterTry(c, n), s.sh);
      case TrySwap(n) => s1 := Go(c, s, p, AfterTry(c, n), s.sh);
      case Announce => s1 := Go(c, s, p, Retry, s.sh.(wait := Wrap(s.sh.wait + 1)));
      case Retry => s1 := Go(c, s, p, Sleep, s.sh);
      case RetrySwap => s1 := Go(c, s, p, Sleep, s.sh);
      case Sleep => more := []; return;
    }
    more := FallAsleep(c, s1, p);
    First(Next(c), s, s1, more);
    more := [s1] + more;
  }

  // ----- the theorems

  // A process that sleeps goes on as soon as there is a post: it takes it and
  // tries again, whatever the others do.
  lemma PostWakes(c: Config, r: seq<State>, s: State, p: Pid) returns (s': State)
    requires |c.procs| < HALF_RANGE && Run(c, r) && s == r[|r| - 1]
    requires p in s.pc && s.pc[p] == Sleep && s.sh.sem > 0
    ensures Run(c, r + [s']) && OnlyBy(p, s, s') && p in s'.pc && s'.pc[p] == Try(0)
    ensures s'.sh.sem == s.sh.sem - 1 && s'.sh.lock == s.sh.lock && s'.sh.wait == s.sh.wait
  {
    RunInv(c, r, |r| - 1);
    s' := Go(c, s, p, Try(0), s.sh.(sem := s.sh.sem - 1));
    First(Next(c), s, s', []);
    Continued(c, r, [s']);
  }

  // From every state a process in the lock call can still get the lock: the run
  // has a continuation that ends with it in the critical section. If the owner
  // has died, another process has to be there to force the lock open.
  lemma LockCanBeHad(c: Config, r: seq<State>, s: State, p: Pid) returns (more: seq<State>)
    requires |c.procs| < HALF_RANGE && Run(c, r) && s == r[|r| - 1] && p in s.pc && InLock(s.pc[p])
    requires (forall q :: q in s.pc ==> s.pc[q] != Dead) || (exists q :: q in s.pc && s.pc[q] == Idle)
    ensures Run(c, r + more)
    ensures var end := (r + more)[|r + more| - 1]; p in end.pc && end.pc[p] == Hold
  {
    hide NoSleepers, TakersSawSome, Conserved, NoneForgotten;
    RunInv(c, r, |r| - 1);
    if s.sh.lock == p {
      more := Take(c, s, p);
    } else {
      var a := [];
      if s.sh.lock != 0 {
        if s.pc[s.sh.lock].Dead? {
          var q :| q in s.pc && s.pc[q] == Idle;
          a := ForceOpen(c, s, q);
        } else {
          a := GiveBack(c, s, s.sh.lock);
        }
      }
      var b := GetsFree(c, End(s, a), p);
      Join(Next(c), s, a, b);
      more := a + b;
    }
    Continued(c, r, more);
  }

  // A process that finds the lock free has it by its own steps; one that finds
  // it taken goes to sleep by them, as there is a semaphore.
  lemma LockAlone(c: Config, r: seq<State>, s: State, p: Pid) returns (more: seq<State>)
    requires |c.procs| < HALF_RANGE && c.semaphore && Run(c, r) && s == r[|r| - 1]
    requires p in s.pc && InLock(s.pc[p]) && !s.pc[p].Withdraw? && !s.pc[p].Sleep?
    ensures Run(c, r + more) && OnlyBy(p, s, (r + more)[|r + more| - 1])
    ensures var end := (r + more)[|r + more| - 1]; p in end.pc && end.pc[p] == if s.sh.lock == 0 then Hold else Sleep
  {
    hide Inv;
    RunInv(c, r, |r| - 1);
    if s.sh.lock == 0 {
      more := Take(c, s, p);
    } else {
      more := FallAsleep(c, s, p);
    }
    Continued(c, r, more);
  }

  // A try without waiting succeeds on a free lock, and else gives up.
  lemma TryAlone(c: Config, r: seq<State>, s: State, p: Pid) returns (more: seq<State>)
    requires |c.procs| < HALF_RANGE && Run(c, r) && s == r[|r| - 1] && p in s.pc && s.pc[p] == Peek
    ensures Run(c, r + more) && OnlyBy(p, s, (r + more)[|r + more| - 1])
    ensures var end := (r + more)[|r + more| - 1]; p in end.pc && end.pc[p] == if s.sh.lock == 0 then Hold else Idle
  {
    hide Inv;
    RunInv(c, r, |r| - 1);
    if s.sh.lock == 0 {
      more := Take(c, s, p);
    } else {
      var s1 := Go(c, s, p, Idle, s.sh);
      First(Next(c), s, s1, []);
      more := [s1];
    }
    Continued(c, r, more);
  }

  // Giving the lock back frees it.
  lemma UnlockFrees(c: Config, r: seq<State>, i: nat, p: Pid)
    requires |c.procs| < HALF_RANGE && Run(c, r) && i + 1 < |r| && p in r[i].pc && r[i].pc[p] == Release
    ensures p in r[i + 1].pc && (r[i + 1].pc[p] != Release ==> r[i + 1].sh.lock == 0 && r[i + 1].pc[p] == ReadWait)
  {
    hide NoSleepers, TakersSawSome, Conserved, NoneForgotten;
    RunInv(c, r, i);
    assert Moves(c, r[i + 1 - 1], r[i + 1]);
    var q :| Step(c, r[i], q, r[i + 1]);
    StepLocal(c, r[i], q, r[i + 1]);
  }
}
