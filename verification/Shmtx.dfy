// The shared-memory mutex with atomic operations: a lock word, a counter of
// waiting processes and a semaphore, as interleaved atomic steps of any number
// of processes.
module Shmtx {
  import opened Counting

  const WORD_RANGE: nat := 0x1_0000_0000_0000_0000
  const HALF_RANGE: nat := 0x8000_0000_0000_0000

  type Word = k: nat | k < WORD_RANGE
  type Pid = p: nat | 0 < p witness 1

  function Wrap(x: int): Word { x % WORD_RANGE }

  function Signed(k: Word): int { if k < HALF_RANGE then k else k - WORD_RANGE }

  // What a process is about to do.
  datatype Pc =
    | Idle
    // ngx_shmtx_trylock
    | Peek
    | PeekSwap
    // ngx_shmtx_lock: n is the pause count of the spin, 0 for the first try
    | Try(n: nat)
    | TrySwap(n: nat)
    | Announce
    | Retry
    | RetrySwap
    | Withdraw
    | Sleep
    // in the critical section
    | Hold
    // ngx_shmtx_unlock and ngx_shmtx_force_unlock
    | Release
    | Force(dead: Pid)
    // ngx_shmtx_wakeup
    | ReadWait
    | TakeWaiter(seen: Word)
    | Post
    // died in the critical section; died otherwise, or no longer the owner
    | Dead
    | Gone

  // What the processes share, and where each of them is.
  datatype Shared = Shared(lock: nat, wait: Word, sem: nat)
  datatype State = State(sh: Shared, pc: map<Pid, Pc>)

  datatype Config = Config(procs: set<Pid>, ncpu: nat, spin: nat, semaphore: bool)

  ghost predicate Init(c: Config, s: State) {
    s == State(Shared(0, 0, 0), map p | p in c.procs :: Idle)
  }

  // A failed try of ngx_shmtx_lock: the next turn of the spin, or the end of it.
  function AfterTry(c: Config, n: nat): Pc {
    var next := if n == 0 then 1 else 2 * n;
    if c.ncpu > 1 && next < c.spin then Try(next)
    else if c.semaphore then Announce
    else Try(0)
  }

  // One atomic action of process p, which takes it from pc to pc' and the
  // shared words from sh to sh'.
  predicate Acts(c: Config, p: Pid, pc: Pc, sh: Shared, pc': Pc, sh': Shared) {
    match pc
    case Idle => (pc' == Peek || pc' == Try(0) || pc' == Gone || pc'.Force?) && sh' == sh
    case Peek => pc' == (if sh.lock == 0 then PeekSwap else Idle) && sh' == sh
    case PeekSwap => if sh.lock == 0 then pc' == Hold && sh' == sh.(lock := p) else pc' == Idle && sh' == sh
    case Try(n) => pc' == (if sh.lock == 0 then TrySwap(n) else AfterTry(c, n)) && sh' == sh
    case TrySwap(n) => if sh.lock == 0 then pc' == Hold && sh' == sh.(lock := p) else pc' == AfterTry(c, n) && sh' == sh
    case Announce => pc' == Retry && sh' == sh.(wait := Wrap(sh.wait + 1))
    case Retry => pc' == (if sh.lock == 0 then RetrySwap else Sleep) && sh' == sh
    case RetrySwap => if sh.lock == 0 then pc' == Withdraw && sh' == sh.(lock := p) else pc' == Sleep && sh' == sh
    case Withdraw => pc' == Hold && sh' == sh.(wait := Wrap(sh.wait - 1))
    // sem_wait blocks while the semaphore is zero; a signal only makes it start over
    case Sleep => (pc' == Sleep && sh' == sh) || (sh.sem > 0 && pc' == Try(0) && sh' == sh.(sem := sh.sem - 1))
    case Hold => (pc' == Release || pc' == Dead) && sh' == sh
    case Release => if sh.lock == p then pc' == ReadWait && sh' == sh.(lock := 0) else pc' == Idle && sh' == sh
    case Force(q) => if sh.lock == q then pc' == ReadWait && sh' == sh.(lock := 0) else pc' == Idle && sh' == sh
    case ReadWait => pc' == (if !c.semaphore || Signed(sh.wait) <= 0 then Idle else TakeWaiter(sh.wait)) && sh' == sh
    case TakeWaiter(w) => if sh.wait == w then pc' == Post && sh' == sh.(wait := Wrap(w - 1)) else pc' == ReadWait && sh' == sh
    case Post => pc' == Idle && sh' == sh.(sem := sh.sem + 1)
    case Dead => false
    case Gone => false
  }

  predicate Lost(s: State, q: Pid) { q in s.pc && (s.pc[q].Dead? || s.pc[q].Gone?) }

  // A forced unlock that succeeds ends the dead process's claim to the lock.
  function Bury(s: State, p: Pid): map<Pid, Pc>
    requires p in s.pc
  {
    if s.pc[p].Force? && s.sh.lock == s.pc[p].dead && s.pc[p].dead in s.pc then s.pc[s.pc[p].dead := Gone] else s.pc
  }

  // One step of the system.
  predicate Step(c: Config, s: State, p: Pid, s': State) {
    && p in s.pc && p in s'.pc
    && Acts(c, p, s.pc[p], s.sh, s'.pc[p], s'.sh)
    && (s'.pc[p].Force? ==> Lost(s, s'.pc[p].dead))
    && s'.pc == Bury(s, p)[p := s'.pc[p]]
  }

  ghost predicate Moves(c: Config, s: State, s': State) {
    exists p :: Step(c, s, p, s')
  }

  // Any finite run, of any interleaving.
  ghost predicate Run(c: Config, r: seq<State>) {
    && |r| > 0 && Init(c, r[0])
    && forall i :: 0 < i < |r| ==> Moves(c, r[i - 1], r[i])
  }

  // ----- what is to be shown

  // Between taking the lock and giving it back.
  predicate Owns(pc: Pc) { pc.Withdraw? || pc.Hold? || pc.Release? || pc.Dead? }

  // Between adding to the counter and either taking it back or waking up.
  predicate Waits(pc: Pc) { pc.Retry? || pc.RetrySwap? || pc.Withdraw? || pc.Sleep? }

  // Between a test of the lock that found it taken, if any, and the next one.
  predicate Tries(pc: Pc) {
    pc.Peek? || pc.PeekSwap? || pc.Try? || pc.TrySwap? || pc.Retry? || pc.RetrySwap?
  }

  predicate Wakes(pc: Pc) { pc.ReadWait? || pc.TakeWaiter? || pc.Post? }

  function Waiting(s: State): set<Pid> { set p | p in s.pc && Waits(s.pc[p]) }

  function Posting(s: State): set<Pid> { set p | p in s.pc && s.pc[p].Post? }

  ghost predicate Exclusive(s: State) {
    && (s.sh.lock != 0 ==> s.sh.lock in s.pc && Owns(s.pc[s.sh.lock]))
    && (forall p :: p in s.pc && Owns(s.pc[p]) ==> s.sh.lock == p)
  }

  // The counter, read as a signed number, with the semaphore and the posts
  // still owed, makes up the waiting processes.
  ghost predicate Conserved(c: Config, s: State) {
    && Signed(s.sh.wait) + s.sh.sem + |Posting(s)| == |Waiting(s)|
    && s.sh.sem + |Posting(s)| <= |c.procs|
  }

  ghost predicate SomeoneActive(s: State) {
    exists p :: p in s.pc && (Tries(s.pc[p]) || Wakes(s.pc[p]))
  }

  // While the lock is free and the counter positive, somebody will see to it.
  ghost predicate NoneForgotten(s: State) {
    s.sh.lock == 0 && Signed(s.sh.wait) > 0 ==> s.sh.sem > 0 || SomeoneActive(s)
  }

  ghost predicate Inv(c: Config, s: State) {
    && s.pc.Keys == c.procs
    && Forceable(s)
    && NoSleepers(c, s)
    && TakersSawSome(s)
    && Exclusive(s)
    && Conserved(c, s)
    && NoneForgotten(s)
  }

  // ----- the invariant holds over every run

  lemma InitInv(c: Config, s: State)
    requires Init(c, s)
    ensures Inv(c, s)
  {
    assert Waiting(s) == {} && Posting(s) == {};
  }

  lemma CountChange(s: State, s': State, p: Pid)
    requires p in s.pc && s'.pc.Keys == s.pc.Keys
    requires forall q :: q in s.pc && q != p ==> Waits(s'.pc[q]) == Waits(s.pc[q]) && s'.pc[q].Post? == s.pc[q].Post?
    ensures |Waiting(s')| == |Waiting(s)| - If(Waits(s.pc[p])) + If(Waits(s'.pc[p]))
    ensures |Posting(s')| == |Posting(s)| - If(s.pc[p].Post?) + If(s'.pc[p].Post?)
  {
    SetChange(Waiting(s), Waiting(s'), p, Waits(s.pc[p]), Waits(s'.pc[p]));
    SetChange(Posting(s), Posting(s'), p, s.pc[p].Post?, s'.pc[p].Post?);
  }

  lemma Bounded(c: Config, s: State)
    requires s.pc.Keys == c.procs
    ensures |Waiting(s)| <= |c.procs|
    ensures forall p :: p in c.procs && !Waits(s.pc[p]) ==> |Waiting(s)| < |c.procs|
  {
    SubsetSize(Waiting(s), c.procs);
    forall p | p in c.procs && !Waits(s.pc[p]) ensures |Waiting(s)| < |c.procs| {
      SubsetSize(Waiting(s), c.procs - {p});
    }
  }

  ghost predicate Forceable(s: State) {
    forall p :: p in s.pc && s.pc[p].Force? ==> Lost(s, s.pc[p].dead)
  }

  // Only p's place changes, except that a forced-out owner is gone.
  lemma StepLocal(c: Config, s: State, p: Pid, s': State)
    requires Forceable(s) && Step(c, s, p, s')
    ensures s'.pc.Keys == s.pc.Keys && Forceable(s')
    ensures forall q :: q in s.pc && q != p ==>
      s'.pc[q] == s.pc[q] || (s.pc[p] == Force(q) && s.sh.lock == q && s.pc[q].Dead? && s'.pc[q].Gone?)
  {
    assert !s.pc[p].Dead? && !s.pc[p].Gone?;
    assert forall q :: Lost(s, q) ==> Lost(s', q);
  }

  // How the lock word and p's claim to it change together.
  lemma StepLock(c: Config, s: State, p: Pid, s': State)
    requires s.pc.Keys == c.procs && Forceable(s) && Exclusive(s) && Step(c, s, p, s')
    ensures s'.sh.lock == s.sh.lock || (s.sh.lock == 0 && s'.sh.lock == p && Owns(s'.pc[p])) || s'.sh.lock == 0
    ensures s'.sh.lock == s.sh.lock ==> (Owns(s'.pc[p]) <==> Owns(s.pc[p]))
    ensures s'.sh.lock == 0 ==> !Owns(s'.pc[p])
    ensures s'.sh.lock == 0 && s.sh.lock != 0 ==> s.sh.lock == p || s.pc[p] == Force(s.sh.lock)
  {
  }

  lemma StepExclusive(c: Config, s: State, p: Pid, s': State)
    requires s.pc.Keys == c.procs && Forceable(s) && Exclusive(s) && Step(c, s, p, s')
    ensures Exclusive(s')
  {
    StepLocal(c, s, p, s');
    StepLock(c, s, p, s');
    if s'.sh.lock == 0 && s.sh.lock != 0 && s.sh.lock != p {
      assert s.pc[s.sh.lock].Dead? && s'.pc[s.sh.lock].Gone?;
    }
  }

  // Without a semaphore nobody waits on it.
  ghost predicate NoSleepers(c: Config, s: State) {
    !c.semaphore ==> forall p :: p in s.pc ==> !Waits(s.pc[p]) && !s.pc[p].Announce?
  }

  lemma StepNoSleepers(c: Config, s: State, p: Pid, s': State)
    requires s.pc.Keys == c.procs && Forceable(s) && NoSleepers(c, s) && Step(c, s, p, s')
    ensures NoSleepers(c, s')
  {
    StepLocal(c, s, p, s');
  }

  lemma NobodyWaits(c: Config, s: State)
    requires NoSleepers(c, s) && Conserved(c, s)
    ensures !c.semaphore ==> Signed(s.sh.wait) <= 0
  {
    if !c.semaphore {
      assert Waiting(s) == {};
    }
  }

  lemma WrapAdds(w: Word, d: int)
    requires 0 <= Signed(w) + d + HALF_RANGE < WORD_RANGE
    ensures Signed(Wrap(w + d)) == Signed(w) + d
  {
  }

  // What one step adds to the counter, the semaphore, the waiting and the
  // posting processes.
  ghost predicate Delta(s: State, p: Pid, s': State) {
    && p in s.pc && s'.pc.Keys == s.pc.Keys
    && (forall q :: q in s.pc && q != p ==> Waits(s'.pc[q]) == Waits(s.pc[q]) && s'.pc[q].Post? == s.pc[q].Post?)
    && var (pc, pc') := (s.pc[p], s'.pc[p]);
    && var (announced, withdrawn, woken, taken, posted) :=
        (pc.Announce?, pc.Withdraw?, pc.Sleep? && !pc'.Sleep?, pc.TakeWaiter? && pc'.Post?, pc.Post?);
    && s'.sh.wait == Wrap(s.sh.wait + If(announced) - If(withdrawn) - If(taken))
    && s'.sh.sem == s.sh.sem + If(posted) - If(woken)
    && If(Waits(pc')) - If(Waits(pc)) == If(announced) - If(withdrawn) - If(woken)
    && If(pc'.Post?) - If(pc.Post?) == If(taken) - If(posted)
    && (taken ==> pc == TakeWaiter(s.sh.wait))
  }

  lemma StepDelta(c: Config, s: State, p: Pid, s': State)
    requires s.pc.Keys == c.procs && Forceable(s) && Step(c, s, p, s')
    ensures Delta(s, p, s')
  {
    hide Conserved;
    StepLocal(c, s, p, s');
  }

  // A waker takes a waiter only off a positive counter.
  ghost predicate TakersSawSome(s: State) {
    forall p :: p in s.pc && s.pc[p].TakeWaiter? ==> Signed(s.pc[p].seen) > 0
  }

  lemma StepTakers(c: Config, s: State, p: Pid, s': State)
    requires s.pc.Keys == c.procs && Forceable(s) && TakersSawSome(s) && Step(c, s, p, s')
    ensures TakersSawSome(s')
  {
    StepLocal(c, s, p, s');
  }

  // The law in numbers: n processes, wg of them waiting, ps of them posting.
  lemma LawKept(n: nat, w: Word, sem: nat, ps: nat, wg: nat, announced: bool, withdrawn: bool, woken: bool, taken: bool, posted: bool)
    requires n < HALF_RANGE && wg <= n
    requires Signed(w) + sem + ps == wg && sem + ps <= n
    requires taken ==> Signed(w) > 0 && !withdrawn
    requires announced ==> wg < n && !withdrawn && !taken
    requires withdrawn ==> wg > 0
    ensures var d := If(announced) - If(withdrawn) - If(taken);
      && Signed(Wrap(w + d)) + (sem + If(posted) - If(woken)) + (ps + If(taken) - If(posted)) == wg + If(announced) - If(withdrawn) - If(woken)
      && sem + ps + If(taken) - If(woken) <= n
  {
    WrapAdds(w, If(announced) - If(withdrawn) - If(taken));
  }

  lemma DeltaConserves(c: Config, s: State, p: Pid, s': State)
    requires |c.procs| < HALF_RANGE && s.pc.Keys == c.procs
    requires TakersSawSome(s) && Conserved(c, s) && Delta(s, p, s')
    ensures Conserved(c, s')
  {
    hide Posting;
    CountChange(s, s', p);
    Bounded(c, s);
    var (pc, pc') := (s.pc[p], s'.pc[p]);
    assert pc.Withdraw? ==> p in Waiting(s);
    LawKept(|c.procs|, s.sh.wait, s.sh.sem, |Posting(s)|, |Waiting(s)|,
      pc.Announce?, pc.Withdraw?, pc.Sleep? && !pc'.Sleep?, pc.TakeWaiter? && pc'.Post?, pc.Post?);
  }

  // Whoever stops trying on a free lock or stops waking leaves no positive
  // counter behind.
  lemma StepActive(c: Config, s: State, p: Pid, s': State)
    requires s.pc.Keys == c.procs && Forceable(s) && Exclusive(s) && Step(c, s, p, s')
    requires c.semaphore && s'.sh.lock == 0 && s'.sh.sem == 0 && Signed(s'.sh.wait) > 0
    requires !Tries(s'.pc[p]) && !Wakes(s'.pc[p])
    ensures !Tries(s.pc[p]) && !Wakes(s.pc[p]) && s.sh.lock == 0 && s.sh.sem == 0 && s'.sh.wait == s.sh.wait
  {
  }

  lemma StepNoneForgotten(c: Config, s: State, p: Pid, s': State)
    requires |c.procs| < HALF_RANGE
    requires Inv(c, s) && Step(c, s, p, s') && Conserved(c, s') && NoSleepers(c, s')
    ensures NoneForgotten(s')
  {
    StepLocal(c, s, p, s');
    NobodyWaits(c, s');
    if s'.sh.lock == 0 && Signed(s'.sh.wait) > 0 && s'.sh.sem == 0 {
      if !Tries(s'.pc[p]) && !Wakes(s'.pc[p]) {
        StepActive(c, s, p, s');
        var q :| q in s.pc && (Tries(s.pc[q]) || Wakes(s.pc[q]));
        assert s'.pc[q] == s.pc[q];
      }
    }
  }

  lemma StepInv(c: Config, s: State, p: Pid, s': State)
    requires |c.procs| < HALF_RANGE && Inv(c, s) && Step(c, s, p, s')
    ensures Inv(c, s')
  {
    StepLocal(c, s, p, s');
    StepExclusive(c, s, p, s');
    StepNoSleepers(c, s, p, s');
    StepTakers(c, s, p, s');
    StepDelta(c, s, p, s');
    DeltaConserves(c, s, p, s');
    StepNoneForgotten(c, s, p, s');
  }

  lemma {:induction false} RunInv(c: Config, r: seq<State>, i: nat)
    requires |c.procs| < HALF_RANGE && Run(c, r) && i < |r|
    ensures Inv(c, r[i])
  {
    if i == 0 {
      InitInv(c, r[0]);
    } else {
      RunInv(c, r, i - 1);
      var p :| Step(c, r[i - 1], p, r[i]);
      StepInv(c, r[i - 1], p, r[i]);
    }
  }

  // ----- the theorems

  // At most one process is between taking the lock and giving it back.
  lemma MutualExclusion(c: Config, r: seq<State>, i: nat, p: Pid, q: Pid)
    requires |c.procs| < HALF_RANGE && Run(c, r) && i < |r|
    requires p in r[i].pc && q in r[i].pc && Owns(r[i].pc[p]) && Owns(r[i].pc[q])
    ensures p == q && r[i].sh.lock == p
  {
    RunInv(c, r, i);
  }

  lemma WaitersConserved(c: Config, r: seq<State>, i: nat)
    requires |c.procs| < HALF_RANGE && Run(c, r) && i < |r|
    ensures Signed(r[i].sh.wait) + r[i].sh.sem + |Posting(r[i])| == |Waiting(r[i])|
    ensures r[i].sh.sem + |Posting(r[i])| <= |c.procs|
  {
    RunInv(c, r, i);
  }

  // Nobody sleeps on a free lock unless somebody is about to test the lock or
  // to wake a sleeper.
  lemma NoLostWakeup(c: Config, r: seq<State>, i: nat, p: Pid)
    requires |c.procs| < HALF_RANGE && Run(c, r) && i < |r|
    requires r[i].sh.lock == 0 && r[i].sh.sem == 0
    requires p in r[i].pc && r[i].pc[p] == Sleep
    ensures SomeoneActive(r[i])
  {
    var s := r[i];
    RunInv(c, r, i);
    assert p in Waiting(s);
    if Posting(s) != {} {
      var q :| q in Posting(s);
      assert Wakes(s.pc[q]);
    }
  }

  // A process that tries, wakes somebody or lives in the critical section can
  // act, and its action changes something.
  lemma CanAct(c: Config, p: Pid, pc: Pc, sh: Shared) returns (pc': Pc, sh': Shared)
    requires Tries(pc) || Wakes(pc) || (Owns(pc) && !pc.Dead?)
    requires c.semaphore
    ensures Acts(c, p, pc, sh, pc', sh') && pc' != pc && !pc'.Force?
  {
    sh' := sh;
    match pc
    case Peek => pc' := if sh.lock == 0 then PeekSwap else Idle;
    case PeekSwap => if sh.lock == 0 { pc', sh' := Hold, sh.(lock := p); } else { pc' := Idle; }
    case Try(n) => pc' := if sh.lock == 0 then TrySwap(n) else AfterTry(c, n);
    case TrySwap(n) => if sh.lock == 0 { pc', sh' := Hold, sh.(lock := p); } else { pc' := AfterTry(c, n); }
    case Retry => pc' := if sh.lock == 0 then RetrySwap else Sleep;
    case RetrySwap => if sh.lock == 0 { pc', sh' := Withdraw, sh.(lock := p); } else { pc' := Sleep; }
    case Withdraw => pc', sh' := Hold, sh.(wait := Wrap(sh.wait - 1));
    case Hold => pc' := Release;
    case Release => if sh.lock == p { pc', sh' := ReadWait, sh.(lock := 0); } else { pc' := Idle; }
    case ReadWait => pc' := if !c.semaphore || Signed(sh.wait) <= 0 then Idle else TakeWaiter(sh.wait);
    case TakeWaiter(w) => if sh.wait == w { pc', sh' := Post, sh.(wait := Wrap(w - 1)); } else { pc' := ReadWait; }
    case Post => pc', sh' := Idle, sh.(sem := sh.sem + 1);
  }

  // While a process sleeps on an empty semaphore and no dead process has the
  // lock, another process can move.
  lemma NeverStuck(c: Config, r: seq<State>, i: nat, p: Pid)
    requires |c.procs| < HALF_RANGE && Run(c, r) && i < |r|
    requires p in r[i].pc && r[i].pc[p] == Sleep && r[i].sh.sem == 0
    requires forall q :: q in r[i].pc ==> r[i].pc[q] != Dead
    ensures exists q, s' :: q != p && Step(c, r[i], q, s') && s' != r[i]
  {
    var s := r[i];
    RunInv(c, r, i);
    assert c.semaphore;
    var q: Pid;
    if s.sh.lock == 0 {
      NoLostWakeup(c, r, i, p);
      q :| q in s.pc && (Tries(s.pc[q]) || Wakes(s.pc[q]));
    } else {
      q := s.sh.lock;
    }
    var pc', sh' := CanAct(c, q, s.pc[q], s.sh);
    var s' := State(sh', Bury(s, q)[q := pc']);
    assert Step(c, s, q, s') && s'.pc[q] != s.pc[q];
  }
}
