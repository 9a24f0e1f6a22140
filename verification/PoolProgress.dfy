// What becomes of a post: it is refused exactly if too many wait, and else its
// job can always still be run and completed.
module PoolProgress {
  import opened Counting
  import opened ThreadPool
  import opened Paths

  ghost function Next(c: Config): (State, State) -> bool { (s, s') => Moves(c, s, s') }

  lemma Continued(c: Config, r: seq<State>, more: seq<State>)
    requires Run(c, r) && Path(Next(c), r[|r| - 1], more)
    ensures Run(c, r + more) && (r + more)[|r + more| - 1] == End(r[|r| - 1], more)
  {
    forall i | 0 < i < |r + more| ensures Moves(c, (r + more)[i - 1], (r + more)[i]) {
      if i >= |r| { Link(Next(c), r[|r| - 1], more, i - |r|); }
    }
  }

  // ----- the outcome of a post

  // What has become, by now, of the post of t that was tested in s0.
  ghost predicate PostGoes(c: Config, s0: State, t: Task, s: State) {
    var taken := s.sh.jobs == s0.sh.jobs + [t] && t in s.sh.active && s0.sh.waiting < c.maxQueue;
    var refused := s.sh.jobs == s0.sh.jobs && s.sh.active == s0.sh.active && s0.sh.waiting >= c.maxQueue;
    match s.main
    case PostTest(u) => u == t && s.sh.jobs == s0.sh.jobs && s.sh.active == s0.sh.active && s.sh.waiting == s0.sh.waiting
    case PostSignal => taken
    case PostAppend => taken
    case PostCount => taken
    case PostUnlock => taken || refused
    case Idle => taken || refused
    case _ => false
  }

  lemma PostGoesOn(c: Config, s0: State, t: Task, s: State, s': State)
    requires Inv(c, s) && Moves(c, s, s') && PostGoes(c, s0, t, s) && s.main != Idle
    ensures PostGoes(c, s0, t, s')
  {
    hide Counted, Fifo, Bounded, Served, Once, Marked, Announced;
    if !MainStep(c, s, s') && !Signals(s, s') {
      var w :| ThreadStep(s, w, s');
      assert s.main.PostTest? ==> !s.pc[w].Count?;
    }
  }

  lemma {:induction false} PostGoesThere(c: Config, r: seq<State>, i: nat, k: nat, t: Task)
    requires Run(c, r) && i <= k < |r| && r[i].main == PostTest(t) && forall j :: i < j < k ==> r[j].main != Idle
    ensures PostGoes(c, r[i], t, r[k])
  {
    hide Inv, Moves;
    if i < k {
      PostGoesThere(c, r, i, k - 1, t);
      RunInv(c, r, k - 1);
      PostGoesOn(c, r[i], t, r[k - 1], r[k]);
    }
  }

  // When the event loop is through with a post, its task is active and a job of
  // it was queued, as the last, if fewer than max_queue were waiting when that was
  // tested; and else nothing has changed.
  lemma PostOutcome(c: Config, r: seq<State>, i: nat, k: nat, t: Task)
    requires Run(c, r) && i < k < |r| && r[i].main == PostTest(t) && r[k].main == Idle && forall j :: i < j < k ==> r[j].main != Idle
    ensures if r[i].sh.waiting < c.maxQueue
      then t in r[k].sh.active && r[k].sh.jobs == r[i].sh.jobs + [t] && |r[k].sh.jobs| == r[k].sh.taken + |r[k].sh.queue|
      else r[k].sh.active == r[i].sh.active && r[k].sh.jobs == r[i].sh.jobs
  {
    PostGoesThere(c, r, i, k, t);
    RunInv(c, r, k);
  }

  // ----- steps

  // Nothing is posted or forgotten on the way.
  ghost predicate Later(s: State, s': State) {
    && s'.pc.Keys == s.pc.Keys && s.sh.taken <= s'.sh.taken
    && s.sh.jobs <= s'.sh.jobs && s.sh.delivered <= s'.sh.delivered
  }

  lemma ThreadGo(c: Config, s: State, w: Tid, pc': ThreadPc, sh': Shared) returns (s': State)
    requires Inv(c, s) && w in s.pc && ThreadActs(w, s.pc[w], s.sh, pc', sh')
    ensures s' == State(sh', s.main, s.pc[w := pc']) && Moves(c, s, s') && Inv(c, s') && Later(s, s')
  {
    hide Inv;
    s' := State(sh', s.main, s.pc[w := pc']);
    assert ThreadStep(s, w, s');
    MoveInv(c, s, s');
    KeysKept(c, s, s');
  }

  lemma KeysKept(c: Config, s: State, s': State)
    requires Inv(c, s) && Inv(c, s')
    ensures s.pc.Keys == s'.pc.Keys == c.threads
  {
  }

  lemma MainGo(c: Config, s: State, main': MainPc, sh': Shared) returns (s': State)
    requires Inv(c, s) && MainActs(c, s.main, s.sh, main', sh')
    ensures s' == State(sh', main', s.pc) && Moves(c, s, s') && Inv(c, s') && Later(s, s')
  {
    hide Inv;
    s' := State(sh', main', s.pc);
    assert MainStep(c, s, s');
    MoveInv(c, s, s');
  }

  // The signal wakes one sleeper, if there is any.
  lemma SignalGo(c: Config, s: State) returns (s': State)
    requires Inv(c, s) && s.main == PostSignal
    ensures s' == State(s.sh, PostAppend, s'.pc) && Moves(c, s, s') && Inv(c, s') && Later(s, s')
  {
    hide Inv;
    s' := s.(main := PostAppend);
    if w :| w in Sleepers(s.pc) {
      s' := State(s.sh, PostAppend, s.pc[w := Woken]);
      assert w in s.pc && s.pc[w].Asleep? && s'.pc[w].Woken?;
    }
    assert Signals(s, s');
    MoveInv(c, s, s');
    KeysKept(c, s, s');
  }

  lemma Onward(c: Config, s: State, s1: State, more: seq<State>) returns (all: seq<State>)
    requires Moves(c, s, s1) && Later(s, s1) && Path(Next(c), s1, more) && Later(s1, End(s1, more))
    ensures all == [s1] + more && Path(Next(c), s, all) && End(s, all) == End(s1, more) && Later(s, End(s, all))
  {
    First(Next(c), s, s1, more);
    all := [s1] + more;
  }

  lemma Both(c: Config, s: State, a: seq<State>, b: seq<State>) returns (all: seq<State>)
    requires Path(Next(c), s, a) && Later(s, End(s, a)) && Path(Next(c), End(s, a), b) && Later(End(s, a), End(End(s, a), b))
    ensures Path(Next(c), s, all) && End(s, all) == End(End(s, a), b) && Later(s, End(s, all))
  {
    Join(Next(c), s, a, b);
    all := a + b;
  }

  // ----- the locks are given back

  // Whoever has the spin lock gives it back.
  lemma FreeSpin(c: Config, s: State) returns (more: seq<State>)
    requires Inv(c, s)
    ensures Path(Next(c), s, more) && Inv(c, End(s, more)) && Later(s, End(s, more)) && End(s, more).sh.spin == Free
    ensures s.sh.spin == ByMain ==> End(s, more).main == Idle && End(s, more).sh.mtx == s.sh.mtx
    decreases match s.sh.spin case Free => 0 case ByMain => (if s.main.HandleTake? then 2 else 1)
              case ByThread(w) => if w in s.pc && s.pc[w].Done? then 2 else 1
  {
    hide Counted, Fifo, Bounded, Served, Once, Marked, Announced;
    var s1;
    match s.sh.spin {
      case Free => more := []; return;
      case ByMain =>
        if s.main.HandleTake? {
          s1 := MainGo(c, s, HandleUnlock, s.sh.(todo := s.sh.done, done := []));
        } else {
          s1 := MainGo(c, s, Idle, s.sh.(spin := Free));
          more := Onward(c, s, s1, []);
          return;
        }
      case ByThread(w) =>
        if s.pc[w].Done? {
          s1 := ThreadGo(c, s, w, Unspin, s.sh.(done := s.sh.done + [s.pc[w].job]));
        } else {
          s1 := ThreadGo(c, s, w, Notify, s.sh.(spin := Free));
        }
    }
    more := FreeSpin(c, s1);
    more := Onward(c, s, s1, more);
  }

  // Whoever has the mutex gives it back.
  lemma FreeMutex(c: Config, s: State) returns (more: seq<State>)
    requires Inv(c, s)
    ensures Path(Next(c), s, more) && Inv(c, End(s, more)) && Later(s, End(s, more)) && End(s, more).sh.mtx == Free
    ensures End(s, more).sh.spin == s.sh.spin && End(s, more).main == if s.sh.mtx == ByMain then Idle else s.main
    decreases match s.sh.mtx case Free => 0
              case ByMain => (match s.main case PostTest(_) => 5 case PostSignal => 4 case PostAppend => 3 case PostCount => 2 case _ => 1)
              case ByThread(w) => if w !in s.pc then 0 else match s.pc[w] case Count => 4 case Check => 3 case Take => 2 case _ => 1
  {
    hide Counted, Bounded, Served, Once, Marked, Announced, OneHandler;
    var s1;
    match s.sh.mtx {
      case Free => more := []; return;
      case ByMain =>
        match s.main {
          case PostTest(t) =>
            if s.sh.waiting >= c.maxQueue {
              s1 := MainGo(c, s, PostUnlock, s.sh);
            } else {
              s1 := MainGo(c, s, PostSignal, s.sh.(active := s.sh.active + {t}, jobs := s.sh.jobs + [t]));
            }
          case PostSignal => s1 := SignalGo(c, s);
          case PostAppend => s1 := MainGo(c, s, PostCount, s.sh.(queue := s.sh.queue + [|s.sh.jobs| - 1]));
          case PostCount => s1 := MainGo(c, s, PostUnlock, s.sh.(waiting := s.sh.waiting + 1));
          case PostUnlock =>
            s1 := MainGo(c, s, Idle, s.sh.(mtx := Free));
            more := Onward(c, s, s1, []);
            return;
        }
      case ByThread(w) =>
        match s.pc[w] {
          case Count => s1 := ThreadGo(c, s, w, Check, s.sh.(waiting := s.sh.waiting - 1));
          case Check =>
            if s.sh.queue == [] {
              s1 := ThreadGo(c, s, w, Asleep, s.sh.(mtx := Free));
            } else {
              s1 := ThreadGo(c, s, w, Take, s.sh);
            }
          case Take => s1 := ThreadGo(c, s, w, Leave(s.sh.queue[0]), s.sh.(queue := s.sh.queue[1..], taken := s.sh.taken + 1));
          case Leave(j) => s1 := ThreadGo(c, s, w, Work(j), s.sh.(mtx := Free));
        }
    }
    more := FreeMutex(c, s1);
    more := Onward(c, s, s1, more);
  }

  // Nobody is in a critical section, and the event loop is idle.
  predicate Quiet(s: State) { s.sh.mtx == Free && s.sh.spin == Free && s.main == Idle }

  lemma Calm(c: Config, s: State) returns (more: seq<State>)
    requires Inv(c, s)
    ensures Path(Next(c), s, more) && Inv(c, End(s, more)) && Later(s, End(s, more)) && Quiet(End(s, more))
  {
    hide Counted, Fifo, Bounded, Served, Once, Announced;
    var a := FreeSpin(c, s);
    var b := FreeMutex(c, End(s, a));
    more := Both(c, s, a, b);
    var s1 := End(s, more);
    match s1.main {
      case Idle => return;
      case PostLock(t) =>
        var s2 := MainGo(c, s1, PostTest(t), s1.sh.(mtx := ByMain));
        var d := FreeMutex(c, s2);
        d := Onward(c, s1, s2, d);
        more := Both(c, s, more, d);
      case HandleLock =>
        var s2 := MainGo(c, s1, HandleTake, s1.sh.(spin := ByMain));
        var d := FreeSpin(c, s2);
        d := Onward(c, s1, s2, d);
        more := Both(c, s, more, d);
    }
  }

  // ----- a job is run and completed

  // The queue and the threads are as they were.
  ghost predicate SameWork(s: State, s': State) { s'.sh.queue == s.sh.queue && s'.sh.taken == s.sh.taken && s'.sh.jobs == s.sh.jobs }

  // The event loop completes what it has taken off the done list.
  lemma Complete(c: Config, s: State) returns (more: seq<State>)
    requires Inv(c, s) && Quiet(s)
    ensures Path(Next(c), s, more) && Inv(c, End(s, more)) && Later(s, End(s, more)) && Quiet(End(s, more)) && SameWork(s, End(s, more))
    ensures End(s, more).sh.todo == [] && End(s, more).sh.delivered == s.sh.delivered + s.sh.todo
    ensures End(s, more).sh.done == s.sh.done && End(s, more).sh.notified == s.sh.notified && End(s, more).pc == s.pc
    decreases |s.sh.todo|
  {
    hide Inv;
    if s.sh.todo == [] {
      more := [];
    } else {
      TodoOpen(c, s);
      var j := s.sh.todo[0];
      var s1 := MainGo(c, s, Idle, s.sh.(todo := s.sh.todo[1..], active := s.sh.active - {s.sh.jobs[j]}, delivered := s.sh.delivered + [j]));
      more := Complete(c, s1);
      assert s.sh.delivered + [j] + s.sh.todo[1..] == s.sh.delivered + s.sh.todo;
      more := Onward(c, s, s1, more);
    }
  }

  lemma TodoOpen(c: Config, s: State)
    requires Inv(c, s) && s.sh.todo != []
    ensures s.sh.todo[0] < |s.sh.jobs|
  {
    DeliveredAreOld(s);
  }

  // A thread that has finished a job tells the event loop.
  lemma Tell(c: Config, s: State) returns (more: seq<State>)
    requires Inv(c, s) && Quiet(s) && s.sh.done != []
    ensures Path(Next(c), s, more) && Inv(c, End(s, more)) && Later(s, End(s, more)) && Quiet(End(s, more)) && SameWork(s, End(s, more))
    ensures End(s, more).sh == s.sh.(notified := true)
  {
    hide Counted, Fifo, Bounded, Served, Once, Marked;
    if s.sh.notified {
      return [];
    }
    var w :| w in s.pc && (s.pc[w].Unspin? || s.pc[w].Notify?);
    var s1 := ThreadGo(c, s, w, Enter, s.sh.(notified := true));
    more := Onward(c, s, s1, []);
  }

  // All that is done is completed.
  lemma CompleteDone(c: Config, s: State) returns (more: seq<State>)
    requires Inv(c, s) && Quiet(s)
    ensures Path(Next(c), s, more) && Inv(c, End(s, more)) && Later(s, End(s, more)) && Quiet(End(s, more)) && SameWork(s, End(s, more))
    ensures End(s, more).sh.delivered == Out(s.sh)
  {
    hide Inv;
    var a := Complete(c, s);
    if s.sh.done == [] {
      return a;
    }
    var s1 := End(s, a);
    var b := Tell(c, s1);
    var s2 := End(s1, b);
    var s3 := MainGo(c, s2, HandleLock, s2.sh.(notified := false));
    var s4 := MainGo(c, s3, HandleTake, s3.sh.(spin := ByMain));
    var s5 := MainGo(c, s4, HandleUnlock, s4.sh.(todo := s4.sh.done, done := []));
    var s6 := MainGo(c, s5, Idle, s5.sh.(spin := Free));
    var d := Complete(c, s6);
    d := Onward(c, s5, s6, d);
    d := Onward(c, s4, s5, d);
    d := Onward(c, s3, s4, d);
    d := Onward(c, s2, s3, d);
    b := Both(c, s1, b, d);
    more := Both(c, s, a, b);
  }

  // A thread finishes its job.
  lemma Finish(c: Config, s: State, w: Tid) returns (more: seq<State>)
    requires Inv(c, s) && Quiet(s) && w in s.pc && s.pc[w].Work?
    ensures Path(Next(c), s, more) && Inv(c, End(s, more)) && Later(s, End(s, more)) && Quiet(End(s, more)) && SameWork(s, End(s, more))
    ensures s.pc[w].job in Out(End(s, more).sh) && End(s, more).sh.delivered == s.sh.delivered
    ensures w in End(s, more).pc && End(s, more).pc[w] == Enter
  {
    hide Inv;
    var j := s.pc[w].job;
    var s1 := ThreadGo(c, s, w, Done(j), s.sh.(spin := ByThread(w)));
    var s2 := ThreadGo(c, s1, w, Unspin, s1.sh.(done := s1.sh.done + [j]));
    var s3 := ThreadGo(c, s2, w, Notify, s2.sh.(spin := Free));
    var s4 := ThreadGo(c, s3, w, Enter, s3.sh.(notified := true));
    var d := Onward(c, s3, s4, []);
    d := Onward(c, s2, s3, d);
    d := Onward(c, s1, s2, d);
    more := Onward(c, s, s1, d);
  }

  // A thread takes the next job, once it has the mutex and has seen one.
  lemma TakeSeen(c: Config, s: State, w: Tid) returns (more: seq<State>)
    requires Inv(c, s) && w in s.pc && s.pc[w].Check? && s.sh.queue != [] && s.sh.spin == Free && s.main == Idle
    ensures Path(Next(c), s, more) && Inv(c, End(s, more)) && Later(s, End(s, more)) && Quiet(End(s, more))
    ensures End(s, more).sh.taken == s.sh.taken + 1 && End(s, more).sh.delivered == s.sh.delivered && End(s, more).sh.jobs == s.sh.jobs
  {
    hide Inv;
    var s2 := ThreadGo(c, s, w, Take, s.sh);
    var j := s2.sh.queue[0];
    var s3 := ThreadGo(c, s2, w, Leave(j), s2.sh.(queue := s2.sh.queue[1..], taken := s2.sh.taken + 1));
    var s4 := ThreadGo(c, s3, w, Work(j), s3.sh.(mtx := Free));
    more := Onward(c, s3, s4, []);
    more := Onward(c, s2, s3, more);
    more := Onward(c, s, s2, more);
  }

  lemma TakeNext(c: Config, s: State, w: Tid) returns (more: seq<State>)
    requires Inv(c, s) && Quiet(s) && w in s.pc && (s.pc[w].Enter? || s.pc[w].Woken?) && s.sh.queue != []
    ensures Path(Next(c), s, more) && Inv(c, End(s, more)) && Later(s, End(s, more)) && Quiet(End(s, more))
    ensures End(s, more).sh.taken == s.sh.taken + 1 && End(s, more).sh.delivered == s.sh.delivered && End(s, more).sh.jobs == s.sh.jobs
  {
    hide Inv;
    if s.pc[w].Enter? {
      var s0 := ThreadGo(c, s, w, Count, s.sh.(mtx := ByThread(w)));
      var s1 := ThreadGo(c, s0, w, Check, s0.sh.(waiting := s0.sh.waiting - 1));
      more := TakeSeen(c, s1, w);
      more := Onward(c, s0, s1, more);
      more := Onward(c, s, s0, more);
    } else {
      var s1 := ThreadGo(c, s, w, Check, s.sh.(mtx := ByThread(w)));
      more := TakeSeen(c, s1, w);
      more := Onward(c, s, s1, more);
    }
  }

  // With a job in the queue, some thread is awake, and can take it.
  lemma TakeOne(c: Config, s: State) returns (more: seq<State>)
    requires Inv(c, s) && Quiet(s) && s.sh.queue != [] && c.threads != {}
    ensures Path(Next(c), s, more) && Inv(c, End(s, more)) && Later(s, End(s, more)) && Quiet(End(s, more))
    ensures End(s, more).sh.taken == s.sh.taken + 1 && End(s, more).sh.delivered == s.sh.delivered && End(s, more).sh.jobs == s.sh.jobs
  {
    hide Inv;
    var w := Awake(c, s);
    match s.pc[w] {
      case Work(j) =>
        var a := Finish(c, s, w);
        var b := TakeNext(c, End(s, a), w);
        more := Both(c, s, a, b);
      case Notify =>
        var s1 := ThreadGo(c, s, w, Enter, s.sh.(notified := true));
        more := TakeNext(c, s1, w);
        more := Onward(c, s, s1, more);
      case _ => more := TakeNext(c, s, w);
    }
  }

  lemma Awake(c: Config, s: State) returns (w: Tid)
    requires Inv(c, s) && Quiet(s) && s.sh.queue != [] && c.threads != {}
    ensures w in s.pc && (s.pc[w].Enter? || s.pc[w].Woken? || s.pc[w].Work? || s.pc[w].Notify?)
  {
    hide Counted, Fifo, Bounded, Once, Marked, Announced;
    if Sleepers(s.pc) == {} {
      w :| w in c.threads;
      assert w !in Sleepers(s.pc);
    } else {
      assert Heading(s) != {};
      w :| w in Heading(s);
    }
  }

  // An open job is taken, run and completed in its turn.
  lemma Serve(c: Config, s: State, n: nat) returns (more: seq<State>)
    requires Inv(c, s) && Quiet(s) && Open(s.sh, n) && c.threads != {}
    ensures Path(Next(c), s, more) && Inv(c, End(s, more)) && Later(s, End(s, more)) && Quiet(End(s, more))
    ensures n in End(s, more).sh.delivered && End(s, more).sh.jobs == s.sh.jobs
    decreases |s.sh.jobs| - s.sh.taken
  {
    hide Inv;
    Where(c, s, n);
    if n in Out(s.sh) {
      more := CompleteDone(c, s);
    } else if n < s.sh.taken {
      var w :| w in s.pc && Busy(s.pc[w]) && s.pc[w].job == n;
      OnlyWorks(c, s, w);
      var a := Finish(c, s, w);
      var b := CompleteDone(c, End(s, a));
      more := Both(c, s, a, b);
    } else {
      var a := TakeOne(c, s);
      var b := Serve(c, End(s, a), n);
      more := Both(c, s, a, b);
    }
  }

  lemma Where(c: Config, s: State, n: nat)
    requires Inv(c, s) && Quiet(s) && Open(s.sh, n)
    ensures s.sh.taken <= |s.sh.jobs| && (n >= s.sh.taken ==> s.sh.queue != [])
    ensures n < s.sh.taken ==> n in Out(s.sh) || InWork(s.pc, n)
  {
  }

  lemma OnlyWorks(c: Config, s: State, w: Tid)
    requires Inv(c, s) && Quiet(s) && w in s.pc && Busy(s.pc[w])
    ensures s.pc[w].Work?
  {
  }

  // From every state an open job can still be run and completed.
  lemma JobCanBeCompleted(c: Config, r: seq<State>, s: State, n: nat) returns (more: seq<State>)
    requires Run(c, r) && s == r[|r| - 1] && c.threads != {} && Open(s.sh, n)
    ensures Run(c, r + more) && n in (r + more)[|r + more| - 1].sh.delivered
  {
    hide Inv;
    RunInv(c, r, |r| - 1);
    more := Calm(c, s);
    var s1 := End(s, more);
    if n !in s1.sh.delivered {
      var b := Serve(c, s1, n);
      more := Both(c, s, more, b);
    }
    Continued(c, r, more);
  }

  // With nothing in the queue a post is not refused.
  lemma PostNow(c: Config, s: State, t: Task) returns (more: seq<State>)
    requires Inv(c, s) && Quiet(s) && s.sh.queue == [] && c.maxQueue > 0 && t !in s.sh.active
    ensures Path(Next(c), s, more) && t in End(s, more).sh.active
  {
    NoneWait(c, s);
    hide Inv;
    var s1 := MainGo(c, s, PostLock(t), s.sh);
    var s2 := MainGo(c, s1, PostTest(t), s1.sh.(mtx := ByMain));
    var s3 := MainGo(c, s2, PostSignal, s2.sh.(active := s2.sh.active + {t}, jobs := s2.sh.jobs + [t]));
    more := Onward(c, s2, s3, []);
    more := Onward(c, s1, s2, more);
    more := Onward(c, s, s1, more);
  }

  lemma NoneWait(c: Config, s: State)
    requires Inv(c, s) && Quiet(s) && s.sh.queue == []
    ensures s.sh.waiting <= 0
  {
  }

  // Once the last job is completed the queue is empty.
  lemma AllTaken(c: Config, s: State, n: nat)
    requires Inv(c, s) && Quiet(s) && n in s.sh.delivered && |s.sh.jobs| == n + 1
    ensures s.sh.queue == []
  {
    hide Locks, Counted, Bounded, Served, Marked, Announced;
    assert n in Out(s.sh);
  }

  lemma LastOpen(c: Config, s: State)
    requires Inv(c, s) && Quiet(s) && s.sh.queue != []
    ensures |s.sh.jobs| > 0 && Open(s.sh, |s.sh.jobs| - 1)
  {
    hide Locks, Counted, Bounded, Served, Marked, Announced;
    assert forall i :: 0 <= i < |s.sh.delivered| ==> Out(s.sh)[i] == s.sh.delivered[i];
  }

  // From every state a task can still be posted with success.
  lemma TaskCanBePosted(c: Config, r: seq<State>, s: State, t: Task) returns (more: seq<State>)
    requires Run(c, r) && s == r[|r| - 1] && c.threads != {} && c.maxQueue > 0
    ensures Run(c, r + more) && t in (r + more)[|r + more| - 1].sh.active
  {
    hide Inv;
    RunInv(c, r, |r| - 1);
    more := Calm(c, s);
    var s1 := End(s, more);
    if s1.sh.queue != [] {
      LastOpen(c, s1);
      var n := |s1.sh.jobs| - 1;
      var a := Serve(c, s1, n);
      more := Both(c, s, more, a);
      s1 := End(s, more);
      AllTaken(c, s1, n);
    }
    if t !in s1.sh.active {
      var b := PostNow(c, s1, t);
      Join(Next(c), s, more, b);
      more := more + b;
    }
    Continued(c, r, more);
  }
}
