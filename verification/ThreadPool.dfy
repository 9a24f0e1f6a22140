// The thread pool: an event loop that posts tasks and handles completions, and
// any number of threads that run them, as interleaved steps over a queue under
// a mutex and a condition variable and a done list under a spin lock.
module ThreadPool {
  import opened Counting

  type Tid(==,!new) = nat
  type Task(==,!new) = nat

  datatype Holder = Free | ByMain | ByThread(w: Tid)

  // What a thread of ngx_thread_pool_cycle is about to do. A job is the number
  // of the accepted post that made it.
  datatype ThreadPc =
    | Enter                  // lock the mutex
    | Count                  // waiting--
    | Check                  // look at the queue
    | Asleep                 // in the condition wait, the mutex released
    | Woken                  // lock the mutex again
    | Take                   // dequeue
    | Leave(job: nat)        // unlock the mutex
    | Work(job: nat)         // run the handler, then lock the done list
    | Done(job: nat)         // append to the done list
    | Unspin                 // unlock the done list
    | Notify                 // ngx_notify

  // What the event loop is about to do.
  datatype MainPc =
    | Idle
    | PostLock(task: Task)   // lock the mutex
    | PostTest(task: Task)   // compare waiting with max_queue
    | PostSignal             // signal the condition
    | PostAppend             // append the task
    | PostCount              // waiting++
    | PostUnlock             // unlock the mutex
    | HandleLock             // lock the done list
    | HandleTake             // take the whole done list
    | HandleUnlock           // unlock the done list

  datatype Shared = Shared(
    mtx: Holder, waiting: int, queue: seq<nat>,
    spin: Holder, done: seq<nat>, notified: bool,
    active: set<Task>,
    todo: seq<nat>,          // completions the handler has taken off the done list
    jobs: seq<Task>,         // history: the task of every accepted post, in order
    taken: nat,              // history: jobs dequeued so far
    delivered: seq<nat>)     // history: jobs completed so far, in order

  datatype State = State(sh: Shared, main: MainPc, pc: map<Tid, ThreadPc>)

  datatype Config = Config(threads: set<Tid>, maxQueue: int)

  ghost predicate Init(c: Config, s: State) {
    s == State(Shared(Free, 0, [], Free, [], false, {}, [], [], 0, []), Idle, map w | w in c.threads :: Enter)
  }

  // One step of a thread.
  predicate ThreadActs(w: Tid, pc: ThreadPc, sh: Shared, pc': ThreadPc, sh': Shared) {
    match pc
    case Enter => sh.mtx == Free && pc' == Count && sh' == sh.(mtx := ByThread(w))
    case Count => pc' == Check && sh' == sh.(waiting := sh.waiting - 1)
    case Check =>
      if sh.queue == [] then pc' == Asleep && sh' == sh.(mtx := Free)
      else pc' == Take && sh' == sh
    case Asleep => pc' == Woken && sh' == sh   // a spurious wakeup
    case Woken => sh.mtx == Free && pc' == Check && sh' == sh.(mtx := ByThread(w))
    case Take => sh.queue != [] && pc' == Leave(sh.queue[0]) && sh' == sh.(queue := sh.queue[1..], taken := sh.taken + 1)
    case Leave(j) => pc' == Work(j) && sh' == sh.(mtx := Free)
    case Work(j) => sh.spin == Free && pc' == Done(j) && sh' == sh.(spin := ByThread(w))
    case Done(j) => pc' == Unspin && sh' == sh.(done := sh.done + [j])
    case Unspin => pc' == Notify && sh' == sh.(spin := Free)
    case Notify => pc' == Enter && sh' == sh.(notified := true)
  }

  // One step of the event loop, but for the signal.
  predicate MainActs(c: Config, pc: MainPc, sh: Shared, pc': MainPc, sh': Shared) {
    match pc
    case Idle =>
      || (pc'.PostLock? && pc'.task !in sh.active && sh' == sh)
      || (pc' == HandleLock && sh.notified && sh.todo == [] && sh' == sh.(notified := false))
      // one completion handler, which may post in turn
      || (pc' == Idle && sh.todo != [] && sh.todo[0] < |sh.jobs| &&
          sh' == sh.(todo := sh.todo[1..], active := sh.active - {sh.jobs[sh.todo[0]]}, delivered := sh.delivered + [sh.todo[0]]))
    case PostLock(t) => sh.mtx == Free && pc' == PostTest(t) && sh' == sh.(mtx := ByMain)
    case PostTest(t) =>
      if sh.waiting >= c.maxQueue then pc' == PostUnlock && sh' == sh
      else pc' == PostSignal && sh' == sh.(active := sh.active + {t}, jobs := sh.jobs + [t])
    case PostSignal => false
    case PostAppend => |sh.jobs| > 0 && pc' == PostCount && sh' == sh.(queue := sh.queue + [|sh.jobs| - 1])
    case PostCount => pc' == PostUnlock && sh' == sh.(waiting := sh.waiting + 1)
    case PostUnlock => pc' == Idle && sh' == sh.(mtx := Free)
    case HandleLock => sh.spin == Free && pc' == HandleTake && sh' == sh.(spin := ByMain)
    case HandleTake => pc' == HandleUnlock && sh' == sh.(todo := sh.done, done := [])
    case HandleUnlock => pc' == Idle && sh' == sh.(spin := Free)
  }

  function Sleepers(pc: map<Tid, ThreadPc>): set<Tid> { set w | w in pc && pc[w].Asleep? }

  // A signal wakes at least one sleeper, if there is any.
  ghost predicate Signals(s: State, s': State) {
    && s.main == PostSignal && s'.main == PostAppend && s'.sh == s.sh
    && s'.pc.Keys == s.pc.Keys
    && (forall w :: w in s.pc ==> s'.pc[w] == s.pc[w] || (s.pc[w].Asleep? && s'.pc[w].Woken?))
    && (Sleepers(s.pc) != {} ==> exists w :: w in s.pc && s.pc[w].Asleep? && s'.pc[w].Woken?)
  }

  ghost predicate ThreadStep(s: State, w: Tid, s': State) {
    && w in s.pc && w in s'.pc
    && ThreadActs(w, s.pc[w], s.sh, s'.pc[w], s'.sh)
    && s'.main == s.main && s'.pc == s.pc[w := s'.pc[w]]
  }

  ghost predicate MainStep(c: Config, s: State, s': State) {
    MainActs(c, s.main, s.sh, s'.main, s'.sh) && s'.pc == s.pc
  }

  ghost predicate Moves(c: Config, s: State, s': State) {
    || MainStep(c, s, s')
    || Signals(s, s')
    || exists w :: ThreadStep(s, w, s')
  }

  ghost predicate Run(c: Config, r: seq<State>) {
    && |r| > 0 && Init(c, r[0])
    && forall i :: 0 < i < |r| ==> Moves(c, r[i - 1], r[i])
  }

  // ----- the locks

  predicate HasMutex(pc: ThreadPc) { pc.Count? || pc.Check? || pc.Take? || pc.Leave? }
  predicate HasSpin(pc: ThreadPc) { pc.Done? || pc.Unspin? }
  predicate MainHasMutex(pc: MainPc) { pc.PostTest? || pc.PostSignal? || pc.PostAppend? || pc.PostCount? || pc.PostUnlock? }
  predicate MainHasSpin(pc: MainPc) { pc.HandleTake? || pc.HandleUnlock? }

  ghost predicate Locks(s: State) {
    && (forall w :: w in s.pc ==> (HasMutex(s.pc[w]) <==> s.sh.mtx == ByThread(w)) && (HasSpin(s.pc[w]) <==> s.sh.spin == ByThread(w)))
    && (MainHasMutex(s.main) <==> s.sh.mtx == ByMain) && (MainHasSpin(s.main) <==> s.sh.spin == ByMain)
    && (s.sh.mtx.ByThread? ==> s.sh.mtx.w in s.pc) && (s.sh.spin.ByThread? ==> s.sh.spin.w in s.pc)
  }

  // ----- the counter

  // Threads that have taken themselves off the counter and have not dequeued yet.
  predicate Wants(pc: ThreadPc) { pc.Check? || pc.Asleep? || pc.Woken? || pc.Take? }

  function Wanting(s: State): set<Tid> { set w | w in s.pc && Wants(s.pc[w]) }

  ghost predicate Counted(s: State) {
    s.sh.waiting == |s.sh.queue| - |Wanting(s)| - If(s.main.PostCount?)
  }

  // ----- the queue

  // A job the event loop has accepted but not yet appended.
  predicate InHand(pc: MainPc) { pc.PostSignal? || pc.PostAppend? }

  // The queue holds consecutive jobs, in the order of their posts, and every
  // accepted job has been dequeued, is queued, or is in the poster's hand.
  ghost predicate Fifo(s: State) {
    && (forall i :: 0 <= i < |s.sh.queue| ==> s.sh.queue[i] == s.sh.taken + i)
    && |s.sh.jobs| == s.sh.taken + |s.sh.queue| + If(InHand(s.main))
    && (forall w :: w in s.pc && s.pc[w].Take? ==> s.sh.queue != [])
  }

  function Max(a: int, b: int): int { if a < b then b else a }

  ghost predicate Bounded(c: Config, s: State) {
    |s.sh.queue| + If(InHand(s.main)) <= Max(0, c.maxQueue + |c.threads|)
  }

  // ----- the sleepers

  predicate Heads(pc: ThreadPc) { pc.Check? || pc.Woken? || pc.Take? }

  function Heading(s: State): set<Tid> { set w | w in s.pc && Heads(s.pc[w]) }

  // While anybody sleeps, each queued job has an awake thread on its way to it.
  ghost predicate Served(s: State) {
    Sleepers(s.pc) != {} ==> |s.sh.queue| + If(s.main.PostAppend?) <= |Heading(s)|
  }

  // ----- the jobs

  predicate Busy(pc: ThreadPc) { pc.Leave? || pc.Work? || pc.Done? }

  // Finished jobs, in the order in which they reached the done list.
  function Out(sh: Shared): seq<nat> { sh.delivered + sh.todo + sh.done }

  // Every dequeued job is with exactly one thread or finished exactly once.
  ghost predicate OnceIn(out: seq<nat>, taken: nat, pc: map<Tid, ThreadPc>) {
    && (forall i, j :: 0 <= i < j < |out| ==> out[i] != out[j])
    && (forall i :: 0 <= i < |out| ==> out[i] < taken)
    && (forall w :: w in pc && Busy(pc[w]) ==> pc[w].job < taken && pc[w].job !in out)
    && (forall v, w :: v in pc && w in pc && v != w && Busy(pc[v]) && Busy(pc[w]) ==> pc[v].job != pc[w].job)
    && (forall n: nat :: n < taken ==> n in out || InWork(pc, n))
  }

  ghost predicate InWork(pc: map<Tid, ThreadPc>, n: nat) {
    exists w :: w in pc && Busy(pc[w]) && pc[w].job == n
  }

  ghost predicate Once(s: State) { OnceIn(Out(s.sh), s.sh.taken, s.pc) }

  // ----- the active marks

  predicate Open(sh: Shared, n: nat) { n < |sh.jobs| && n !in sh.delivered }

  // A task is marked active exactly while one job of it is open.
  ghost predicate Marks(sh: Shared) {
    && (forall n: nat :: Open(sh, n) ==> sh.jobs[n] in sh.active)
    && (forall t :: t in sh.active ==> exists n: nat :: Open(sh, n) && sh.jobs[n] == t)
    && (forall m: nat, n: nat :: Open(sh, m) && Open(sh, n) && sh.jobs[m] == sh.jobs[n] ==> m == n)
  }

  ghost predicate Marked(s: State) {
    && Marks(s.sh)
    && ((s.main.PostLock? || s.main.PostTest?) ==> s.main.task !in s.sh.active)
  }

  // The handler takes the done list only once it is through with the last one.
  ghost predicate OneHandler(s: State) {
    s.main.HandleLock? || s.main.HandleTake? ==> s.sh.todo == []
  }

  // ----- the notification

  // A job on the done list is never left there unannounced.
  ghost predicate Announced(s: State) {
    s.sh.done != [] ==>
      || s.sh.notified || s.main.HandleLock? || s.main.HandleTake?
      || exists w :: w in s.pc && (s.pc[w].Unspin? || s.pc[w].Notify?)
  }

  ghost predicate Inv(c: Config, s: State) {
    && s.pc.Keys == c.threads
    && Locks(s) && Counted(s) && Fifo(s) && Bounded(c, s) && Served(s) && Once(s) && Marked(s) && Announced(s) && OneHandler(s)
  }

  lemma InitInv(c: Config, s: State)
    requires Init(c, s)
    ensures Inv(c, s)
  {
    assert Wanting(s) == {} && Sleepers(s.pc) == {};
  }

  // ----- a thread moves

  lemma ThreadLocks(s: State, w: Tid, s': State)
    requires Locks(s) && ThreadStep(s, w, s')
    ensures Locks(s')
  {
  }

  lemma ThreadSets(s: State, w: Tid, s': State)
    requires ThreadStep(s, w, s')
    ensures |Wanting(s')| == |Wanting(s)| - If(Wants(s.pc[w])) + If(Wants(s'.pc[w]))
    ensures |Heading(s')| == |Heading(s)| - If(Heads(s.pc[w])) + If(Heads(s'.pc[w]))
    ensures Sleepers(s'.pc) <= Sleepers(s.pc) + if s'.pc[w].Asleep? then {w} else {}
  {
    SetChange(Wanting(s), Wanting(s'), w, Wants(s.pc[w]), Wants(s'.pc[w]));
    SetChange(Heading(s), Heading(s'), w, Heads(s.pc[w]), Heads(s'.pc[w]));
  }

  lemma ThreadCounted(s: State, w: Tid, s': State)
    requires Counted(s) && ThreadStep(s, w, s')
    ensures Counted(s')
  {
    ThreadSets(s, w, s');
  }

  lemma ThreadFifo(s: State, w: Tid, s': State)
    requires Locks(s) && Fifo(s) && ThreadStep(s, w, s')
    ensures Fifo(s')
  {
    if s.pc[w].Take? {
      assert forall i :: 0 <= i < |s'.sh.queue| ==> s'.sh.queue[i] == s.sh.queue[i + 1];
    }
  }

  lemma ThreadServed(s: State, w: Tid, s': State)
    requires Locks(s) && Served(s) && ThreadStep(s, w, s')
    ensures Served(s')
  {
    ThreadSets(s, w, s');
  }

  lemma OnceTaken(out: seq<nat>, taken: nat, pc: map<Tid, ThreadPc>, w: Tid)
    requires OnceIn(out, taken, pc) && w in pc && !Busy(pc[w])
    ensures OnceIn(out, taken + 1, pc[w := Leave(taken)])
  {
    var pc' := pc[w := Leave(taken)];
    assert InWork(pc', taken) by { assert pc'[w].job == taken; }
    forall n: nat | n < taken ensures n in out || InWork(pc', n) {
      if n !in out {
        var v :| v in pc && Busy(pc[v]) && pc[v].job == n;
        assert pc'[v] == pc[v];
      }
    }
  }

  lemma OnceFinished(out: seq<nat>, taken: nat, pc: map<Tid, ThreadPc>, w: Tid, n: nat)
    requires OnceIn(out, taken, pc) && w in pc && pc[w] == Done(n)
    ensures OnceIn(out + [n], taken, pc[w := Unspin])
  {
    var pc' := pc[w := Unspin];
    forall m: nat | m < taken ensures m in out + [n] || InWork(pc', m) {
      if m !in out && m != n {
        var v :| v in pc && Busy(pc[v]) && pc[v].job == m;
        assert pc'[v] == pc[v];
      }
    }
  }

  lemma OnceKept(out: seq<nat>, taken: nat, pc: map<Tid, ThreadPc>, w: Tid, a: ThreadPc)
    requires OnceIn(out, taken, pc) && w in pc
    requires Busy(a) <==> Busy(pc[w])
    requires Busy(a) ==> a.job == pc[w].job
    ensures OnceIn(out, taken, pc[w := a])
  {
    var pc' := pc[w := a];
    forall n: nat | n < taken ensures n in out || InWork(pc', n) {
      if n !in out {
        var v :| v in pc && Busy(pc[v]) && pc[v].job == n;
        assert Busy(pc'[v]) && pc'[v].job == n;
      }
    }
  }

  lemma ThreadOnce(s: State, w: Tid, s': State)
    requires Fifo(s) && Once(s) && ThreadStep(s, w, s')
    ensures Once(s')
  {
    match s.pc[w]
    case Take => OnceTaken(Out(s.sh), s.sh.taken, s.pc, w);
    case Done(n) =>
      OnceFinished(Out(s.sh), s.sh.taken, s.pc, w, n);
      assert Out(s'.sh) == Out(s.sh) + [n];
    case _ => OnceKept(Out(s.sh), s.sh.taken, s.pc, w, s'.pc[w]);
  }

  lemma ThreadMarked(s: State, w: Tid, s': State)
    requires Marked(s) && ThreadStep(s, w, s')
    ensures Marked(s')
  {
    assert forall n: nat :: Open(s'.sh, n) <==> Open(s.sh, n);
  }

  lemma ThreadAnnounced(s: State, w: Tid, s': State)
    requires Announced(s) && ThreadStep(s, w, s')
    ensures Announced(s')
  {
    if s.sh.done != [] && !s.sh.notified && !s.main.HandleLock? && !s.main.HandleTake? {
      var v :| v in s.pc && (s.pc[v].Unspin? || s.pc[v].Notify?);
      if v != w {
        assert s'.pc[v] == s.pc[v];
      }
    }
  }

  // ----- the event loop moves

  lemma MainInv(c: Config, s: State, s': State)
    requires Inv(c, s) && MainStep(c, s, s')
    ensures s'.pc.Keys == c.threads && Locks(s') && Counted(s') && Fifo(s') && Served(s') && Announced(s')
  {
    hide OnceIn, Bounded, Once, Wants, HasMutex;
    assert Wanting(s') == Wanting(s) && Heading(s') == Heading(s);
  }

  lemma MainKeepsOut(c: Config, s: State, s': State)
    requires OneHandler(s) && MainStep(c, s, s')
    ensures Out(s'.sh) == Out(s.sh) && s'.sh.taken == s.sh.taken && OneHandler(s')
  {
    if s.main.HandleTake? {
      assert s.sh.delivered + [] + s.sh.done == s.sh.delivered + s.sh.done + [];
    } else if s.sh.todo != [] && s'.sh.todo == s.sh.todo[1..] {
      assert s.sh.todo == [s.sh.todo[0]] + s.sh.todo[1..];
    }
  }

  lemma MarksPosted(sh: Shared, t: Task)
    requires Marks(sh) && t !in sh.active
    requires forall i :: 0 <= i < |sh.delivered| ==> sh.delivered[i] < |sh.jobs|
    ensures Marks(sh.(active := sh.active + {t}, jobs := sh.jobs + [t]))
  {
    var sh' := sh.(active := sh.active + {t}, jobs := sh.jobs + [t]);
    assert forall n: nat :: Open(sh', n) <==> Open(sh, n) || n == |sh.jobs|;
    forall u | u in sh'.active ensures exists n: nat :: Open(sh', n) && sh'.jobs[n] == u {
      if u == t {
        assert Open(sh', |sh.jobs|) && sh'.jobs[|sh.jobs|] == t;
      } else {
        var n: nat :| Open(sh, n) && sh.jobs[n] == u;
        assert Open(sh', n) && sh'.jobs[n] == u;
      }
    }
  }

  lemma MarksCompleted(sh: Shared, j: nat, todo: seq<nat>)
    requires Marks(sh) && Open(sh, j)
    ensures Marks(sh.(todo := todo, active := sh.active - {sh.jobs[j]}, delivered := sh.delivered + [j]))
  {
    var sh' := sh.(todo := todo, active := sh.active - {sh.jobs[j]}, delivered := sh.delivered + [j]);
    assert forall n: nat :: Open(sh', n) <==> Open(sh, n) && n != j;
    forall u | u in sh'.active ensures exists n: nat :: Open(sh', n) && sh'.jobs[n] == u {
      var n: nat :| Open(sh, n) && sh.jobs[n] == u;
      assert Open(sh', n);
    }
  }

  lemma MarksSame(sh: Shared, sh': Shared)
    requires Marks(sh) && sh'.active == sh.active && sh'.jobs == sh.jobs && sh'.delivered == sh.delivered
    ensures Marks(sh')
  {
    assert forall n: nat :: Open(sh', n) <==> Open(sh, n);
  }

  // Jobs on their way through the handler are still open.
  lemma DeliveredAreOld(s: State)
    requires Fifo(s) && Once(s)
    ensures forall i :: 0 <= i < |s.sh.delivered| ==> s.sh.delivered[i] < |s.sh.jobs|
    ensures forall i :: 0 <= i < |s.sh.todo| ==> Open(s.sh, s.sh.todo[i])
  {
    var out, d := Out(s.sh), |s.sh.delivered|;
    assert forall i :: 0 <= i < d ==> out[i] == s.sh.delivered[i];
    assert forall i :: 0 <= i < |s.sh.todo| ==> out[d + i] == s.sh.todo[i];
  }

  lemma MainMarked(c: Config, s: State, s': State)
    requires Fifo(s) && Once(s) && Marked(s) && MainStep(c, s, s')
    ensures Marked(s')
  {
    DeliveredAreOld(s);
    if s.main.PostTest? && s'.main.PostSignal? {
      MarksPosted(s.sh, s.main.task);
    } else if s.main.Idle? && s'.main.Idle? {
      MarksCompleted(s.sh, s.sh.todo[0], s.sh.todo[1..]);
    } else {
      MarksSame(s.sh, s'.sh);
    }
  }

  // ----- the event loop signals

  lemma SignalInv(c: Config, s: State, s': State)
    requires Inv(c, s) && Signals(s, s')
    ensures s'.pc.Keys == c.threads && Locks(s') && Counted(s') && Fifo(s') && Marked(s') && OneHandler(s')
  {
    assert Wanting(s') == Wanting(s);
  }

  lemma SignalServed(s: State, s': State)
    requires Served(s) && Signals(s, s')
    ensures Served(s')
  {
    if Sleepers(s'.pc) != {} {
      assert Sleepers(s'.pc) <= Sleepers(s.pc);
      var w :| w in s.pc && s.pc[w].Asleep? && s'.pc[w].Woken?;
      assert w !in Heading(s) && Heading(s) + {w} <= Heading(s');
      SubsetSize(Heading(s) + {w}, Heading(s'));
    }
  }

  lemma SignalOnce(s: State, s': State)
    requires Once(s) && Announced(s) && Signals(s, s')
    ensures Once(s') && Announced(s')
  {
    assert forall w :: w in s.pc && !s.pc[w].Asleep? ==> s'.pc[w] == s.pc[w];
    forall n: nat | n < s.sh.taken ensures n in Out(s.sh) || InWork(s'.pc, n) {
      if InWork(s.pc, n) {
        var w :| w in s.pc && Busy(s.pc[w]) && s.pc[w].job == n;
        assert s'.pc[w] == s.pc[w];
      }
    }
    if s.sh.done != [] && !s.sh.notified {
      var w :| w in s.pc && (s.pc[w].Unspin? || s.pc[w].Notify?);
      assert s'.pc[w] == s.pc[w];
    }
  }

  // ----- the bound

  lemma MoveBounded(c: Config, s: State, s': State)
    requires s.pc.Keys == c.threads && Counted(s) && Bounded(c, s) && Moves(c, s, s')
    ensures Bounded(c, s')
  {
    SubsetSize(Wanting(s), c.threads);
  }

  // ----- every run

  lemma MoveInv(c: Config, s: State, s': State)
    requires Inv(c, s) && Moves(c, s, s')
    ensures Inv(c, s')
  {
    MoveBounded(c, s, s');
    if MainStep(c, s, s') {
      MainInv(c, s, s');
      MainKeepsOut(c, s, s');
      MainMarked(c, s, s');
    } else if Signals(s, s') {
      SignalInv(c, s, s');
      SignalServed(s, s');
      SignalOnce(s, s');
    } else {
      var w :| ThreadStep(s, w, s');
      ThreadInv(c, s, w, s');
    }
  }

  lemma ThreadInv(c: Config, s: State, w: Tid, s': State)
    requires Inv(c, s) && ThreadStep(s, w, s')
    ensures Inv(c, s')
  {
    MoveBounded(c, s, s');
    ThreadLocks(s, w, s');
    ThreadCounted(s, w, s');
    ThreadFifo(s, w, s');
    ThreadServed(s, w, s');
    ThreadOnce(s, w, s');
    ThreadMarked(s, w, s');
    ThreadAnnounced(s, w, s');
  }

  lemma {:induction false} RunInv(c: Config, r: seq<State>, i: nat)
    requires Run(c, r) && i < |r|
    ensures Inv(c, r[i])
  {
    if i == 0 {
      InitInv(c, r[0]);
    } else {
      RunInv(c, r, i - 1);
      MoveInv(c, r[i - 1], r[i]);
    }
  }

  // ----- the theorems

  predicate RunsJob(s: State, w: Tid, n: nat) { w in s.pc && Busy(s.pc[w]) && s.pc[w].job == n }

  // Waiting is the number of queued tasks less the threads that have taken
  // themselves off the counter and not dequeued yet, whenever nobody is
  // between appending a task and counting it.
  lemma WaitingCounts(c: Config, r: seq<State>, i: nat)
    requires Run(c, r) && i < |r| && r[i].main != PostCount
    ensures r[i].sh.waiting == |r[i].sh.queue| - |Wanting(r[i])|
  {
    RunInv(c, r, i);
  }

  // Jobs leave the queue in the order of their posts; none is lost, run by two
  // threads or finished twice.
  lemma JobsRunOnce(c: Config, r: seq<State>, i: nat, n: nat)
    requires Run(c, r) && i < |r| && n < r[i].sh.taken
    ensures InWork(r[i].pc, n) <==> n !in Out(r[i].sh)
    ensures forall v, w :: RunsJob(r[i], v, n) && RunsJob(r[i], w, n) ==> v == w
    ensures forall a, b :: 0 <= a < |Out(r[i].sh)| && 0 <= b < |Out(r[i].sh)| && Out(r[i].sh)[a] == n == Out(r[i].sh)[b] ==> a == b
  {
    RunInv(c, r, i);
  }

  lemma QueueIsFifo(c: Config, r: seq<State>, i: nat, k: nat)
    requires Run(c, r) && i < |r| && k < |r[i].sh.queue|
    ensures r[i].sh.queue[k] == r[i].sh.taken + k < |r[i].sh.jobs|
  {
    RunInv(c, r, i);
  }

  // A task is refused as active exactly while a job of it is not completed,
  // and then exactly one is.
  lemma ActiveMeansOneOpenJob(c: Config, r: seq<State>, i: nat, t: Task)
    requires Run(c, r) && i < |r|
    ensures t in r[i].sh.active <==> exists n: nat :: Open(r[i].sh, n) && r[i].sh.jobs[n] == t
    ensures forall m: nat, n: nat :: Open(r[i].sh, m) && Open(r[i].sh, n) && r[i].sh.jobs[m] == t == r[i].sh.jobs[n] ==> m == n
  {
    RunInv(c, r, i);
  }

  // A queue with work never meets a pool that is all asleep.
  lemma NoLostSignal(c: Config, r: seq<State>, i: nat)
    requires Run(c, r) && i < |r| && c.threads != {}
    requires r[i].sh.queue != []
    ensures exists w :: w in c.threads && w in r[i].pc && !r[i].pc[w].Asleep?
    ensures Sleepers(r[i].pc) != {} ==> |r[i].sh.queue| <= |Heading(r[i])|
  {
    RunInv(c, r, i);
    var s := r[i];
    if Sleepers(s.pc) == {} {
      var w :| w in c.threads;
      assert w !in Sleepers(s.pc);
    } else {
      assert Heading(s) != {};
      var w :| w in Heading(s);
    }
  }

  // The queue never outgrows max_queue by more than the number of threads.
  lemma QueueStaysBounded(c: Config, r: seq<State>, i: nat)
    requires Run(c, r) && i < |r|
    ensures |r[i].sh.queue| <= Max(0, c.maxQueue + |c.threads|)
  {
    RunInv(c, r, i);
  }

  // A finished job is never stranded on the done list.
  lemma NoLostCompletion(c: Config, r: seq<State>, i: nat)
    requires Run(c, r) && i < |r|
    ensures Announced(r[i])
  {
    RunInv(c, r, i);
  }
}
