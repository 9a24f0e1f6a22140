// The state of an open file cache: its entries, their descriptors and the
// requests that hold them.
module FileState {
  import opened Options
  import opened Counting

  // A descriptor stands for one opening of a file; numbers are not reused.
  datatype Entry = Entry(
    name: string, fd: Option<nat>, uniq: nat, err: nat, isDir: bool,
    close: bool, count: nat, uses: nat, created: int, accessed: int)

  // What a request's cleanup will give back.
  datatype Use = Use(file: nat, fd: nat)

  datatype State = State(
    files: map<nat, Entry>,      // the entries in memory
    tree: map<string, nat>,      // those found by name
    queue: seq<nat>,             // the same by last access
    current: int,
    open: set<nat>, closed: set<nat>,
    uses: map<nat, Use>)         // the requests' cleanups

  ghost predicate NoDup(c: seq<nat>) { forall i, j :: 0 <= i < j < |c| ==> c[i] != c[j] }

  function UsesOf(uses: map<nat, Use>, id: nat): set<nat> { set h | h in uses && uses[h].file == id }

  // The entries in the tree are those not marked for closing.
  ghost predicate TreeOk(s: State) {
    && (forall n :: n in s.tree ==> s.tree[n] in s.files && s.files[s.tree[n]].name == n && !s.files[s.tree[n]].close)
    && (forall id :: id in s.files && !s.files[id].close ==> s.files[id].name in s.tree && s.tree[s.files[id].name] == id)
    && s.current == |s.tree|
  }

  // They are in the queue too, but for those in `out`.
  ghost predicate QueueOk(s: State, out: set<nat>) {
    && NoDup(s.queue)
    && (forall k :: 0 <= k < |s.queue| ==> s.queue[k] in s.files && !s.files[s.queue[k]].close && s.queue[k] !in out)
    && (forall id :: id in s.files && !s.files[id].close && id !in out ==> id in s.queue)
    && s.current == |s.queue| + |out|
    && (forall id :: id in out ==> id in s.files && !s.files[id].close)
  }

  // One entry's fields agree; only one in `loose` may be marked for closing
  // without being in use.
  ghost predicate EntryOk(s: State, id: nat, e: Entry, loose: set<nat>) {
    && (e.fd.Some? ==> e.fd.value in s.open)
    && (e.err != 0 || e.isDir ==> e.fd.None?)
    && (e.count > 0 ==> e.fd.Some?)
    && (e.close && id !in loose ==> e.count > 0)
    && e.count == |UsesOf(s.uses, id)|
  }

  ghost predicate FilesOk(s: State, loose: set<nat>) {
    forall id :: id in s.files ==> EntryOk(s, id, s.files[id], loose)
  }

  predicate Owns(s: State, id: nat, d: nat) { id in s.files && s.files[id].fd == Some(d) }

  // Every open descriptor belongs to one entry.
  ghost predicate OpenOk(s: State) {
    && s.open !! s.closed
    && (forall d :: d in s.open ==> exists id :: Owns(s, id, d))
    && (forall id, other, d :: Owns(s, id, d) && Owns(s, other, d) ==> id == other)
  }

  // A request holds the descriptor of its entry.
  ghost predicate UsesOk(s: State) {
    forall h :: h in s.uses ==> Owns(s, s.uses[h].file, s.uses[h].fd)
  }

  ghost predicate Ok(s: State, out: set<nat>, loose: set<nat>) {
    TreeOk(s) && QueueOk(s, out) && FilesOk(s, loose) && OpenOk(s) && UsesOk(s)
  }

  // What is promised between calls: a descriptor a request holds is open, no
  // other entry has it, and the entry is still there.
  lemma HeldIsOpen(s: State, h: nat)
    requires Ok(s, {}, {}) && h in s.uses
    ensures s.uses[h].fd in s.open && s.uses[h].fd !in s.closed
    ensures s.uses[h].file in s.files && s.files[s.uses[h].file].count > 0
  {
    var u := s.uses[h];
    assert h in UsesOf(s.uses, u.file);
    assert EntryOk(s, u.file, s.files[u.file], {});
  }

  // Nothing leaks: an open descriptor is in a cached entry or held by a request.
  lemma OpenIsCachedOrHeld(s: State, d: nat)
    requires Ok(s, {}, {}) && d in s.open
    ensures exists id :: Owns(s, id, d) && ((s.files[id].name in s.tree && s.tree[s.files[id].name] == id) || UsesOf(s.uses, id) != {})
  {
    var id :| Owns(s, id, d);
    assert EntryOk(s, id, s.files[id], {});
  }

  // ----- steps

  function Without(c: seq<nat>, id: nat): (d: seq<nat>)
    ensures |d| <= |c|
  {
    if c == [] then [] else if c[0] == id then c[1..] else [c[0]] + Without(c[1..], id)
  }

  lemma {:induction false} WithoutOne(c: seq<nat>, id: nat)
    requires NoDup(c) && id in c
    ensures NoDup(Without(c, id)) && |Without(c, id)| == |c| - 1
    ensures forall x :: x in Without(c, id) <==> x in c && x != id
  {
    if c[0] == id {
      assert c == [c[0]] + c[1..];
    } else {
      assert c == [c[0]] + c[1..];
      WithoutOne(c[1..], id);
      assert c[0] !in c[1..];
      var d := Without(c[1..], id);
      assert forall x :: x in [c[0]] + d <==> x == c[0] || x in d;
    }
  }

  lemma {:induction false} WithoutLast(c: seq<nat>)
    requires NoDup(c) && c != []
    ensures Without(c, c[|c| - 1]) == c[..|c| - 1]
  {
    if |c| > 1 {
      WithoutLast(c[1..]);
      assert c[1..][..|c| - 2] == c[1..|c| - 1];
    }
  }

  function Unqueued(s: State, id: nat): State { s.(queue := Without(s.queue, id)) }

  lemma UnqueueStep(s: State, id: nat, loose: set<nat>)
    requires Ok(s, {}, loose) && id in s.files && !s.files[id].close
    ensures Ok(Unqueued(s, id), {id}, loose)
  {
    WithoutOne(s.queue, id);
    assert forall k :: 0 <= k < |Without(s.queue, id)| ==> Without(s.queue, id)[k] in Without(s.queue, id);
    assert forall k :: 0 <= k < |s.queue| ==> s.queue[k] in s.queue;
    SameFiles(s, Unqueued(s, id), loose);
  }

  // The parts that do not look at the queue.
  lemma SameFiles(s: State, s': State, loose: set<nat>)
    requires FilesOk(s, loose) && OpenOk(s) && UsesOk(s)
    requires s' == s.(queue := s'.queue, tree := s'.tree, current := s'.current)
    ensures FilesOk(s', loose) && OpenOk(s') && UsesOk(s')
  {
    forall id | id in s'.files ensures EntryOk(s', id, s'.files[id], loose) {
      assert EntryOk(s, id, s.files[id], loose);
    }
    assert forall id, d :: Owns(s', id, d) <==> Owns(s, id, d);
  }

  function Queued(s: State, id: nat): State { s.(queue := [id] + s.queue) }

  lemma QueueStep(s: State, id: nat, loose: set<nat>)
    requires Ok(s, {id}, loose)
    ensures Ok(Queued(s, id), {}, loose)
  {
    hide FilesOk, EntryOk, OpenOk;
    SameFiles(s, Queued(s, id), loose);
    assert forall x :: x in [id] + s.queue <==> x == id || x in s.queue;
    assert forall k :: 0 <= k < |s.queue| ==> s.queue[k] in s.queue;
  }

  // An entry leaves the tree and is marked for closing.
  function Detached(s: State, id: nat): State
    requires id in s.files
  {
    s.(tree := s.tree - {s.files[id].name}, current := s.current - 1, files := s.files[id := s.files[id].(close := true)])
  }

  lemma DetachStep(s: State, id: nat)
    requires Ok(s, {id}, {})
    ensures id in s.files && Ok(Detached(s, id), {}, {id})
  {
    hide EntryOk, OpenOk, UsesOk, NoDup;
    var s', e := Detached(s, id), s.files[id];
    DetachTree(s, id);
    DetachFiles(s, id);
    assert forall k :: 0 <= k < |s.queue| ==> s.queue[k] in s.queue;
  }

  lemma DetachTree(s: State, id: nat)
    requires TreeOk(s) && id in s.files && !s.files[id].close
    ensures TreeOk(Detached(s, id))
  {
    var s' := Detached(s, id);
    assert s.tree.Keys == s'.tree.Keys + {s.files[id].name};
    assert |s.tree.Keys| == |s.tree| && |s'.tree.Keys| == |s'.tree|;
  }

  lemma DetachFiles(s: State, id: nat)
    requires FilesOk(s, {}) && OpenOk(s) && UsesOk(s) && id in s.files
    ensures FilesOk(Detached(s, id), {id}) && OpenOk(Detached(s, id)) && UsesOk(Detached(s, id))
  {
    var s' := Detached(s, id);
    forall i | i in s'.files ensures EntryOk(s', i, s'.files[i], {id}) {
      assert EntryOk(s, i, s.files[i], {});
    }
    assert forall i, d :: Owns(s', i, d) <==> Owns(s, i, d);
  }

  // One entry's other fields do not matter to the tree and the queue.
  lemma SamePlaces(s: State, s': State, id: nat, out: set<nat>)
    requires TreeOk(s) && QueueOk(s, out) && id in s.files
    requires s'.files.Keys == s.files.Keys && s'.tree == s.tree && s'.queue == s.queue && s'.current == s.current
    requires forall i :: i in s.files && i != id ==> s'.files[i] == s.files[i]
    requires s'.files[id].name == s.files[id].name && s'.files[id].close == s.files[id].close
    ensures TreeOk(s') && QueueOk(s', out)
  {
  }

  // Owners that stay keep their descriptors in order.
  lemma SameOwners(s: State, s': State)
    requires OpenOk(s) && s'.open == s.open && s'.closed == s.closed
    requires forall i, d :: Owns(s', i, d) <==> Owns(s, i, d)
    ensures OpenOk(s')
  {
    forall d | d in s'.open ensures exists i :: Owns(s', i, d) {
      var i :| Owns(s, i, d);
      assert Owns(s', i, d);
    }
  }

  // ----- descriptors

  // An entry nobody uses loses its descriptor.
  function Shut(s: State, id: nat): State
    requires id in s.files && s.files[id].fd.Some?
  {
    var d := s.files[id].fd.value;
    s.(open := s.open - {d}, closed := s.closed + {d}, files := s.files[id := s.files[id].(fd := None)])
  }

  lemma ShutStep(s: State, id: nat, out: set<nat>, loose: set<nat>)
    requires Ok(s, out, loose) && id in s.files && s.files[id].fd.Some? && s.files[id].count == 0
    ensures s.files[id].fd.value in s.open && Ok(Shut(s, id), out, loose)
  {
    hide TreeOk, QueueOk, OpenOk, UsesOk;
    var s', d := Shut(s, id), s.files[id].fd.value;
    assert EntryOk(s, id, s.files[id], loose);
    SamePlaces(s, s', id, out);
    ShutOwners(s, id);
    ShutUses(s, id, loose);
    ShutFiles(s, id, loose);
  }

  lemma ShutOwners(s: State, id: nat)
    requires OpenOk(s) && id in s.files && s.files[id].fd.Some? && s.files[id].fd.value in s.open
    ensures forall i, d :: Owns(Shut(s, id), i, d) <==> Owns(s, i, d) && i != id
    ensures OpenOk(Shut(s, id))
  {
    var s', d := Shut(s, id), s.files[id].fd.value;
    assert Owns(s, id, d);
    forall e | e in s'.open ensures exists i :: Owns(s', i, e) {
      var i :| Owns(s, i, e);
      assert Owns(s', i, e);
    }
  }

  lemma ShutUses(s: State, id: nat, loose: set<nat>)
    requires FilesOk(s, loose) && UsesOk(s) && id in s.files && s.files[id].fd.Some? && s.files[id].count == 0
    ensures UsesOk(Shut(s, id))
  {
    var s' := Shut(s, id);
    assert EntryOk(s, id, s.files[id], loose);
    forall h | h in s'.uses ensures Owns(s', s'.uses[h].file, s'.uses[h].fd) {
      assert h in UsesOf(s.uses, s.uses[h].file);
      assert Owns(s, s.uses[h].file, s.uses[h].fd);
    }
  }

  lemma ShutFiles(s: State, id: nat, loose: set<nat>)
    requires FilesOk(s, loose) && OpenOk(s) && id in s.files && s.files[id].fd.Some? && s.files[id].count == 0
    ensures FilesOk(Shut(s, id), loose)
  {
    var s', d := Shut(s, id), s.files[id].fd.value;
    forall i | i in s'.files ensures EntryOk(s', i, s'.files[i], loose) {
      assert EntryOk(s, i, s.files[i], loose);
      assert Owns(s, id, d) && (s.files[i].fd == Some(d) ==> Owns(s, i, d));
    }
  }

  // An entry out of the tree, without a descriptor, is freed.
  function Freed(s: State, id: nat): State { s.(files := s.files - {id}) }

  lemma FreeStep(s: State, id: nat)
    requires Ok(s, {}, {id}) && id in s.files && s.files[id].close && s.files[id].fd.None?
    ensures Ok(Freed(s, id), {}, {})
  {
    hide TreeOk, QueueOk, FilesOk, OpenOk, UsesOk;
    FreePlaces(s, id);
    FreeFiles(s, id);
    FreeOwners(s, id);
  }

  lemma FreeFiles(s: State, id: nat)
    requires FilesOk(s, {id}) && id in s.files
    ensures FilesOk(Freed(s, id), {})
  {
    var s' := Freed(s, id);
    forall i | i in s'.files ensures EntryOk(s', i, s'.files[i], {}) {
      assert EntryOk(s, i, s.files[i], {id});
    }
  }

  lemma FreeOwners(s: State, id: nat)
    requires OpenOk(s) && UsesOk(s) && id in s.files && s.files[id].fd.None?
    ensures OpenOk(Freed(s, id)) && UsesOk(Freed(s, id))
  {
    hide OpenOk;
    SameOwners(s, Freed(s, id));
  }

  lemma FreePlaces(s: State, id: nat)
    requires TreeOk(s) && QueueOk(s, {}) && id in s.files && s.files[id].close
    ensures TreeOk(Freed(s, id)) && QueueOk(Freed(s, id), {})
  {
  }

  // An entry in use stays, out of the tree.
  lemma StillUsed(s: State, id: nat)
    requires Ok(s, {}, {id}) && (id in s.files && s.files[id].close ==> s.files[id].count > 0)
    ensures Ok(s, {}, {})
  {
    forall i | i in s.files ensures EntryOk(s, i, s.files[i], {}) {
      assert EntryOk(s, i, s.files[i], {id});
    }
  }

  // ----- requests

  function Released(s: State, h: nat): State
    requires h in s.uses && s.uses[h].file in s.files
  {
    var id := s.uses[h].file;
    s.(uses := s.uses - {h}, files := s.files[id := s.files[id].(count := if s.files[id].count > 0 then s.files[id].count - 1 else 0)])
  }

  lemma ReleaseStep(s: State, h: nat)
    requires Ok(s, {}, {}) && h in s.uses
    ensures s.uses[h].file in s.files && s.files[s.uses[h].file].count > 0
    ensures Ok(Released(s, h), {}, {s.uses[h].file})
  {
    hide TreeOk, QueueOk, OpenOk, FilesOk;
    ReleasedCount(s, h);
    var id := s.uses[h].file;
    var s' := Released(s, h);
    UsesFiles(s, s', id, h, {id});
    SamePlaces(s, s', id, {});
    SameOwners(s, s');
  }

  // A use of one entry more or less, and its count.
  lemma UsesFiles(s: State, s': State, id: nat, h: nat, loose: set<nat>)
    requires FilesOk(s, {}) && id in s.files && s'.files.Keys == s.files.Keys && s'.open == s.open
    requires forall i :: i in s.files && i != id ==> s'.files[i] == s.files[i]
    requires s'.files[id] == s.files[id].(count := s'.files[id].count) && loose <= {id}
    requires if h in s.uses then s'.uses == s.uses - {h} && s.uses[h].file == id && s'.files[id].count == s.files[id].count - 1 && loose == {id}
             else h in s'.uses && s'.uses == s.uses[h := s'.uses[h]] && s'.uses[h].file == id && s'.files[id].count == s.files[id].count + 1
                  && s.files[id].fd.Some?
    ensures FilesOk(s', loose)
  {
    forall i | i in s'.files ensures EntryOk(s', i, s'.files[i], loose) {
      assert EntryOk(s, i, s.files[i], {});
      UsesCount(s.uses, s'.uses, id, h, i);
    }
  }

  lemma UsesCount(u: map<nat, Use>, u': map<nat, Use>, id: nat, h: nat, i: nat)
    requires if h in u then u' == u - {h} && u[h].file == id else h in u' && u' == u[h := u'[h]] && u'[h].file == id
    ensures |UsesOf(u', i)| == |UsesOf(u, i)| + if i != id then 0 else if h in u then -1 else 1
  {
    if h in u {
      assert u == u'[h := u[h]];
      OneMoreUse(u', h, u[h], i);
    } else {
      OneMoreUse(u, h, u'[h], i);
    }
  }

  lemma OneMoreUse(u: map<nat, Use>, h: nat, v: Use, i: nat)
    requires h !in u
    ensures |UsesOf(u[h := v], i)| == |UsesOf(u, i)| + if v.file == i then 1 else 0
  {
    var u' := u[h := v];
    forall x ensures x in UsesOf(u', i) <==> x in UsesOf(u, i) || (x == h && v.file == i) {}
    if v.file == i {
      assert UsesOf(u', i) == UsesOf(u, i) + {h};
    } else {
      assert UsesOf(u', i) == UsesOf(u, i);
    }
  }

  lemma ReleasedCount(s: State, h: nat)
    requires Ok(s, {}, {}) && h in s.uses
    ensures s.uses[h].file in s.files && s.files[s.uses[h].file].count > 0
  {
    HeldIsOpen(s, h);
  }

  // A request takes an open file.
  function Held(s: State, h: nat, id: nat): State
    requires id in s.files && s.files[id].fd.Some?
  {
    s.(uses := s.uses[h := Use(id, s.files[id].fd.value)], files := s.files[id := s.files[id].(count := s.files[id].count + 1)])
  }

  lemma HoldStep(s: State, h: nat, id: nat, out: set<nat>)
    requires Ok(s, out, {}) && h !in s.uses && id in s.files && s.files[id].fd.Some?
    ensures Ok(Held(s, h, id), out, {})
  {
    hide TreeOk, QueueOk, OpenOk, FilesOk;
    var s' := Held(s, h, id);
    UsesFiles(s, s', id, h, {});
    SamePlaces(s, s', id, out);
    SameOwners(s, s');
  }

  // ----- entries

  // An entry in the tree changes what it says of its file; a new descriptor is
  // open and nobody else's.
  function Restated(s: State, id: nat, e: Entry): State {
    s.(files := s.files[id := e], open := s.open + if e.fd.Some? then {e.fd.value} else {})
  }

  // An entry without a descriptor gets what the oracle found.
  lemma RestateStep(s: State, id: nat, e: Entry, out: set<nat>)
    requires Ok(s, out, {}) && id in s.files && s.files[id].fd.None?
    requires e.name == s.files[id].name && e.close == s.files[id].close && e.count == s.files[id].count
    requires e.fd.Some? ==> e.fd.value !in s.open + s.closed && e.err == 0 && !e.isDir
    ensures Ok(Restated(s, id, e), out, {})
  {
    hide TreeOk, QueueOk, FilesOk, OpenOk, UsesOk;
    SamePlaces(s, Restated(s, id, e), id, out);
    RestateFiles(s, id, e);
    RestateOwners(s, id, e);
  }

  lemma RestateFiles(s: State, id: nat, e: Entry)
    requires FilesOk(s, {}) && id in s.files && s.files[id].fd.None? && e.close == s.files[id].close && e.count == s.files[id].count
    requires e.fd.Some? ==> e.err == 0 && !e.isDir
    ensures FilesOk(Restated(s, id, e), {})
  {
    var s' := Restated(s, id, e);
    forall i | i in s'.files ensures EntryOk(s', i, s'.files[i], {}) {
      assert EntryOk(s, i, s.files[i], {});
    }
  }

  lemma RestateOwners(s: State, id: nat, e: Entry)
    requires FilesOk(s, {}) && OpenOk(s) && UsesOk(s) && id in s.files && s.files[id].fd.None?
    requires e.fd.Some? ==> e.fd.value !in s.open + s.closed
    ensures OpenOk(Restated(s, id, e)) && UsesOk(Restated(s, id, e))
  {
    hide EntryOk;
    var s' := Restated(s, id, e);
    OwnedOpen(s);
    forall i: nat, d: nat ensures Owns(s', i, d) <==> Owns(s, i, d) || (i == id && e.fd == Some(d)) {}
    forall d | d in s'.open ensures exists i :: Owns(s', i, d) {
      if d in s.open {
        var i :| Owns(s, i, d);
        assert Owns(s', i, d);
      } else {
        assert Owns(s', id, d);
      }
    }
    hide Owns;
  }

  lemma OwnedOpen(s: State)
    requires FilesOk(s, {})
    ensures forall i, d :: Owns(s, i, d) ==> d in s.open
  {
    forall i, d | Owns(s, i, d) ensures d in s.open {
      assert EntryOk(s, i, s.files[i], {});
    }
  }

  // Nothing but times and the like changes.
  lemma TouchStep(s: State, id: nat, e: Entry, out: set<nat>, loose: set<nat>)
    requires Ok(s, out, loose) && id in s.files
    requires var f := s.files[id];
      e == f.(uses := e.uses, created := e.created, accessed := e.accessed, uniq := e.uniq)
    ensures Ok(s.(files := s.files[id := e]), out, loose)
  {
    hide TreeOk, QueueOk, FilesOk, OpenOk, UsesOk;
    SamePlaces(s, s.(files := s.files[id := e]), id, out);
    TouchFiles(s, id, e, loose);
    TouchOwners(s, id, e);
  }

  lemma TouchFiles(s: State, id: nat, e: Entry, loose: set<nat>)
    requires FilesOk(s, loose) && id in s.files
    requires e == s.files[id].(uses := e.uses, created := e.created, accessed := e.accessed, uniq := e.uniq)
    ensures FilesOk(s.(files := s.files[id := e]), loose)
  {
    hide UsesOf;
    var s' := s.(files := s.files[id := e]);
    forall i | i in s'.files ensures EntryOk(s', i, s'.files[i], loose) {
      assert EntryOk(s, i, s.files[i], loose);
    }
  }

  lemma TouchOwners(s: State, id: nat, e: Entry)
    requires OpenOk(s) && UsesOk(s) && id in s.files && e.fd == s.files[id].fd
    ensures OpenOk(s.(files := s.files[id := e])) && UsesOk(s.(files := s.files[id := e]))
  {
    hide OpenOk;
    SameOwners(s, s.(files := s.files[id := e]));
  }

  // A new entry, not yet in the queue.
  function Created(s: State, id: nat, name: string): State {
    s.(files := s.files[id := Entry(name, None, 0, 0, false, false, 0, 1, 0, 0)], tree := s.tree[name := id], current := s.current + 1)
  }

  lemma CreateStep(s: State, id: nat, name: string)
    requires Ok(s, {}, {}) && id !in s.files && name !in s.tree
    ensures Ok(Created(s, id, name), {id}, {})
  {
    hide TreeOk, QueueOk, FilesOk, OpenOk, UsesOk;
    CreatePlaces(s, id, name);
    CreateFiles(s, id, name);
  }

  lemma CreatePlaces(s: State, id: nat, name: string)
    requires TreeOk(s) && QueueOk(s, {}) && id !in s.files && name !in s.tree
    ensures TreeOk(Created(s, id, name)) && QueueOk(Created(s, id, name), {id})
  {
    hide NoDup, QueueOk;
    OneMoreName(s.tree, name, id);
    CreateQueue(s, id, name);
  }

  lemma OneMoreName(tree: map<string, nat>, name: string, id: nat)
    requires name !in tree
    ensures |tree[name := id]| == |tree| + 1
  {
    assert tree[name := id].Keys == tree.Keys + {name};
    assert |tree[name := id].Keys| == |tree[name := id]| && |tree.Keys| == |tree|;
  }

  lemma CreateQueue(s: State, id: nat, name: string)
    requires QueueOk(s, {}) && id !in s.files
    ensures QueueOk(Created(s, id, name), {id})
  {
    assert forall k :: 0 <= k < |s.queue| ==> s.queue[k] in s.files;
  }

  lemma CreateFiles(s: State, id: nat, name: string)
    requires FilesOk(s, {}) && OpenOk(s) && UsesOk(s) && id !in s.files
    ensures var s' := Created(s, id, name); FilesOk(s', {}) && OpenOk(s') && UsesOk(s')
  {
    hide OpenOk;
    var s' := Created(s, id, name);
    forall h | h in s.uses ensures s.uses[h].file != id {
      assert Owns(s, s.uses[h].file, s.uses[h].fd);
    }
    assert UsesOf(s.uses, id) == {};
    forall i | i in s'.files ensures EntryOk(s', i, s'.files[i], {}) {
      if i != id { assert EntryOk(s, i, s.files[i], {}); }
    }
    SameOwners(s, s');
  }

  lemma NoFd(s: State, id: nat, loose: set<nat>)
    requires Ok(s, loose, {}) && id in s.files && (s.files[id].err != 0 || s.files[id].isDir)
    ensures s.files[id].fd.None? && s.files[id].count == 0
  {
    assert EntryOk(s, id, s.files[id], {});
  }

  lemma InQueue(s: State, k: nat)
    requires Ok(s, {}, {}) && k < |s.queue|
    ensures s.queue[k] in s.files && !s.files[s.queue[k]].close
  {
  }

  lemma InTree(s: State, id: nat)
    requires Ok(s, {id}, {})
    ensures id in s.files && !s.files[id].close && s.files[id].name in s.tree && s.tree[s.files[id].name] == id
  {
  }

  // An entry with a descriptor is a file's, and its descriptor is open.
  lemma KeptEntry(s: State, id: nat)
    requires Ok(s, {id}, {}) && id in s.files && s.files[id].fd.Some?
    ensures s.files[id].err == 0 && !s.files[id].isDir && s.files[id].fd.value in s.open
  {
    assert EntryOk(s, id, s.files[id], {});
  }

  lemma OpenEntry(s: State, id: nat)
    requires Ok(s, {}, {}) && id in s.files
    ensures s.files[id].fd.Some? ==> s.files[id].err == 0 && !s.files[id].isDir && s.files[id].fd.value in s.open
  {
    assert EntryOk(s, id, s.files[id], {});
  }

  // An entry has no more users than there are requests.
  lemma CountBound(s: State, id: nat, out: set<nat>)
    requires Ok(s, out, {}) && id in s.files
    ensures s.files[id].count <= |s.uses|
  {
    assert EntryOk(s, id, s.files[id], {});
    SubsetSize(UsesOf(s.uses, id), s.uses.Keys);
    assert |s.uses.Keys| == |s.uses|;
  }

  // An entry's name and what it says of its file, once found by name.
  lemma FoundEntry(s: State, name: string)
    requires Ok(s, {}, {}) && name in s.tree
    ensures s.tree[name] in s.files && s.files[s.tree[name]].name == name && !s.files[s.tree[name]].close
  {
  }

  // The queue has all entries but those out of it.
  lemma QueueSize(s: State)
    requires Ok(s, {}, {})
    ensures s.current == |s.queue| == |s.tree|
  {
  }

  // A descriptor that no entry has is lost.
  lemma Lost(s: State, d: nat)
    requires d in s.open && forall id :: id in s.files ==> s.files[id].fd != Some(d)
    ensures !Ok(s, {}, {})
  {
    forall id ensures !Owns(s, id, d) {}
  }

  lemma OnlyOwner(s: State, id: nat, d: nat)
    requires Ok(s, {id}, {}) && Owns(s, id, d)
    ensures d in s.open && forall i :: i in s.files && i != id ==> s.files[i].fd != Some(d)
  {
    assert EntryOk(s, id, s.files[id], {});
    forall i | i in s.files && i != id ensures s.files[i].fd != Some(d) {
      assert Owns(s, i, d) ==> i == id;
    }
  }
}
