// The open file cache: entries found by name, kept open while requests hold
// them, and expired by last access.
module FileCache {
  import opened FileState
  import opened Options

  // What the file system says of a name.
  datatype Stat = IsFile(uniq: nat) | IsDir(uniq: nat) | Fails(err: nat)

  // The next answers of the file system: to a look at the name, and to an
  // open, whose descriptor would be fd.
  datatype Disk = Disk(stat: Stat, byOpen: Stat, fd: nat)

  // What was found: no descriptor for a directory or on an error.
  datatype Found = Found(ok: bool, fd: Option<nat>, uniq: nat, err: nat, isDir: bool)

  datatype Answer = Descriptor(fd: nat) | Directory | Error(err: nat)

  const CountRange: nat := 0x100_0000      // unsigned count:24
  const UsesRange: nat := 0x1_0000_0000    // uint32_t uses

  // ngx_open_and_stat_file; a descriptor already there is kept if the name
  // still is the same file.
  method OpenAndStat(fd: Option<nat>, uniq: nat, testDir: bool, disk: Disk) returns (found: Found)
    ensures found == Look(fd, uniq, testDir, disk)
  {
    if fd.Some? {
      if disk.stat.Fails? {
        return Found(false, None, 0, disk.stat.err, false);
      }
      if uniq == disk.stat.uniq {
        return Found(true, fd, disk.stat.uniq, 0, disk.stat.IsDir?);
      }
    } else if testDir {
      if disk.stat.Fails? {
        return Found(false, None, 0, disk.stat.err, false);
      }
      if disk.stat.IsDir? {
        return Found(true, None, disk.stat.uniq, 0, true);
      }
    }
    if disk.byOpen.Fails? {
      return Found(false, None, 0, disk.byOpen.err, false);
    }
    if disk.byOpen.IsDir? {
      return Found(true, None, disk.byOpen.uniq, 0, true);
    }
    found := Found(true, Some(disk.fd), disk.byOpen.uniq, 0, false);
  }

  function Look(fd: Option<nat>, uniq: nat, testDir: bool, disk: Disk): Found {
    if fd.Some? && !disk.stat.Fails? && disk.stat.uniq == uniq then Found(true, fd, uniq, 0, disk.stat.IsDir?)
    else if (fd.Some? || testDir) && disk.stat.Fails? then Found(false, None, 0, disk.stat.err, false)
    else if fd.None? && testDir && disk.stat.IsDir? then Found(true, None, disk.stat.uniq, 0, true)
    else match disk.byOpen
      case Fails(err) => Found(false, None, 0, err, false)
      case IsDir(u) => Found(true, None, u, 0, true)
      case IsFile(u) => Found(true, Some(disk.fd), u, 0, false)
  }

  // An entry's descriptor is kept exactly if the name has the entry's number; a
  // new one is a file's that was opened; an error is one that was met.
  lemma LookTells(fd: Option<nat>, uniq: nat, testDir: bool, disk: Disk)
    ensures var f := Look(fd, uniq, testDir, disk);
      && (f.ok && !f.isDir ==> || (fd.Some? && f.fd == fd && f.uniq == uniq && disk.stat == IsFile(uniq))
                               || (f.fd == Some(disk.fd) && disk.byOpen == IsFile(f.uniq)))
      && (f.isDir ==> f.ok && (disk.stat == IsDir(f.uniq) || disk.byOpen == IsDir(f.uniq)))
      && (!f.ok ==> f.fd.None? && (disk.stat == Fails(f.err) || disk.byOpen == Fails(f.err)))
      && (fd.Some? && disk.stat == IsFile(uniq) ==> f.ok && !f.isDir && f.fd == fd)
      && (fd.Some? && disk.stat.Fails? ==> !f.ok)
      && (fd.None? && !testDir ==> (f.ok <==> !disk.byOpen.Fails?))
  {
  }

  function AnswerTo(found: Found): Answer {
    if !found.ok then Error(found.err)
    else if found.isDir then Directory
    else if found.fd.Some? then Descriptor(found.fd.value)
    else Error(0)
  }

  class FileCache {
    const max: nat
    const inactive: int

    var files: map<nat, Entry>
    var tree: map<string, nat>
    var queue: seq<nat>
    var current: int
    var uses: map<nat, Use>      // the cleanups registered by requests

    ghost var open: set<nat>
    ghost var closed: set<nat>

    constructor (max: nat, inactive: int)
      ensures Valid() && this.max == max && this.inactive == inactive && files == map[] && uses == map[] && tree == map[] && open == closed == {}
    {
      this.max, this.inactive := max, inactive;
      files, tree, queue, current, uses, open, closed := map[], map[], [], 0, map[], {}, {};
    }

    ghost function Now(): State
      reads this
    {
      State(files, tree, queue, current, open, closed, uses)
    }

    // Nothing leaks, nothing is closed under a request; the cache has no more
    // than max entries if it may have any.
    ghost predicate Valid()
      reads this
    {
      Ok(Now(), {}, {}) && (max > 0 ==> current <= max)
    }

    // ngx_close_file
    method CloseFd(id: nat, ghost out: set<nat>, ghost loose: set<nat>)
      requires Ok(Now(), out, loose) && id in files && files[id].fd.Some? && files[id].count == 0
      modifies `files, `open, `closed
      ensures Ok(Now(), out, loose) && id in old(files) && files == old(files)[id := old(files)[id].(fd := None)]
      ensures open + closed == old(open + closed)
    {
      hide Ok;
      ShutStep(Now(), id, out, loose);
      open, closed := open - {files[id].fd.value}, closed + {files[id].fd.value};
      files := files[id := files[id].(fd := None)];
    }

    // ngx_close_cached_file
    method CloseCached(id: nat, minUses: nat, now: int)
      requires Ok(Now(), {}, {id}) && id in files
      modifies `files, `queue, `open, `closed
      ensures Ok(Now(), {}, {})
      ensures open + closed == old(open + closed) && files.Keys <= old(files.Keys)
      ensures forall i :: i in old(files) && i != id ==> i in files && files[i] == old(files)[i]
      ensures queue == if old(files)[id].close then old(queue) else [id] + Without(old(queue), id)
      ensures var e := old(files)[id];
        if e.close && e.count == 0 then id !in files
        else id in files && files[id] == (if e.close then e else if e.uses >= minUses || e.count > 0 then e.(accessed := now) else e.(accessed := now, fd := None))
    {
      hide Ok;
      if !files[id].close {
        TouchStep(Now(), id, files[id].(accessed := now), {}, {id});
        files := files[id := files[id].(accessed := now)];
        UnqueueStep(Now(), id, {id});
        queue := Without(queue, id);
        QueueStep(Now(), id, {id});
        queue := [id] + queue;
        if files[id].uses >= minUses || files[id].count > 0 {
          StillUsed(Now(), id);
          return;
        }
      }
      if files[id].count > 0 {
        StillUsed(Now(), id);
        return;
      }
      if files[id].fd.Some? {
        CloseFd(id, {}, {id});
      }
      if !files[id].close {
        StillUsed(Now(), id);
        return;
      }
      FreeStep(Now(), id);
      files := files - {id};
    }

    // The entry leaves the tree; it is freed now or when the last request is
    // done with it.
    method Retire(id: nat, now: int)
      requires Ok(Now(), {id}, {}) && id in files
      modifies `files, `tree, `current, `queue, `open, `closed
      ensures Ok(Now(), {}, {}) && current == old(current) - 1
      ensures open + closed == old(open + closed) && files.Keys <= old(files.Keys)
      ensures tree == old(tree) - {old(files)[id].name} && queue == old(queue)
      ensures forall i :: i in old(files) && i != id ==> i in files && files[i] == old(files)[i]
    {
      hide Ok;
      ghost var s := Now();
      DetachStep(s, id);
      tree := tree - {files[id].name};
      current := current - 1;
      if files[id].err == 0 && !files[id].isDir {
        files := files[id := files[id].(close := true)];
        CloseCached(id, 0, now);
      } else {
        NoFd(s, id, {id});
        FreeStep(Detached(s, id), id);
        files := files - {id};
        assert Now() == FileState.Freed(Detached(s, id), id);
      }
    }

    // The last entries of the queue are gone: each was unused for longer than
    // allowed, but for one that goes by force.
    static ghost predicate Gone(s: State, s': State, force: bool, inactive: int, now: int) {
      && |s'.queue| <= |s.queue| && s'.queue == s.queue[..|s'.queue|]
      && (forall k :: |s'.queue| <= k < |s.queue| && !(force && k == |s.queue| - 1) ==> Idle(s, k, inactive, now))
      && (forall k :: 0 <= k < |s'.queue| && s.queue[k] in s.files ==> s.queue[k] in s'.files && s'.files[s.queue[k]] == s.files[s.queue[k]])
      && (forall name :: name in s'.tree ==> name in s.tree && s'.tree[name] == s.tree[name])
    }

    // The entry at place k of the queue was not used for longer than allowed.
    static ghost predicate Idle(s: State, k: nat, inactive: int, now: int) {
      k < |s.queue| && s.queue[k] in s.files && now - s.files[s.queue[k]].accessed > inactive
    }

    // ngx_expire_old_cached_files: with n == 0 the last used entry goes by
    // force, then one or two inactive ones.
    method Expire(n0: nat, now: int)
      requires Ok(Now(), {}, {}) && n0 <= 1
      modifies `files, `tree, `current, `queue, `open, `closed
      ensures Ok(Now(), {}, {}) && current <= old(current)
      ensures n0 == 0 && old(queue) != [] ==> current < old(current)
      ensures open + closed == old(open + closed) && files.Keys <= old(files.Keys) && tree.Keys <= old(tree.Keys)
      ensures Gone(old(Now()), Now(), n0 == 0, inactive, now) && |old(queue)| <= |queue| + 3 - n0
      ensures queue == [] || |old(queue)| == |queue| + 3 - n0 || !Idle(Now(), |queue| - 1, inactive, now)
    {
      hide Ok, Without;
      ghost var s := Now();
      var n := n0;
      while n < 3
        invariant Ok(Now(), {}, {}) && current <= old(current) && n0 <= n <= 3
        invariant n > n0 && n0 == 0 && old(queue) != [] ==> current < old(current)
        invariant n == n0 ==> queue == old(queue)
        invariant Gone(s, Now(), n0 == 0, inactive, now) && |old(queue)| == |queue| + n - n0
        invariant open + closed == old(open + closed) && files.Keys <= old(files.Keys) && tree.Keys <= old(tree.Keys)
      {
        if queue == [] {
          return;
        }
        var id := queue[|queue| - 1];
        InQueue(Now(), |queue| - 1);
        if n != 0 && now - files[id].accessed <= inactive {
          return;
        }
        ghost var s1 := Now();
        n := n + 1;
        UnqueueStep(Now(), id, {});
        LastOut(s1);
        queue := Without(queue, id);
        Retire(id, now);
        OneGone(s, s1, Now(), n0 == 0, inactive, now);
      }
    }

    static lemma LastOut(s: State)
      requires Ok(s, {}, {}) && s.queue != []
      ensures NoDup(s.queue) && Without(s.queue, s.queue[|s.queue| - 1]) == s.queue[..|s.queue| - 1]
    {
      WithoutLast(s.queue);
    }

    static lemma OneGone(s: State, s1: State, s2: State, force: bool, inactive: int, now: int)
      requires Gone(s, s1, force, inactive, now) && s1.queue != [] && NoDup(s1.queue) && s1.queue[|s1.queue| - 1] in s1.files
      requires (force && |s1.queue| == |s.queue|) || Idle(s1, |s1.queue| - 1, inactive, now)
      requires s2.queue == s1.queue[..|s1.queue| - 1] && s2.tree == s1.tree - {s1.files[s1.queue[|s1.queue| - 1]].name}
      requires forall i :: i in s1.files && i != s1.queue[|s1.queue| - 1] ==> i in s2.files && s2.files[i] == s1.files[i]
      requires s.queue[|s1.queue| - 1] in s.files
      ensures Gone(s, s2, force, inactive, now)
    {
      var m := |s1.queue| - 1;
      assert s1.queue[m] == s.queue[m];
      forall k | 0 <= k < m && s.queue[k] in s.files ensures s.queue[k] in s2.files && s2.files[s.queue[k]] == s.files[s.queue[k]] {
        assert s1.queue[k] == s.queue[k];
      }
    }

    // A request is done with its file.
    method Cleanup(h: nat, minUses: nat, now: int)
      requires Valid() && h in uses
      modifies this
      ensures Valid() && uses == old(uses) - {h}
    {
      hide Ok;
      ReleaseStep(Now(), h);
      var id := uses[h].file;
      files := files[id := files[id].(count := files[id].count - 1)];
      uses := uses - {h};
      CloseCached(id, minUses, now);
      Expire(1, now);
    }

    // failed: the entry goes, at once if nobody uses it.
    method Discard(id: nat)
      requires Ok(Now(), {id}, {}) && id in files
      modifies `files, `tree, `current, `open, `closed
      ensures Ok(Now(), {}, {}) && current == old(current) - 1
      ensures tree == old(tree) - {old(files)[id].name}
    {
      hide Ok;
      ghost var s := Now();
      DetachStep(s, id);
      tree := tree - {files[id].name};
      current := current - 1;
      if files[id].count == 0 {
        if files[id].fd.Some? {
          ShutStep(Detached(s, id), id, {}, {id});
          open, closed := open - {files[id].fd.value}, closed + {files[id].fd.value};
          FreeStep(Shut(Detached(s, id), id), id);
          files := files - {id};
          assert Now() == Freed(Shut(Detached(s, id), id), id);
        } else {
          FreeStep(Detached(s, id), id);
          files := files - {id};
          assert Now() == Freed(Detached(s, id), id);
        }
      } else {
        files := files[id := files[id].(close := true)];
        StillUsed(Now(), id);
      }
    }

    // The entry as the file system says it is.
    static function Updated(e: Entry, found: Found, now: int): Entry {
      var e1 := e.(fd := found.fd, err := found.err, created := now, accessed := now);
      if found.err == 0 then e1.(uniq := found.uniq, close := false, isDir := found.isDir) else e1
    }

    // update: and found: with what was found.
    method Update(id: nat, found: Found, now: int, h: nat) returns (r: Answer)
      requires id in files && (found.err == 0 && !found.isDir ==> found.fd.Some?)
      modifies `files, `queue, `uses
      ensures queue == [id] + old(queue)
      ensures r == if found.err != 0 then Error(found.err) else if found.isDir then Directory else Descriptor(found.fd.value)
      ensures files == old(files)[id := Updated(old(files)[id], found, now)
                .(count := if r.Descriptor? then (old(files)[id].count + 1) % CountRange else old(files)[id].count)]
      ensures uses == if r.Descriptor? then old(uses)[h := Use(id, r.fd)] else old(uses)
    {
      files := files[id := files[id].(fd := found.fd, err := found.err)];
      if found.err == 0 {
        files := files[id := files[id].(uniq := found.uniq, close := false, isDir := found.isDir)];
        if !found.isDir {
          files := files[id := files[id].(count := (files[id].count + 1) % CountRange)];
        }
      }
      files := files[id := files[id].(created := now, accessed := now)];
      queue := [id] + queue;
      if found.err == 0 {
        if !found.isDir {
          uses := uses[h := Use(id, found.fd.value)];
          return Descriptor(found.fd.value);
        }
        return Directory;
      }
      return Error(found.err);
    }

    // What Update makes of a state.
    static function After(s: State, id: nat, found: Found, now: int, h: nat): State
      requires id in s.files && (found.err == 0 && !found.isDir ==> found.fd.Some?)
    {
      var s1 := Restated(s, id, Updated(s.files[id], found, now));
      Queued(if found.err == 0 && !found.isDir then Held(s1, h, id) else s1, id)
    }

    static lemma UpdatedTells(e: Entry, found: Found, now: int)
      ensures var e1 := Updated(e, found, now);
        && e1.fd == found.fd && e1.err == found.err && e1.created == e1.accessed == now && e1.name == e.name && e1.count == e.count
        && (found.err == 0 ==> e1.uniq == found.uniq && e1.isDir == found.isDir)
    {
    }

    static lemma AfterIs(s: State, id: nat, found: Found, now: int, h: nat)
      requires id in s.files && (found.err == 0 && !found.isDir ==> found.fd.Some?) && s.files[id].count + 1 < CountRange
      ensures var e, held := Updated(s.files[id], found, now), found.err == 0 && !found.isDir;
        After(s, id, found, now, h) == State(
          s.files[id := e.(count := if held then (s.files[id].count + 1) % CountRange else s.files[id].count)], s.tree, [id] + s.queue, s.current,
          s.open + (if found.fd.Some? then {found.fd.value} else {}), s.closed,
          if held then s.uses[h := Use(id, found.fd.value)] else s.uses)
    {
      var e := Updated(s.files[id], found, now);
      assert e.fd == found.fd;
      assert s.files[id := e][id := e.(count := e.count + 1)] == s.files[id := e.(count := e.count + 1)];
      assert s.files[id := e] == s.files[id := e.(count := e.count)];
    }

    // The new descriptor, or none, goes to an entry without one; or the entry
    // keeps its own.
    static lemma UpdateStep(s: State, id: nat, found: Found, now: int, h: nat)
      requires Ok(s, {id}, {}) && id in s.files && h !in s.uses && |s.uses| + 1 < CountRange
      requires if found.err == 0 && !found.isDir then found.fd.Some? else found.fd.None?
      requires if s.files[id].fd.None? then found.fd.Some? ==> found.fd.value !in s.open + s.closed else found.fd == s.files[id].fd
      ensures Ok(After(s, id, found, now, h), {}, {}) && s.files[id].count + 1 < CountRange
    {
      hide Ok;
      InTree(s, id);
      CountBound(s, id, {id});
      var e := s.files[id];
      var e1 := Updated(e, found, now);
      if e.fd.None? {
        RestateStep(s, id, e1, {id});
      } else {
        KeptEntry(s, id);
        TouchStep(s, id, e1, {id}, {});
        assert Restated(s, id, e1) == s.(files := s.files[id := e1]);
      }
      var s1 := Restated(s, id, e1);
      if found.err == 0 && !found.isDir {
        HoldStep(s1, h, id, {id});
        QueueStep(Held(s1, h, id), id, {});
      } else {
        QueueStep(s1, id, {});
      }
    }

    method UpdateIn(id: nat, found: Found, now: int, h: nat) returns (r: Answer)
      requires Ok(Now(), {id}, {}) && id in files && h !in uses && |uses| + 1 < CountRange
      requires if found.err == 0 && !found.isDir then found.fd.Some? else found.fd.None?
      requires if files[id].fd.None? then found.fd.Some? ==> found.fd.value !in open + closed else found.fd == files[id].fd
      modifies `files, `queue, `uses, `open
      ensures Ok(Now(), {}, {}) && files.Keys == old(files.Keys) && open == old(open) + if found.fd.Some? then {found.fd.value} else {}
      ensures files[id].fd == found.fd && files[id].created == files[id].accessed == now && (found.err == 0 ==> files[id].uniq == found.uniq)
      ensures files[id].err == found.err && (found.err == 0 ==> files[id].isDir == found.isDir)
      ensures uses == if r.Descriptor? then old(uses)[h := Use(id, r.fd)] else old(uses)
      ensures r == if found.err != 0 then Error(found.err) else if found.isDir then Directory else Descriptor(found.fd.value)
    {
      hide Ok, After, Updated;
      ghost var s := Now();
      UpdateStep(s, id, found, now, h);
      AfterIs(s, id, found, now, h);
      open := open + if found.fd.Some? then {found.fd.value} else {};
      r := Update(id, found, now, h);
      assert Now() == After(s, id, found, now, h);
      UpdatedTells(s.files[id], found, now);
    }

    // create: a new entry, for which an old one may have to go.
    method Create(name: string, found: Found, now: int, h: nat, newId: nat) returns (r: Answer)
      requires found.isDir ==> found.err == 0
      requires Ok(Now(), {}, {}) && name !in tree && newId !in files && h !in uses && |uses| + 1 < CountRange
      requires if found.err == 0 && !found.isDir then found.fd.Some? else found.fd.None? || found.isDir
      requires found.fd.Some? && !found.isDir ==> found.fd.value !in open + closed
      requires max > 0 ==> current <= max
      modifies this
      ensures Valid() <==> !(found.isDir && found.fd.Some?)
      ensures uses == if r.Descriptor? then old(uses)[h := Use(newId, r.fd)] else old(uses)
      ensures r == if found.err != 0 then Error(found.err) else if found.isDir then Directory else Descriptor(found.fd.value)
      ensures name in tree && tree[name] in files && files[tree[name]].fd == found.fd && files[tree[name]].created == files[tree[name]].accessed == now
      ensures found.err == 0 ==> files[tree[name]].uniq == found.uniq && files[tree[name]].isDir == found.isDir
      ensures files[tree[name]].err == found.err
      ensures files.Keys <= old(files.Keys) + {newId}
      ensures open + closed <= old(open + closed) + if found.fd.Some? then {found.fd.value} else {}
    {
      hide Ok, EntryOk;
      Enroll(name, now, newId);
      if found.isDir && found.fd.Some? {
        r := UpdateClosed(newId, found, now, h);
      } else {
        r := UpdateIn(newId, found, now, h);
      }
    }

    // A new entry under the name, for which an old one may have to go.
    method Enroll(name: string, now: int, newId: nat)
      requires Ok(Now(), {}, {}) && name !in tree && newId !in files && (max > 0 ==> current <= max)
      modifies `files, `tree, `current, `queue, `open, `closed
      ensures Ok(Now(), {newId}, {}) && (max > 0 ==> current <= max)
      ensures newId in files && files[newId] == Entry(name, None, 0, 0, false, false, 0, 1, 0, 0) && name in tree && tree[name] == newId
      ensures files.Keys <= old(files.Keys) + {newId} && open + closed == old(open + closed)
    {
      hide Ok;
      QueueSize(Now());
      if current >= max {
        Expire(0, now);
      }
      CreateStep(Now(), newId, name);
      files := files[newId := Entry(name, None, 0, 0, false, false, 0, 1, 0, 0)];
      tree := tree[name := newId];
      current := current + 1;
    }

    // A directory's entry with a descriptor.
    method UpdateClosed(id: nat, found: Found, now: int, h: nat) returns (r: Answer)
      requires id in files && found.err == 0 && found.isDir && found.fd.Some?
      modifies `files, `queue, `uses
      ensures !Ok(Now(), {}, {}) && uses == old(uses) && r == Directory
      ensures id in old(files) && files == old(files)[id := Updated(old(files)[id], found, now)]
    {
      r := Update(id, found, now, h);
      assert !EntryOk(Now(), id, files[id], {});
    }

    // found: the entry is still valid.
    method Hit(id: nat, now: int, h: nat) returns (r: Answer)
      requires Ok(Now(), {id}, {}) && id in files && h !in uses && |uses| + 1 < CountRange
      requires files[id].fd.Some? || files[id].err != 0 || files[id].isDir
      modifies `files, `queue, `uses
      ensures Ok(Now(), {}, {}) && files.Keys == old(files.Keys) && files[id].created == old(files)[id].created && files[id].accessed == now && queue == [id] + old(queue)
      ensures uses == if r.Descriptor? then old(uses)[h := Use(id, r.fd)] else old(uses)
      ensures r == if old(files)[id].err != 0 then Error(old(files)[id].err) else if old(files)[id].isDir then Directory
                   else Descriptor(old(files)[id].fd.value)
    {
      hide Ok;
      CountBound(Now(), id, {id});
      var e := files[id];
      TouchStep(Now(), id, e.(accessed := now), {id}, {});
      ghost var s := Now().(files := files[id := e.(accessed := now)]);
      if e.err == 0 && !e.isDir {
        HoldStep(s, h, id, {id});
        QueueStep(Held(s, h, id), id, {});
        files := files[id := e.(count := (e.count + 1) % CountRange, accessed := now)];
        queue := [id] + queue;
        uses := uses[h := Use(id, e.fd.value)];
        assert Now() == Queued(Held(s, h, id), id);
        return Descriptor(e.fd.value);
      }
      QueueStep(s, id, {});
      files := files[id := e.(accessed := now)];
      queue := [id] + queue;
      r := if e.err == 0 then Directory else Error(e.err);
    }

    // The name leads to the entry's file when it is looked at, yet another
    // open of it would give the same file: it was away in between.
    static predicate Raced(e: Entry, disk: Disk) {
      && e.fd.Some? && !disk.stat.Fails? && disk.stat.uniq != e.uniq && disk.byOpen == IsFile(e.uniq)
    }

    // The number of the entry's file has become a directory's, as when a file
    // system is mounted over the name: numbers are told apart by inode alone.
    static predicate Crossed(e: Entry, disk: Disk) {
      e.fd.Some? && disk.stat == IsDir(e.uniq)
    }

    static predicate Breaks(e: Entry, disk: Disk) { Raced(e, disk) || Crossed(e, disk) }

    static predicate Fresh(e: Entry, valid: int, wanted: nat, now: int) {
      (wanted == 0 || wanted == e.uniq) && now - e.created < valid
    }

    // The entry of the name is the answer, as of now.
    ghost predicate Remembers(name: string, r: Answer, now: int)
      reads this
    {
      && name in tree && tree[name] in files
      && var e := files[tree[name]];
      && e.created == e.accessed == now
      && match r
         case Descriptor(fd) => e.fd == Some(fd) && e.err == 0 && !e.isDir
         case Directory => e.isDir && e.err == 0
         case Error(err) => e.err == err
    }

    // What stays of an answer that the file system gave.
    ghost predicate Noted(name: string, r: Answer, errors: bool, now: int)
      reads this
    {
      if r.Error? && (r.err == 0 || !errors) then name !in tree else Remembers(name, r, now)
    }

    // The entry may be out of date: the name is looked at again.
    method Retest(name: string, id: nat, testDir: bool, errors: bool, now: int, disk: Disk, h: nat, newId: nat) returns (r: Answer)
      requires Ok(Now(), {id}, {}) && (max > 0 ==> current <= max) && id in files && files[id].name == name
      requires h !in uses && newId !in files && |uses| + 1 < CountRange && disk.fd !in open + closed
      requires files[id].fd.Some? || files[id].err != 0 || files[id].isDir
      modifies this
      ensures Valid() <==> !Breaks(old(files)[id], disk)
      ensures r == AnswerTo(Look(old(files)[id].fd, old(files)[id].uniq, testDir || old(files)[id].isDir, disk))
      ensures Noted(name, r, errors, now)
      ensures if r.Descriptor? then h in uses && uses[h].fd == r.fd && uses == old(uses)[h := uses[h]] else uses == old(uses)
    {
      hide Ok, Look, Breaks;
      var e := files[id];
      var found := OpenAndStat(e.fd, e.uniq, testDir || e.isDir, disk);
      if e.fd.Some? { KeptEntry(Now(), id); }
      LookCases(e, testDir || e.isDir, disk);
      if !found.ok && (found.err == 0 || !errors) {
        Discard(id);
        return Error(found.err);
      }
      r := Settle(name, id, testDir, found, now, disk, h, newId);
    }

    // What a look at the name of an entry may find.
    static lemma LookCases(e: Entry, testDir: bool, disk: Disk)
      requires e.fd != Some(disk.fd)
      ensures var f := Look(e.fd, e.uniq, testDir, disk);
        && (!f.ok ==> !Breaks(e, disk) && f.fd.None? && !f.isDir)
        && (f.ok ==> f.err == 0 && (f.isDir || f.fd.Some?))
        && (f.isDir && f.fd.Some? <==> Crossed(e, disk))
        && (f.fd.Some? && f.fd != e.fd ==> f == Found(true, Some(disk.fd), f.uniq, 0, false))
        && (e.fd.Some? && f.fd == e.fd ==> f.uniq == e.uniq && f.ok && !Raced(e, disk))
        && (e.fd.None? ==> !Breaks(e, disk))
        && (e.fd.Some? && f.fd.Some? && f.fd != e.fd && f.uniq == e.uniq ==> Raced(e, disk))
        && (Raced(e, disk) ==> f == Found(true, Some(disk.fd), e.uniq, 0, false) && !Crossed(e, disk))
        && (Breaks(e, disk) <==> Raced(e, disk) || Crossed(e, disk))
    {
    }

    // Whether what was found is the entry's own file, or the entry had none.
    static predicate Same(e: Entry, found: Found) {
      if found.isDir then e.isDir || e.err != 0
      else if found.err == 0 then e.isDir || e.err != 0 || found.uniq == e.uniq
      else e.err != 0 || e.isDir
    }

    method Settle(name: string, id: nat, testDir: bool, found: Found, now: int, disk: Disk, h: nat, newId: nat) returns (r: Answer)
      requires Ok(Now(), {id}, {}) && (max > 0 ==> current <= max) && id in files && files[id].name == name
      requires h !in uses && newId !in files && |uses| + 1 < CountRange && disk.fd !in open + closed
      requires found == Look(files[id].fd, files[id].uniq, testDir || files[id].isDir, disk) && (found.ok || found.err != 0)
      requires files[id].fd.Some? || files[id].err != 0 || files[id].isDir
      modifies this
      ensures Valid() <==> !Breaks(old(files)[id], disk)
      ensures r == AnswerTo(Look(old(files)[id].fd, old(files)[id].uniq, testDir || old(files)[id].isDir, disk))
      ensures Remembers(name, r, now)
      ensures if r.Descriptor? then h in uses && uses[h].fd == r.fd && uses == old(uses)[h := uses[h]] else uses == old(uses)
    {
      hide Ok, Look, Breaks;
      var e := files[id];
      InTree(Now(), id);
      if e.fd.Some? { KeptEntry(Now(), id); }
      LookCases(e, testDir || e.isDir, disk);
      if Same(e, found) {
        if e.fd.Some? && found.fd != e.fd {
          r := UpdateLosing(id, found, now, h, disk);
        } else {
          r := UpdateIn(id, found, now, h);
        }
        return;
      }
      r := Replace(name, id, found, now, h, newId);
    }

    // The file changed: the entry is reused if nobody holds it, else a new one
    // takes its name. A descriptor that came with a directory is the entry's
    // own, closed by then or shared.
    method Replace(name: string, id: nat, found: Found, now: int, h: nat, newId: nat) returns (r: Answer)
      requires Ok(Now(), {id}, {}) && (max > 0 ==> current <= max) && id in files && files[id].name == name && files[id].fd.Some?
      requires h !in uses && newId !in files && |uses| + 1 < CountRange
      requires if found.err == 0 && !found.isDir then found.fd.Some? else found.fd.None? || found.isDir
      requires found.fd.Some? && !found.isDir ==> found.fd.value !in open + closed
      requires found.isDir ==> found.err == 0
      modifies this
      ensures Valid() <==> !(found.isDir && found.fd.Some?)
      ensures Remembers(name, r, now)
      ensures r == if found.err != 0 then Error(found.err) else if found.isDir then Directory else Descriptor(found.fd.value)
      ensures if r.Descriptor? then h in uses && uses[h].fd == r.fd && uses == old(uses)[h := uses[h]] else uses == old(uses)
    {
      hide Ok;
      InTree(Now(), id);
      if files[id].count == 0 {
        CloseFd(id, {id}, {});
        if found.isDir && found.fd.Some? {
          r := UpdateClosed(id, found, now, h);
        } else {
          r := UpdateIn(id, found, now, h);
        }
        return;
      }
      Detach(id);
      r := Create(name, found, now, h, newId);
    }

    // An entry in use leaves the tree.
    method Detach(id: nat)
      requires Ok(Now(), {id}, {}) && id in files && files[id].count > 0
      modifies `files, `tree, `current
      ensures Ok(Now(), {}, {}) && current == old(current) - 1
      ensures files.Keys == old(files.Keys) && tree == old(tree) - {old(files)[id].name}
    {
      hide Ok;
      ghost var s := Now();
      DetachStep(s, id);
      StillUsed(Detached(s, id), id);
      tree := tree - {files[id].name};
      current := current - 1;
      files := files[id := files[id].(close := true)];
      assert Now() == Detached(s, id);
    }

    // The entry's descriptor is overwritten and lost.
    method UpdateLosing(id: nat, found: Found, now: int, h: nat, ghost disk: Disk) returns (r: Answer)
      requires Ok(Now(), {id}, {}) && id in files && h !in uses
      requires files[id].fd.Some? && found == Found(true, Some(disk.fd), files[id].uniq, 0, false) && disk.fd !in open + closed
      modifies `files, `queue, `uses, `open
      ensures !Ok(Now(), {}, {})
      ensures r == Descriptor(disk.fd) && uses == old(uses)[h := Use(id, disk.fd)] && Remembers(old(files)[id].name, r, now)
    {
      ghost var d := files[id].fd.value;
      OnlyOwner(Now(), id, d);
      open := open + {disk.fd};
      r := Update(id, found, now, h);
      Lost(Now(), d);
    }

    // Whether this open will break the cache: the entry is tested again, and the
    // name does not lead to the entry's file, or leads to a directory with its
    // number, in one of the two ways above.
    ghost predicate WillBreak(name: string, valid: int, wanted: nat, now: int, disk: Disk)
      requires Valid()
      reads this
    {
      name in tree && (FoundEntry(Now(), name);
                       !Fresh(files[tree[name]], valid, wanted, now) && Breaks(files[tree[name]], disk))
    }

    // What the entry itself says.
    static function Told(e: Entry): Answer {
      if e.err != 0 then Error(e.err) else if e.isDir then Directory else if e.fd.Some? then Descriptor(e.fd.value) else Error(0)
    }

    // Whether the cache answers without a look at the file system.
    ghost predicate Known(name: string, valid: int, wanted: nat, now: int)
      reads this
    {
      name in tree && tree[name] in files && !Shelved(files[tree[name]]) && Fresh(files[tree[name]], valid, wanted, now)
    }

    // An old descriptor is the answer only if its entry is young enough and has
    // the number wanted, if any, or if the name still has the entry's number.
    static ghost predicate KeptInTime(s: State, name: string, valid: int, wanted: nat, now: int, disk: Disk, r: Answer) {
      name in s.tree && s.tree[name] in s.files ==>
        var e := s.files[s.tree[name]];
        e.fd.Some? && r == Descriptor(e.fd.value) ==>
          (now - e.created < valid && (wanted == 0 || wanted == e.uniq)) || disk.stat == IsFile(e.uniq)
    }

    // An entry that is young enough and has the number wanted is the answer; it
    // gets no younger, and is now the last that was used.
    static ghost predicate ServedInTime(s: State, s': State, name: string, valid: int, wanted: nat, now: int, r: Answer) {
      name in s.tree && s.tree[name] in s.files ==>
        var id, e := s.tree[name], s.files[s.tree[name]];
        now - e.created < valid && (wanted == 0 || wanted == e.uniq) && (e.fd.Some? || e.err != 0 || e.isDir) ==>
          && (e.fd.Some? ==> r == Descriptor(e.fd.value)) && (e.err != 0 ==> r == Error(e.err)) && (e.err == 0 && e.isDir ==> r == Directory)
          && s'.tree == s.tree && id in s'.files && s'.files[id].created == e.created && s'.files[id].accessed == now && s'.queue == [id] + Without(s.queue, id)
    }

    static predicate Shelved(e: Entry) { e.fd.None? && e.err == 0 && !e.isDir }

    // The answer: what the entry says while it is fresh, and what the file system
    // says else.
    ghost function Reply(name: string, valid: int, wanted: nat, testDir: bool, now: int, disk: Disk): Answer
      requires Valid()
      reads this
    {
      if name !in tree then AnswerTo(Look(None, 0, testDir, disk))
      else
        FoundEntry(Now(), name);
        var e := files[tree[name]];
        if Shelved(e) then AnswerTo(Look(None, 0, testDir, disk))
        else if Fresh(e, valid, wanted, now) then Told(e)
        else AnswerTo(Look(e.fd, e.uniq, testDir || e.isDir, disk))
    }

    // ngx_open_cached_file. Requests' descriptors stay as they are; a new
    // descriptor is registered with the request; and all stays in order except
    // exactly in the two cases above.
    method OpenCached(name: string, valid: int, wanted: nat, testDir: bool, errors: bool, now: int, disk: Disk, h: nat, newId: nat) returns (r: Answer)
      requires Valid() && h !in uses && newId !in files && |uses| + 1 < CountRange && disk.fd !in open + closed
      modifies this
      ensures Valid() <==> !old(WillBreak(name, valid, wanted, now, disk))
      ensures r == old(Reply(name, valid, wanted, testDir, now, disk))
      ensures KeptInTime(old(Now()), name, valid, wanted, now, disk, r) && ServedInTime(old(Now()), Now(), name, valid, wanted, now, r)
      ensures !old(Known(name, valid, wanted, now)) ==> Noted(name, r, errors, now)
      ensures if r.Descriptor? then h in uses && uses[h].fd == r.fd && uses == old(uses)[h := uses[h]] else uses == old(uses)
      ensures old(name !in tree) && r.Descriptor? ==> name in tree && tree[name] in files && files[tree[name]].fd == Some(r.fd)
      ensures old(name !in tree) && r.Descriptor? ==> disk.byOpen == IsFile(files[tree[name]].uniq) && files[tree[name]].created == now
      ensures old(name !in tree) ==> files.Keys <= old(files.Keys) + {newId} && open + closed <= old(open + closed) + {disk.fd}
    {
      hide Ok, Breaks, Look, KeptInTime, ServedInTime;
      if name !in tree {
        var found := OpenAndStat(None, 0, testDir, disk);
        NewCases(testDir, disk);
        NewInTime(Now(), name);
        if !found.ok && (found.err == 0 || !errors) {
          return Error(found.err);
        }
        r := Create(name, found, now, h, newId);
        return;
      }
      r := OpenKnown(name, valid, wanted, testDir, errors, now, disk, h, newId);
    }

    // The name has an entry.
    method OpenKnown(name: string, valid: int, wanted: nat, testDir: bool, errors: bool, now: int, disk: Disk, h: nat, newId: nat) returns (r: Answer)
      requires Valid() && name in tree && h !in uses && newId !in files && |uses| + 1 < CountRange && disk.fd !in open + closed
      modifies this
      ensures Valid() <==> !old(WillBreak(name, valid, wanted, now, disk))
      ensures r == old(Reply(name, valid, wanted, testDir, now, disk))
      ensures KeptInTime(old(Now()), name, valid, wanted, now, disk, r) && ServedInTime(old(Now()), Now(), name, valid, wanted, now, r)
      ensures !old(Known(name, valid, wanted, now)) ==> Noted(name, r, errors, now)
      ensures if r.Descriptor? then h in uses && uses[h].fd == r.fd && uses == old(uses)[h := uses[h]] else uses == old(uses)
    {
      hide Ok, Breaks, Look, AnswerTo, Noted;
      FoundEntry(Now(), name);
      var id := tree[name];
      OpenEntry(Now(), id);
      KeptTells(files[id], testDir || files[id].isDir, disk);
      OnceMore(files[id], (files[id].uses + 1) % UsesRange, disk);
      Touch(id);
      if files[id].fd.None? && files[id].err == 0 && !files[id].isDir {
        r := Reopen(id, testDir, errors, now, disk, h);
      } else if Fresh(files[id], valid, wanted, now) {
        r := Hit(id, now, h);
      } else {
        r := Retest(name, id, testDir, errors, now, disk, h, newId);
      }
    }

    static lemma NewInTime(s: State, name: string)
      requires name !in s.tree
      ensures forall valid, wanted, now, disk, r :: KeptInTime(s, name, valid, wanted, now, disk, r)
      ensures forall s', valid, wanted, now, r :: ServedInTime(s, s', name, valid, wanted, now, r)
    {
    }

    static lemma KeptTells(e: Entry, testDir: bool, disk: Disk)
      requires e.fd != Some(disk.fd)
      ensures e.fd.Some? && AnswerTo(Look(e.fd, e.uniq, testDir, disk)) == Descriptor(e.fd.value) ==> disk.stat == IsFile(e.uniq)
    {
      LookTells(e.fd, e.uniq, testDir, disk);
    }

    static lemma OnceMore(e: Entry, uses: nat, disk: Disk)
      ensures Breaks(e.(uses := uses), disk) == Breaks(e, disk)
      ensures e.fd.None? ==> !Breaks(e, disk)
    {
    }

    static lemma NewCases(testDir: bool, disk: Disk)
      ensures var f := Look(None, 0, testDir, disk);
        && (if f.ok then f.err == 0 && (f.isDir <==> f.fd.None?) else f.fd.None? && !f.isDir)
        && (f.fd.Some? ==> f.fd.value == disk.fd && disk.byOpen == IsFile(f.uniq))
    {
    }

    // The entry is used once more, and out of the queue for now.
    method Touch(id: nat)
      requires Ok(Now(), {}, {}) && id in files && !files[id].close
      modifies `files, `queue
      ensures Ok(Now(), {id}, {}) && files == old(files)[id := old(files)[id].(uses := (old(files)[id].uses + 1) % UsesRange)]
      ensures queue == Without(old(queue), id)
    {
      hide Ok;
      TouchStep(Now(), id, files[id].(uses := (files[id].uses + 1) % UsesRange), {}, {});
      files := files[id := files[id].(uses := (files[id].uses + 1) % UsesRange)];
      UnqueueStep(Now(), id, {});
      queue := Without(queue, id);
    }

    // The entry's file had been closed, as it was not used often.
    method Reopen(id: nat, testDir: bool, errors: bool, now: int, disk: Disk, h: nat) returns (r: Answer)
      requires Ok(Now(), {id}, {}) && (max > 0 ==> current <= max) && id in files && files[id].fd.None?
      requires h !in uses && |uses| + 1 < CountRange && disk.fd !in open + closed
      modifies `files, `queue, `uses, `open, `closed, `tree, `current
      ensures Valid() && r == AnswerTo(Look(None, 0, testDir, disk)) && Noted(old(files)[id].name, r, errors, now)
      ensures if r.Descriptor? then h in uses && uses[h].fd == r.fd && uses == old(uses)[h := uses[h]] else uses == old(uses)
    {
      hide Ok, Look;
      var found := OpenAndStat(None, 0, testDir, disk);
      NewCases(testDir, disk);
      InTree(Now(), id);
      if !found.ok && (found.err == 0 || !errors) {
        Discard(id);
        return Error(found.err);
      }
      r := UpdateIn(id, found, now, h);
    }
  }

  // A cache with one file, number 7, opened at time 0 as descriptor 3.
  method OneFile() returns (cache: FileCache)
    ensures fresh(cache) && cache.Valid() && cache.uses.Keys == {0} && |cache.uses| == 1 && cache.files.Keys <= {0} && cache.open + cache.closed <= {3}
    ensures "a" in cache.tree && cache.tree["a"] in cache.files
    ensures var e := cache.files[cache.tree["a"]]; e.fd == Some(3) && e.uniq == 7 && e.created == 0
  {
    hide Ok, FileCache.KeptInTime, FileCache.ServedInTime, FileCache.Noted, FileCache.Known;
    cache := new FileCache(1, 60);
    var r := cache.OpenCached("a", 60, 0, false, false, 0, Disk(IsFile(7), IsFile(7), 3), 0, 0);
  }

  // A run that loses a descriptor: a file is gone when its name is looked at,
  // and back when it is opened.
  method LoseDescriptor() returns (cache: FileCache)
    ensures fresh(cache) && !cache.Valid()
  {
    hide Ok, Look, AnswerTo, FileCache.Reply, FileCache.KeptInTime, FileCache.ServedInTime, FileCache.Noted, FileCache.Known;
    cache := OneFile();
    var r := cache.OpenCached("a", 60, 0, false, false, 100, Disk(IsFile(8), IsFile(7), 4), 1, 1);
  }

  // A run that shares one: a file system with a directory of the same number is
  // mounted over the name.
  method ShareDescriptor() returns (cache: FileCache)
    ensures fresh(cache) && !cache.Valid()
  {
    hide Ok, Look, AnswerTo, FileCache.Reply, FileCache.KeptInTime, FileCache.ServedInTime, FileCache.Noted, FileCache.Known;
    cache := OneFile();
    var r := cache.OpenCached("a", 60, 0, false, false, 100, Disk(IsDir(7), IsFile(8), 4), 1, 1);
  }
}
