/** The data of ngx_open_file_cache.c: cached entries, the tree, the expire queue, the open
    descriptors and the request cleanups that are still to run, and what holds between operations. */
module CacheState {
  const INVALID := -1

  // What stat() tells of a file: its inode, whether it is a directory, and the rest.
  datatype Info = Info(uniq: int, isDir: bool, rest: int)

  // ngx_cached_open_file_t without vnode events; symlinks stands for the two disable_symlinks fields.
  datatype File = File(
    name: string, created: int, accessed: int, fd: int, uniq: int, rest: int, err: int,
    uses: nat, symlinks: int, count: nat, close: bool, isDir: bool)

  // A request's pending ngx_open_file_cleanup: the entry, and the descriptor that the request uses.
  datatype Handle = Handle(file: nat, fd: int, minUses: nat)

  type Files = map<nat, File>
  type Handles = map<nat, Handle>

  // ---------- the expire queue ----------

  predicate NoDup(q: seq<nat>) {
    forall i, j :: 0 <= i < j < |q| ==> q[i] != q[j]
  }

  // ngx_queue_remove
  function Remove(q: seq<nat>, id: nat): seq<nat> {
    if q == [] then [] else if q[0] == id then q[1..] else [q[0]] + Remove(q[1..], id)
  }

  lemma {:induction false} RemoveFacts(q: seq<nat>, id: nat)
    requires NoDup(q)
    ensures NoDup(Remove(q, id)) && (forall x :: x in Remove(q, id) <==> x in q && x != id)
    ensures |Remove(q, id)| == |q| - if id in q then 1 else 0
  {
    if q != [] && q[0] != id {
      var r := Remove(q[1..], id);
      RemoveFacts(q[1..], id);
      assert q == [q[0]] + q[1..];
      assert q[0] !in q[1..];
      assert forall x :: x in [q[0]] + r <==> x == q[0] || x in r;
    } else if q != [] {
      assert q == [q[0]] + q[1..];
    }
  }

  lemma {:induction false} RemoveLast(q: seq<nat>)
    requires NoDup(q) && q != []
    ensures Remove(q, q[|q| - 1]) == q[..|q| - 1]
  {
    if |q| > 1 {
      assert q[0] != q[|q| - 1];
      RemoveLast(q[1..]);
      assert q[1..][|q| - 2] == q[|q| - 1];
    }
  }

  // The last access times do not grow along the queue.
  ghost predicate Ordered(files: Files, q: seq<nat>) {
    && (forall x :: x in q ==> x in files)
    && forall i, j :: 0 <= i < j < |q| ==> files[q[i]].accessed >= files[q[j]].accessed
  }

  lemma {:induction false} RemoveOrdered(files: Files, q: seq<nat>, id: nat)
    requires Ordered(files, q) && NoDup(q)
    ensures Ordered(files, Remove(q, id))
  {
    if q != [] && q[0] != id {
      assert q == [q[0]] + q[1..];
      assert Ordered(files, q[1..]) by {
        forall i, j | 0 <= i < j < |q[1..]|
          ensures files[q[1..][i]].accessed >= files[q[1..][j]].accessed
        {
          assert q[1..][i] == q[i + 1] && q[1..][j] == q[j + 1];
        }
      }
      RemoveOrdered(files, q[1..], id);
      RemoveFacts(q[1..], id);
      PrependOrdered(files, q, Remove(q[1..], id));
    }
  }

  lemma PrependOrdered(files: Files, q: seq<nat>, r: seq<nat>)
    requires Ordered(files, q) && q != [] && Ordered(files, r) && forall x :: x in r ==> x in q[1..]
    ensures Ordered(files, [q[0]] + r)
  {
    forall j | 0 <= j < |r|
      ensures files[q[0]].accessed >= files[r[j]].accessed
    {
      assert r[j] in q[1..];
      var k :| 0 <= k < |q[1..]| && q[1..][k] == r[j];
      assert q[k + 1] == r[j];
    }
  }

  lemma PushOrdered(files: Files, q: seq<nat>, id: nat, now: int)
    requires Ordered(files, q) && id in files && files[id].accessed == now
    requires forall x :: x in q ==> files[x].accessed <= now
    ensures Ordered(files, [id] + q)
  {}

  // ---------- what holds between operations ----------

  // open: the descriptors that the operating system holds open for the cache; loose: those of
  // them that no entry owns; clock: the time of the last operation.
  datatype Cache = Cache(
    files: Files, tree: map<string, nat>, queue: seq<nat>, current: int, max: nat,
    open: set<int>, loose: set<int>, handles: Handles, clock: int)

  // The tree, the queue and `current` are about the same entries.
  ghost predicate QueueOk(c: Cache) {
    && NoDup(c.queue) && c.current == |c.queue| <= c.max
    && (forall x :: x in c.queue ==> x in c.files && c.files[x].name in c.tree && c.tree[c.files[x].name] == x)
    && (forall n :: n in c.tree ==> c.tree[n] in c.queue && c.files[c.tree[n]].name == n)
  }

  // Only entries for plain files have users and descriptors.
  predicate PlainOk(f: File) {
    && (f.err != 0 || f.isDir ==> f.count == 0 && f.fd == INVALID)
    && (f.count > 0 ==> f.fd != INVALID)
  }

  // An entry in the cache is not marked for closing, an entry that has left it is, and still has users.
  predicate EntryOk(f: File, cached: bool) {
    && PlainOk(f)
    && (cached && f.err == 0 ==> !f.close)
    && (!cached ==> f.close && f.count > 0)
  }

  ghost predicate EntriesOk(c: Cache) {
    forall x :: x in c.files ==> EntryOk(c.files[x], x in c.queue)
  }

  // Every open descriptor belongs to exactly one entry, or is loose.
  ghost predicate FdsOk(c: Cache) {
    && INVALID !in c.open && c.loose <= c.open
    && (forall x :: x in c.files && c.files[x].fd != INVALID ==> c.files[x].fd in c.open && c.files[x].fd !in c.loose)
    && (forall x, y :: x in c.files && y in c.files && x != y && c.files[x].fd == c.files[y].fd ==>
        c.files[x].fd == INVALID)
    && (forall d :: d in c.open ==> d in c.loose || Owned(c.files, d))
  }

  ghost predicate Owned(files: Files, d: int) {
    exists x :: x in files && files[x].fd == d
  }

  ghost function Users(handles: Handles, id: nat): set<nat> {
    set h | h in handles && handles[h].file == id
  }

  ghost predicate HandleOk(c: Cache, k: Handle) {
    && k.file in c.files && k.fd in c.open
    && (k.fd == c.files[k.file].fd || k.fd in c.loose)
  }

  // A request's descriptor is open, and `count` is the number of requests.
  ghost predicate HandlesOk(c: Cache) {
    && (forall h :: h in c.handles ==> HandleOk(c, c.handles[h]))
    && (forall x :: x in c.files ==> c.files[x].count == |Users(c.handles, x)|)
  }

  ghost predicate OrderOk(c: Cache) {
    Ordered(c.files, c.queue) && forall x :: x in c.queue ==> c.files[x].accessed <= c.clock
  }

  ghost predicate Inv(c: Cache) {
    QueueOk(c) && EntriesOk(c) && FdsOk(c) && HandlesOk(c) && OrderOk(c)
  }

  // ---------- changes of one entry ----------

  // The descriptor of an entry changes from fd to fd': nothing, or fd is closed, or it gets loose;
  // a new descriptor is one that was not open before.
  ghost predicate FdMove(fd: int, fd': int, o: set<int>, l: set<int>, o': set<int>, l': set<int>) {
    || (fd' == fd && o' == o && l' == l)
    || (fd' != fd && fd' !in o && fd' >= INVALID
        && o' == (if l' == l then o - {fd} else o) + {fd'} - {INVALID}
            && (l' == l || (l' == l + {fd} && fd != INVALID)))
  }

  // The entry id of c becomes f and moves to the head of the queue.
  ghost function Refreshed(c: Cache, id: nat, f: File, o: set<int>, l: set<int>, hs: Handles, now: int): Cache {
    c.(files := c.files[id := f], queue := [id] + Remove(c.queue, id), open := o, loose := l, handles := hs,
        clock := now)
  }

  lemma RefreshQueue(c: Cache, id: nat, f: File, o: set<int>, l: set<int>, hs: Handles, now: int)
    requires QueueOk(c) && OrderOk(c) && id in c.queue && f.name == c.files[id].name && f.accessed == now >= c.clock
    ensures var c' := Refreshed(c, id, f, o, l, hs, now); QueueOk(c') && OrderOk(c')
  {
    var q := Remove(c.queue, id);
    RemoveFacts(c.queue, id);
    RemoveOrdered(c.files, c.queue, id);
    var files' := c.files[id := f];
    assert Ordered(files', q);
    PushOrdered(files', q, id, now);
    assert forall x :: x in [id] + q <==> x == id || x in q;
  }

  lemma RefreshEntries(c: Cache, id: nat, f: File, o: set<int>, l: set<int>, hs: Handles, now: int)
    requires QueueOk(c) && EntriesOk(c) && id in c.queue && EntryOk(f, true)
    ensures EntriesOk(Refreshed(c, id, f, o, l, hs, now))
  {
    RemoveFacts(c.queue, id);
  }

  lemma RefreshFds(c: Cache, id: nat, f: File, o: set<int>, l: set<int>, hs: Handles, now: int)
    requires FdsOk(c) && id in c.files && FdMove(c.files[id].fd, f.fd, c.open, c.loose, o, l)
    ensures FdsOk(Refreshed(c, id, f, o, l, hs, now))
  {
    var c' := Refreshed(c, id, f, o, l, hs, now);
    forall d | d in c'.open && d !in c'.loose
      ensures Owned(c'.files, d)
    {
      if d == f.fd {
        assert c'.files[id].fd == d;
      } else {
        assert Owned(c.files, d);
        var x :| x in c.files && c.files[x].fd == d;
        assert x != id && c'.files[x].fd == d;
      }
    }
  }

  // The requests that use an entry with the given count: one more, one less, or the same.
  ghost predicate HandleMove(id: nat, f: File, hs: Handles, count': int, fd': int, hs': Handles) {
    || (hs' == hs && count' == f.count)
    || (fd' != INVALID && count' == f.count + 1 && exists h: nat, m: nat ::
        h !in hs && hs' == hs[h := Handle(id, fd', m)])
    || (count' == f.count - 1 && exists h :: h in hs && hs[h].file == id && hs' == hs - {h})
  }

  lemma UsersAdd(hs: Handles, h: nat, k: Handle, id: nat)
    requires h !in hs
    ensures |Users(hs[h := k], id)| == |Users(hs, id)| + if k.file == id then 1 else 0
  {
    if k.file == id {
      assert Users(hs[h := k], id) == Users(hs, id) + {h};
    } else {
      assert Users(hs[h := k], id) == Users(hs, id);
    }
  }

  lemma UsersDrop(hs: Handles, h: nat, id: nat)
    requires h in hs
    ensures |Users(hs - {h}, id)| == |Users(hs, id)| - if hs[h].file == id then 1 else 0
  {
    if hs[h].file == id {
      assert Users(hs, id) == Users(hs - {h}, id) + {h};
    } else {
      assert Users(hs - {h}, id) == Users(hs, id);
    }
  }

  // The counts after the move.
  lemma HandleCounts(id: nat, f: File, hs: Handles, count': int, fd': int, hs': Handles)
    requires HandleMove(id, f, hs, count', fd', hs') && f.count == |Users(hs, id)|
    ensures count' == |Users(hs', id)|
    ensures forall x: nat :: x != id ==> |Users(hs', x)| == |Users(hs, x)|
  {
    if hs' != hs {
      if count' == f.count + 1 {
        var h: nat, m: nat :| h !in hs && hs' == hs[h := Handle(id, fd', m)];
        UsersAdd(hs, h, Handle(id, fd', m), id);
        forall x: nat | x != id ensures |Users(hs', x)| == |Users(hs, x)| { UsersAdd(hs, h, Handle(id, fd', m), x); }
      } else {
        var h :| h in hs && hs[h].file == id && hs' == hs - {h};
        UsersDrop(hs, h, id);
        forall x: nat | x != id ensures |Users(hs', x)| == |Users(hs, x)| { UsersDrop(hs, h, x); }
      }
    }
  }

  // A descriptor that is closed has no user left.
  lemma NoUserLeft(c: Cache, id: nat, hs': Handles)
    requires FdsOk(c) && HandlesOk(c) && id in c.files && c.files[id].fd != INVALID && |Users(hs', id)| == 0
    ensures forall h :: h in hs' && h in c.handles && hs'[h] == c.handles[h] ==> c.handles[h].fd != c.files[id].fd
  {
    forall h | h in hs' && h in c.handles && hs'[h] == c.handles[h]
      ensures c.handles[h].fd != c.files[id].fd
    {
      assert h !in Users(hs', id);
      assert HandleOk(c, c.handles[h]);
    }
  }

  // A request that goes on keeps its descriptor.
  lemma OldHandle(c: Cache, id: nat, f: File, o: set<int>, l: set<int>, hs: Handles, now: int, k: Handle)
    requires FdsOk(c) && id in c.files && HandleOk(c, k)
    requires FdMove(c.files[id].fd, f.fd, c.open, c.loose, o, l)
    requires f.fd != c.files[id].fd && l == c.loose ==> k.fd != c.files[id].fd
    ensures HandleOk(Refreshed(c, id, f, o, l, hs, now), k)
  {}

  lemma NewHandle(c: Cache, id: nat, f: File, o: set<int>, l: set<int>, hs: Handles, now: int, m: nat)
    requires FdsOk(c) && id in c.files && f.fd != INVALID
    requires FdMove(c.files[id].fd, f.fd, c.open, c.loose, o, l)
    ensures HandleOk(Refreshed(c, id, f, o, l, hs, now), Handle(id, f.fd, m))
  {}

  lemma RefreshHandles(c: Cache, id: nat, f: File, o: set<int>, l: set<int>, hs: Handles, now: int)
    requires FdsOk(c) && HandlesOk(c) && id in c.files
    requires FdMove(c.files[id].fd, f.fd, c.open, c.loose, o, l)
    requires HandleMove(id, c.files[id], c.handles, f.count, f.fd, hs)
    requires f.fd != c.files[id].fd && l == c.loose ==> c.files[id].count == 0 || f.count == 0
    ensures HandlesOk(Refreshed(c, id, f, o, l, hs, now))
  {
    var c', g := Refreshed(c, id, f, o, l, hs, now), c.files[id];
    HandleCounts(id, g, c.handles, f.count, f.fd, hs);
    forall h | h in hs
      ensures HandleOk(c', hs[h])
    {
      if h in c.handles {
        assert HandleOk(c, c.handles[h]);
        if f.fd != g.fd && l == c.loose && g.fd != INVALID {
          if f.count == 0 { NoUserLeft(c, id, hs); } else { NoUserLeft(c, id, c.handles); }
        }
        OldHandle(c, id, f, o, l, hs, now, c.handles[h]);
      } else {
        NewHandle(c, id, f, o, l, hs, now, hs[h].minUses);
      }
    }
  }

  // An entry of the cache changes as allowed, and all is well again.
  lemma Refresh(c: Cache, id: nat, f: File, o: set<int>, l: set<int>, hs: Handles, now: int)
    requires Inv(c) && id in c.queue && f.name == c.files[id].name && f.accessed == now >= c.clock && EntryOk(f, true)
    requires FdMove(c.files[id].fd, f.fd, c.open, c.loose, o, l)
    requires HandleMove(id, c.files[id], c.handles, f.count, f.fd, hs)
    requires f.fd != c.files[id].fd && l == c.loose ==> c.files[id].count == 0 || f.count == 0
    ensures Inv(Refreshed(c, id, f, o, l, hs, now))
  {
    RefreshQueue(c, id, f, o, l, hs, now);
    RefreshEntries(c, id, f, o, l, hs, now);
    RefreshFds(c, id, f, o, l, hs, now);
    RefreshHandles(c, id, f, o, l, hs, now);
  }

  // ---------- entries that come and go ----------

  // The entry id leaves the tree and the queue.
  ghost function Dropped(c: Cache, id: nat): Cache
    requires id in c.files
  {
    c.(tree := c.tree - {c.files[id].name}, queue := Remove(c.queue, id), current := c.current - 1)
  }

  // It is marked for closing, because it has users, or closed and freed.
  ghost function Unlinked(c: Cache, id: nat): Cache
    requires id in c.files
  {
    Dropped(c, id).(files := c.files[id := c.files[id].(close := true)])
  }

  ghost function Discarded(c: Cache, id: nat): Cache
    requires id in c.files
  {
    Dropped(c, id).(files := c.files - {id}, open := c.open - {c.files[id].fd})
  }

  lemma DropQueue(c: Cache, id: nat, files': Files)
    requires QueueOk(c) && OrderOk(c) && id in c.queue
    requires forall x :: x in c.queue && x != id ==> x in files' && files'[x] == c.files[x]
    ensures var c' := Dropped(c, id).(files := files'); QueueOk(c') && OrderOk(c')
  {
    RemoveFacts(c.queue, id);
    RemoveOrdered(c.files, c.queue, id);
    var q := Remove(c.queue, id);
    forall i, j | 0 <= i < j < |q|
      ensures files'[q[i]].accessed >= files'[q[j]].accessed
    {
      assert q[i] in q && q[j] in q;
    }
  }

  // An entry that keeps its descriptor.
  lemma SetFds(c: Cache, id: nat, f: File, hs: Handles)
    requires FdsOk(c) && id in c.files && f.fd == c.files[id].fd
    ensures FdsOk(c.(files := c.files[id := f], handles := hs))
  {
    forall d | d in c.open && d !in c.loose
      ensures Owned(c.files[id := f], d)
    {
      assert Owned(c.files, d);
      var x :| x in c.files && c.files[x].fd == d;
      assert c.files[id := f][x].fd == d;
    }
  }

  lemma SetHandles(c: Cache, id: nat, f: File, hs: Handles)
    requires HandlesOk(c) && id in c.files && f.fd == c.files[id].fd
    requires HandleMove(id, c.files[id], c.handles, f.count, f.fd, hs) && f.count <= c.files[id].count
    ensures HandlesOk(c.(files := c.files[id := f], handles := hs))
  {
    var c' := c.(files := c.files[id := f], handles := hs);
    HandleCounts(id, c.files[id], c.handles, f.count, f.fd, hs);
    forall h | h in hs
      ensures HandleOk(c', hs[h])
    {
      assert HandleOk(c, c.handles[h]);
    }
  }

  lemma Unlink(c: Cache, id: nat)
    requires Inv(c) && id in c.queue && c.files[id].count > 0
    ensures Inv(Unlinked(c, id))
  {
    var f := c.files[id].(close := true);
    DropQueue(c, id, c.files[id := f]);
    UnlinkEntries(c, id);
    SetFds(c, id, f, c.handles);
    SetHandles(c, id, f, c.handles);
  }

  lemma UnlinkEntries(c: Cache, id: nat)
    requires QueueOk(c) && EntriesOk(c) && id in c.files && c.files[id].count > 0
    ensures EntriesOk(Unlinked(c, id))
  {
    RemoveFacts(c.queue, id);
  }

  // Closing the descriptor of an entry without users and freeing the entry.
  ghost function Freed(c: Cache, id: nat, hs: Handles): Cache
    requires id in c.files
  {
    c.(files := c.files - {id}, open := c.open - {c.files[id].fd}, handles := hs)
  }

  lemma FreeFds(c: Cache, id: nat, hs: Handles)
    requires FdsOk(c) && id in c.files
    ensures FdsOk(Freed(c, id, hs))
  {
    var c' := Freed(c, id, hs);
    forall d | d in c'.open && d !in c'.loose
      ensures Owned(c'.files, d)
    {
      assert Owned(c.files, d);
      var x :| x in c.files && c.files[x].fd == d;
      assert x != id && c'.files[x].fd == d;
    }
  }

  lemma FreeHandles(c: Cache, id: nat, hs: Handles)
    requires FdsOk(c) && HandlesOk(c) && id in c.files && |Users(hs, id)| == 0
    requires forall h :: h in hs ==> h in c.handles && hs[h] == c.handles[h]
    requires forall x: nat :: x != id ==> |Users(hs, x)| == |Users(c.handles, x)|
    ensures HandlesOk(Freed(c, id, hs))
  {
    if c.files[id].fd != INVALID { NoUserLeft(c, id, hs); }
    forall h | h in hs
      ensures HandleOk(Freed(c, id, hs), hs[h])
    {
      assert HandleOk(c, c.handles[h]);
      assert h !in Users(hs, id);
    }
  }

  lemma Discard(c: Cache, id: nat)
    requires Inv(c) && id in c.queue && c.files[id].count == 0
    ensures Inv(Discarded(c, id))
  {
    var c' := Discarded(c, id);
    RemoveFacts(c.queue, id);
    DropQueue(c, id, c'.files);
    FreeFds(c, id, c.handles);
    FreeHandles(c, id, c.handles);
    DiscardEntries(c, id);
  }

  lemma DiscardEntries(c: Cache, id: nat)
    requires QueueOk(c) && EntriesOk(c) && id in c.files
    ensures EntriesOk(Discarded(c, id))
  {
    RemoveFacts(c.queue, id);
  }

  // A new entry at the head of the queue.
  ghost function Created(c: Cache, id: nat, f: File, o: set<int>, hs: Handles, now: int): Cache {
    c.(files := c.files[id := f], tree := c.tree[f.name := id], queue := [id] + c.queue, current := c.current + 1,
       open := o, handles := hs, clock := now)
  }

  lemma CreateQueue(c: Cache, id: nat, f: File, o: set<int>, hs: Handles, now: int)
    requires QueueOk(c) && OrderOk(c) && id !in c.files && f.name !in c.tree && c.current < c.max
        && f.accessed == now >= c.clock
    ensures var c' := Created(c, id, f, o, hs, now); QueueOk(c') && OrderOk(c')
  {
    var files' := c.files[id := f];
    assert Ordered(files', c.queue);
    PushOrdered(files', c.queue, id, now);
    assert forall x :: x in [id] + c.queue <==> x == id || x in c.queue;
  }

  lemma CreateFds(c: Cache, id: nat, f: File, o: set<int>, hs: Handles, now: int)
    requires FdsOk(c) && id !in c.files && f.fd !in c.open && f.fd >= INVALID && o == c.open + {f.fd} - {INVALID}
    ensures FdsOk(Created(c, id, f, o, hs, now))
  {
    var c' := Created(c, id, f, o, hs, now);
    forall d | d in c'.open && d !in c'.loose
      ensures Owned(c'.files, d)
    {
      if d == f.fd {
        assert c'.files[id].fd == d;
      } else {
        assert Owned(c.files, d);
        var x :| x in c.files && c.files[x].fd == d;
        assert c'.files[x].fd == d;
      }
    }
  }

  lemma NoUsers(c: Cache, id: nat)
    requires HandlesOk(c) && id !in c.files
    ensures Users(c.handles, id) == {}
  {
    forall h | h in c.handles ensures c.handles[h].file != id { assert HandleOk(c, c.handles[h]); }
  }

  lemma CreateHandles(c: Cache, id: nat, f: File, o: set<int>, hs: Handles, now: int)
    requires FdsOk(c) && HandlesOk(c) && id !in c.files && f.fd !in c.open && o == c.open + {f.fd} - {INVALID}
    requires HandleMove(id, f.(count := 0), c.handles, f.count, f.fd, hs)
    ensures HandlesOk(Created(c, id, f, o, hs, now))
  {
    var c' := Created(c, id, f, o, hs, now);
    NoUsers(c, id);
    HandleCounts(id, f.(count := 0), c.handles, f.count, f.fd, hs);
    forall h | h in hs
      ensures HandleOk(c', hs[h])
    {
      if h in c.handles { assert HandleOk(c, c.handles[h]); }
    }
  }

  lemma Create(c: Cache, id: nat, f: File, o: set<int>, hs: Handles, now: int)
    requires Inv(c) && id !in c.files && f.name !in c.tree && c.current < c.max && f.accessed == now >= c.clock
        && EntryOk(f, true)
    requires f.fd !in c.open && f.fd >= INVALID && o == c.open + {f.fd} - {INVALID}
    requires HandleMove(id, f.(count := 0), c.handles, f.count, f.fd, hs)
    ensures Inv(Created(c, id, f, o, hs, now))
  {
    CreateQueue(c, id, f, o, hs, now);
    CreateFds(c, id, f, o, hs, now);
    CreateHandles(c, id, f, o, hs, now);
  }

  // ---------- entries that have left the cache ----------

  // A request leaves an entry that others still use.
  lemma Release(c: Cache, id: nat, h: nat)
    requires Inv(c) && id in c.files && id !in c.queue && h in c.handles && c.handles[h].file == id
        && c.files[id].count > 1
    ensures Inv(c.(files := c.files[id := c.files[id].(count := c.files[id].count - 1)], handles := c.handles - {h}))
  {
    var f := c.files[id].(count := c.files[id].count - 1);
    SetFds(c, id, f, c.handles - {h});
    SetHandles(c, id, f, c.handles - {h});
    SetQueue(c, id, f, c.handles - {h});
  }

  lemma SetQueue(c: Cache, id: nat, f: File, hs: Handles)
    requires QueueOk(c) && OrderOk(c) && EntriesOk(c) && id !in c.queue && EntryOk(f, false)
    ensures var c' := c.(files := c.files[id := f], handles := hs); QueueOk(c') && OrderOk(c') && EntriesOk(c')
  {
    assert Ordered(c.files[id := f], c.queue);
  }

  // The last request leaves: the descriptor is closed and the entry freed.
  lemma FreeLast(c: Cache, id: nat, h: nat)
    requires Inv(c) && id in c.files && id !in c.queue && h in c.handles && c.handles[h].file == id
        && c.files[id].count == 1
    ensures Inv(Freed(c, id, c.handles - {h}))
  {
    UsersDrop(c.handles, h, id);
    forall x: nat | x != id ensures |Users(c.handles - {h}, x)| == |Users(c.handles, x)| { UsersDrop(c.handles, h, x); }
    FreeFds(c, id, c.handles - {h});
    FreeHandles(c, id, c.handles - {h});
    assert Ordered(c.files - {id}, c.queue);
  }

  // ---------- the invariant as a value ----------

  // Empty when the invariant holds.  Proofs go from one to the other only where they have to.
  ghost function Faults(c: Cache): set<Cache> {
    set x | x in {c} && !Inv(x)
  }

  lemma NoFault(c: Cache)
    ensures Faults(c) == {} <==> Inv(c)
  {
    assert c in Faults(c) <==> !Inv(c);
  }

  lemma UnlinkSound(c: Cache, id: nat)
    requires Faults(c) == {} && id in c.queue && id in c.files && c.files[id].count > 0
    ensures Faults(Unlinked(c, id)) == {}
  {
    NoFault(c);
    Unlink(c, id);
    NoFault(Unlinked(c, id));
  }

  lemma DiscardSound(c: Cache, id: nat)
    requires Faults(c) == {} && id in c.queue && id in c.files && c.files[id].count == 0
    ensures Faults(Discarded(c, id)) == {}
  {
    NoFault(c);
    Discard(c, id);
    NoFault(Discarded(c, id));
  }

  lemma RefreshSound(c: Cache, id: nat, f: File, o: set<int>, l: set<int>, hs: Handles, now: int)
    requires Faults(c) == {} && id in c.queue && id in c.files && EntryOk(f, true)
    requires f.name == c.files[id].name && f.accessed == now >= c.clock
    requires FdMove(c.files[id].fd, f.fd, c.open, c.loose, o, l)
    requires HandleMove(id, c.files[id], c.handles, f.count, f.fd, hs)
    requires f.fd != c.files[id].fd && l == c.loose ==> c.files[id].count == 0 || f.count == 0
    ensures Faults(Refreshed(c, id, f, o, l, hs, now)) == {}
  {
    NoFault(c);
    Refresh(c, id, f, o, l, hs, now);
    NoFault(Refreshed(c, id, f, o, l, hs, now));
  }

  lemma CreateSound(c: Cache, id: nat, f: File, o: set<int>, hs: Handles, now: int)
    requires Faults(c) == {} && id !in c.files && f.name !in c.tree && c.current < c.max
        && f.accessed == now >= c.clock && EntryOk(f, true)
    requires f.fd !in c.open && f.fd >= INVALID && o == c.open + {f.fd} - {INVALID}
    requires HandleMove(id, f.(count := 0), c.handles, f.count, f.fd, hs)
    ensures Faults(Created(c, id, f, o, hs, now)) == {}
  {
    NoFault(c);
    Create(c, id, f, o, hs, now);
    NoFault(Created(c, id, f, o, hs, now));
  }

  // A request leaves an entry that is not in the cache any more.
  ghost function Released(c: Cache, h: nat): Cache
    requires h in c.handles && c.handles[h].file in c.files
  {
    var id := c.handles[h].file;
    var f := c.files[id];
    if f.count > 1 then c.(files := c.files[id := f.(count := f.count - 1)], handles := c.handles - {h})
    else Freed(c, id, c.handles - {h})
  }

  lemma ReleaseSound(c: Cache, h: nat)
    requires Faults(c) == {} && h in c.handles && c.handles[h].file !in c.queue && c.handles[h].file in c.files
    ensures Faults(Released(c, h)) == {}
  {
    NoFault(c);
    NoFault(Released(c, h));
    var id := c.handles[h].file;
    assert EntryOk(c.files[id], false);
    if c.files[id].count > 1 { Release(c, id, h); } else { FreeLast(c, id, h); }
  }

  lemma Tick(c: Cache, now: int)
    requires Faults(c) == {} && now >= c.clock
    ensures Faults(c.(clock := now)) == {}
  {
    NoFault(c);
    NoFault(c.(clock := now));
  }

  // A descriptor that was just opened is loose until an entry takes it.
  lemma Loosen(c: Cache, fd: int)
    requires Faults(c) == {} && fd !in c.open && fd != INVALID
    ensures Faults(c.(open := c.open + {fd}, loose := c.loose + {fd})) == {}
    ensures forall h :: h in c.handles ==> c.handles[h].fd != fd
  {
    NoFault(c);
    var c' := c.(open := c.open + {fd}, loose := c.loose + {fd});
    NoFault(c');
    forall h | h in c.handles ensures HandleOk(c', c.handles[h]) && c.handles[h].fd != fd {
      assert HandleOk(c, c.handles[h]);
    }
  }

  lemma Tighten(c: Cache, fd: int)
    requires Faults(c) == {} && fd in c.loose && forall h :: h in c.handles ==> c.handles[h].fd != fd
    ensures Faults(c.(open := c.open - {fd}, loose := c.loose - {fd})) == {}
  {
    NoFault(c);
    var c' := c.(open := c.open - {fd}, loose := c.loose - {fd});
    NoFault(c');
    forall h | h in c.handles ensures HandleOk(c', c.handles[h]) { assert HandleOk(c, c.handles[h]); }
  }

  // The number of uses is free.
  lemma Use(c: Cache, id: nat)
    requires Faults(c) == {} && id in c.files
    ensures Faults(c.(files := c.files[id := c.files[id].(uses := c.files[id].uses + 1)])) == {}
  {
    NoFault(c);
    var f := c.files[id].(uses := c.files[id].uses + 1);
    var c' := c.(files := c.files[id := f]);
    NoFault(c');
    SetFds(c, id, f, c.handles);
    SetHandles(c, id, f, c.handles);
    UseQueue(c, id, f);
  }

  lemma UseQueue(c: Cache, id: nat, f: File)
    requires QueueOk(c) && EntriesOk(c) && OrderOk(c) && id in c.files && f == c.files[id].(uses := f.uses)
    ensures var c' := c.(files := c.files[id := f]); QueueOk(c') && EntriesOk(c') && OrderOk(c')
  {
    assert Ordered(c.files[id := f], c.queue);
  }
}
