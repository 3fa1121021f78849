/** ngx_open_file_cache.c: opening a file through the cache, the cleanup that a request runs when it
    is done with the file, and the expiry of old entries. */
module OpenFileCache {
  import opened CacheState

  // ngx_open_file_info_t: what the caller asks for, and what it gets
  datatype Of = Of(
    fd: int, uniq: int, rest: int, err: int, isDir: bool,
    testDir: bool, errors: bool, valid: int, symlinks: int, minUses: nat)

  // What the operating system says when it is asked: to stat the name, to open it, to fstat the
  // descriptor.  A failed stat or open comes with a nonzero errno.
  datatype Stat = Failed | Is(info: Info)
  datatype Os = Os(stat: Stat, open: int, fstat: Stat, errno: int)

  // A new descriptor is one that is not open yet.
  predicate OsOk(os: Os, open: set<int>) {
    os.errno != 0 && os.open >= INVALID && os.open !in open
  }

  // A cached answer may still be given.
  predicate Fresh(f: File, of: Of, now: int) {
    (of.uniq == 0 || of.uniq == f.uniq) && now - f.created < of.valid && of.symlinks == f.symlinks
  }

  // The file was closed because it was not used often enough.
  predicate Parked(f: File) {
    f.fd == INVALID && f.err == 0 && !f.isDir
  }

  // An entry that can answer for the system: something is known of the file, the system was asked less than of.valid
  // seconds ago, the caller does not insist on another inode, and it treats symbolic links alike.
  predicate Recent(f: File, of: Of, now: int) {
    && (f.fd != INVALID || f.err != 0 || f.isDir) && now < f.created + of.valid
    && (of.uniq != 0 ==> f.uniq == of.uniq) && f.symlinks == of.symlinks
  }

  // The entry f after a request: one more use, and the time of the question only if there was one
  predicate Dated(f: File, of: Of, now: int, g: File) {
    && g.uses == f.uses + 1 && g.accessed == now && g.symlinks == of.symlinks && g.name == f.name
    && g.created == if Recent(f, of, now) then f.created else now
  }

  // The entry for the name after a request: the old one or a new one
  predicate Stamped(c: Cache, name: string, of: Of, now: int, fate: Outcome, g: File) {
    if fate == Served then name in c.tree && c.tree[name] in c.files && Dated(c.files[c.tree[name]], of, now, g)
    else g.uses == 1 && g.created == now && g.accessed == now && g.symlinks == of.symlinks && g.name == name
  }

  // stat() sees another inode than the cached one, and the file that is then opened has the cached
  // inode again: the entry takes the new descriptor and forgets the old one.
  predicate Race(f: File, of: Of, now: int, os: Os) {
    && f.fd != INVALID && !Fresh(f, of, now)
    && os.stat.Is? && os.stat.info.uniq != f.uniq
    && os.open != INVALID && os.fstat.Is? && !os.fstat.info.isDir && os.fstat.info.uniq == f.uniq
  }

  function Lost(f: File, of: Of, now: int, os: Os): set<int> {
    if Race(f, of, now, os) then {f.fd} else {}
  }

  // stat() sees a directory with the inode number of the cached file, on another file system for instance: the
  // directory keeps the descriptor that was passed in.
  predicate Clash(f: File, of: Of, now: int, os: Os) {
    f.fd != INVALID && !Fresh(f, of, now) && os.stat.Is? && os.stat.info.uniq == f.uniq && os.stat.info.isDir
  }

  // The assignments at the label `update`
  function Updated(f: File, of: Of, now: int): File {
    var g := f.(fd := of.fd, err := of.err, symlinks := of.symlinks, created := now, accessed := now);
    if of.err == 0 then
      g.(uniq := of.uniq, rest := of.rest, close := false, isDir := of.isDir, count := if of.isDir then f.count
          else f.count + 1)
    else g
  }

  // What is known of the file after ngx_open_and_stat_file, and the descriptor: the old one when
  // stat() still sees the same inode, none for a directory, and else the new one.
  datatype Seen = Nothing(err: int) | Something(info: Info, fd: int)

  function Look(of: Of, os: Os): Seen {
    if (of.fd != INVALID || of.testDir) && os.stat.Failed? then Nothing(os.errno)
    else if of.fd != INVALID && os.stat.info.uniq == of.uniq then Something(os.stat.info, of.fd)
    else if of.fd == INVALID && of.testDir && os.stat.info.isDir then Something(os.stat.info, INVALID)
    else if os.open == INVALID then Nothing(os.errno)
    else if os.fstat.Failed? then Nothing(0)
    else Something(os.fstat.info, if os.fstat.info.isDir then INVALID else os.open)
  }

  function Told(of: Of, s: Seen): Of {
    match s
    case Nothing(err) => of.(fd := INVALID, err := err)
    case Something(info, fd) => of.(fd := fd, uniq := info.uniq, rest := info.rest, isDir := info.isDir)
  }

  // The pool cleanup that is set up for the request
  function Serve(hs: Handles, h: nat, id: nat, of: Of): Handles {
    if of.err == 0 && !of.isDir then hs[h := Handle(id, of.fd, of.minUses)] else hs
  }

  // The answer from an entry of the cache
  function Cached(f: File, of: Of): Of {
    if f.err == 0 then of.(fd := f.fd, uniq := f.uniq, rest := f.rest, isDir := f.isDir) else of.(err := f.err)
  }

  datatype Outcome = Served | Refused | Renew

  // The file is there, or there is an error that is to be cached.
  predicate Wanted(of: Of, os: Os) {
    Look(of, os).Something? || (Look(of, os).err != 0 && of.errors)
  }

  // What is asked about a file that has an entry
  function Ask(f: File, of: Of): Of {
    of.(testDir := of.testDir || f.isDir, fd := f.fd, uniq := f.uniq)
  }

  // Users hold the descriptor of a file that is not the one under this name any more.
  predicate Replaces(f: File, of: Of) {
    f.count > 0 && !(of.err == 0 && !of.isDir && of.uniq == f.uniq)
  }

  predicate Unused(handles: Handles, fd: int) {
    forall h :: h in handles ==> handles[h].fd != fd
  }

  // What a request is told about a file that has an entry, and what becomes of the entry
  function Reply(f: File, of: Of, now: int, os: Os): Of {
    if Parked(f) then Told(of, Look(of, os))
    else if Fresh(f, of, now) then Cached(f, of)
    else Told(Ask(f, of), Look(Ask(f, of), os))
  }

  function Verdict(f: File, of: Of, now: int, os: Os): Outcome {
    if !Parked(f) && Fresh(f, of, now) then Served
    else if !Wanted(if Parked(f) then of else Ask(f, of), os) then Refused
    else if !Parked(f) && Replaces(f, Reply(f, of, now, os)) then Renew
    else Served
  }

  // Where the descriptor of a new entry comes from: nobody knows it yet, or, for a directory that clashes, the entry
  // x, which has left the cache, has it.
  predicate Source(c: Cache, of: Of, clash: bool, x: nat) {
    if clash then x in c.files && x !in c.queue && c.files[x].fd == of.fd != INVALID && of.err == 0 && of.isDir
    else OfOk(of) && (of.fd == INVALID || (of.fd in c.loose && of.fd >= 0 && Unused(c.handles, of.fd)))
  }

  lemma SourceFacts(c: Cache, of: Of, clash: bool, x: nat)
    requires Faults(c) == {} && Source(c, of, clash, x)
    ensures of.fd != INVALID ==> of.fd in c.open
    ensures clash ==> of.fd !in c.loose
  {
    NoFault(c);
  }

  // What a clash leaves behind.  Without users the descriptor is closed, and the entry has it still; with users, two
  // entries have it, or, without memory for the second one, it is closed under them.
  predicate Doubled(c: Cache, name: string, of: Of, id: nat, memory: bool, c': Cache) {
    name in c.tree && c.tree[name] in c.files && c.tree[name] in c'.files &&
    var x := c.tree[name];
    && of.isDir && of.fd == c.files[x].fd == c'.files[x].fd != INVALID
    && (c.files[x].count == 0 || !memory ==> of.fd !in c'.open)
    && (c.files[x].count > 0 && memory ==> x != id && id in c'.files && c'.files[id].fd == of.fd)
  }

  // What a new entry finds
  ghost predicate Arrived(c: Cache, name: string, clash: bool, of: Of, c': Cache) {
    && (clash ==> name in c.tree && c.tree[name] in c.files && c.tree[name] in c'.files)
    && (clash ==> of.fd == c.files[c.tree[name]].fd && c.files[c.tree[name]].count > 0)
    && Source(c', of, clash, if clash then c.tree[name] else 0) && (!clash ==> Pending(c, of.fd))
    && c'.loose == c.loose + (if clash then {} else {of.fd} - {INVALID})
  }

  // The entry says what the request is told.
  predicate Holds(f: File, of: Of) {
    f.err == of.err && (of.err == 0 ==> f.fd == of.fd && f.uniq == of.uniq && f.rest == of.rest && f.isDir == of.isDir)
  }

  // The answer to a request
  function Answers(c: Cache, name: string, of: Of, now: int, os: Os): Of {
    if name in c.tree && c.tree[name] in c.files then Reply(c.files[c.tree[name]], of, now, os)
        else Told(of, Look(of, os))
  }

  // What gets lost
  function Leaks(c: Cache, name: string, of: Of, now: int, os: Os): set<int> {
    if name in c.tree && c.tree[name] in c.files then Lost(c.files[c.tree[name]], of, now, os) else {}
  }

  // Whether that happens to the entry for the name
  predicate Clashes(c: Cache, name: string, of: Of, now: int, os: Os) {
    name in c.tree && c.tree[name] in c.files && Clash(c.files[c.tree[name]], of, now, os)
  }

  // A descriptor that no entry had before
  function Fresher(f: File, of: Of): set<int> {
    if of.fd == f.fd then {} else {of.fd} - {INVALID}
  }

  // The rest of the queue
  function Rest(c: Cache, name: string): seq<nat> {
    if name in c.tree then Remove(c.queue, c.tree[name]) else c.queue
  }

  // The entry for the name, if there is one now, is at the head of the queue, and the other entries
  // follow as they were, without the last k: none, unless the cache was full and the name new.
  predicate Moved(c: Cache, name: string, k: nat, c': Cache) {
    var rest := Rest(c, name);
    && k <= |rest| && c'.queue == (if name in c'.tree then [c'.tree[name]] else []) + rest[..|rest| - k]
    && Kept(rest[..|rest| - k], c.files, c'.files)
    && (if name in c.tree || c.current < c.max then k == 0 else k <= 3)
  }

  // The file is served from an entry, or it is refused, or it gets a new entry.
  function Fate(c: Cache, name: string, of: Of, now: int, os: Os): Outcome {
    if name in c.tree && c.tree[name] in c.files then Verdict(c.files[c.tree[name]], of, now, os)
    else if Wanted(of, os) then Renew else Refused
  }

  // A descriptor that was opened and that nobody knows yet, or none
  predicate Pending(c: Cache, fd: int) {
    fd == INVALID || (fd >= 0 && Unused(c.handles, fd) && fd !in c.loose)
  }

  predicate Kept(q: seq<nat>, files: Files, files': Files) {
    forall x :: x in q ==> x in files && x in files' && files'[x] == files[x]
  }

  // The entries q[lo..hi] were last used more than `inactive` before now.
  predicate Idle(files: Files, q: seq<nat>, lo: nat, hi: int, now: int, inactive: int) {
    forall i :: lo <= i < hi <= |q| ==> q[i] in files && now - files[q[i]].accessed > inactive
  }

  datatype Judgement = Right | Wrong

  // The last k entries of the queue are gone, all but perhaps the very last because they were idle.
  ghost predicate Expired(fs: Files, q: seq<nat>, fs': Files, q': seq<nat>, k: nat, forced: nat, now: int,
      inactive: int) {
    && k <= |q| && q' == q[..|q| - k]
    && Kept(q', fs, fs')
    && Idle(fs, q, |q| - k, |q| - forced, now, inactive)
  }

  // The same as a value
  ghost function Expiry(fs: Files, q: seq<nat>, fs': Files, q': seq<nat>, k: nat, forced: nat, now: int,
      inactive: int): Judgement {
    if Expired(fs, q, fs', q', k, forced, now, inactive) then Right else Wrong
  }

  lemma ExpiredOneMore(fs: Files, q: seq<nat>, fs': Files, q': seq<nat>, fs'': Files, k: nat, forced: nat, now: int,
      inactive: int)
    requires Expiry(fs, q, fs', q', k, forced, now, inactive) == Right && q' != []
    requires var id := q'[|q'| - 1]; (k == 0 && forced == 1) || (id in fs' && now - fs'[id].accessed > inactive)
    requires Kept(q'[..|q'| - 1], fs', fs'')
    ensures Expiry(fs, q, fs'', q'[..|q'| - 1], k + 1, forced, now, inactive) == Right
  {
    assert q'[|q'| - 1] == q[|q| - 1 - k];
    assert q[|q| - 1 - k] in q';
    assert forall x :: x in q'[..|q'| - 1] ==> x in q';
  }

  lemma LastFacts(c: Cache, id: nat)
    requires Faults(c) == {} && c.queue != [] && id == c.queue[|c.queue| - 1]
    ensures id in c.queue && id in c.files && PlainOk(c.files[id])
    ensures Remove(c.queue, id) == c.queue[..|c.queue| - 1]
    ensures c.files[id].fd != INVALID ==> c.files[id].fd in c.open
  {
    NoFault(c);
    RemoveLast(c.queue);
    assert EntryOk(c.files[id], true);
  }

  lemma QueueInFiles(c: Cache)
    requires Faults(c) == {}
    ensures Kept(c.queue, c.files, c.files)
  {
    NoFault(c);
  }

  // An entry that goes is closed and freed unless it has users.
  lemma ExpireStep(c: Cache, id: nat, c': Cache)
    requires Faults(c) == {} && id in c.queue && id in c.files
    requires c' == if c.files[id].count > 0 then Unlinked(c, id)
        else Discarded(c, id).(open := c.open - ({c.files[id].fd} - {INVALID}))
    ensures Faults(c') == {} && c'.open <= c.open && c'.queue == Remove(c.queue, id)
        && Kept(c'.queue, c.files, c'.files)
    ensures Stay(c, c'.files)
  {
    Untouched(c, id, c'.files);
    DropKept(c, id, c'.files);
    LooseOpen(c);
    if c.files[id].count > 0 {
      UnlinkSound(c, id);
    } else {
      assert c'.open == c.open - {c.files[id].fd};
      assert c' == Discarded(c, id);
      DiscardSound(c, id);
    }
  }

  // The entries that have left the cache stay as they are.
  ghost predicate Stay(c: Cache, files': Files) {
    forall x :: x in c.files && x !in c.queue ==> x in files' && files'[x] == c.files[x]
  }

  ghost function Staying(c: Cache, files': Files): Judgement {
    if Stay(c, files') then Right else Wrong
  }

  // The expiry so far
  ghost function Gone(c: Cache, fs': Files, q': seq<nat>, k: nat, forced: nat, now: int, inactive: int): Judgement {
    if Expired(c.files, c.queue, fs', q', k, forced, now, inactive) && Stay(c, fs') then Right else Wrong
  }

  lemma GoneMore(c: Cache, c1: Cache, files': Files, k: nat, forced: nat, now: int, inactive: int)
    requires Gone(c, c1.files, c1.queue, k, forced, now, inactive) == Right && c1.queue != []
        && Staying(c1, files') == Right
    requires var id := c1.queue[|c1.queue| - 1];
        (k == 0 && forced == 1) || (id in c1.files && now - c1.files[id].accessed > inactive)
    requires Kept(c1.queue[..|c1.queue| - 1], c1.files, files')
    ensures Gone(c, files', c1.queue[..|c1.queue| - 1], k + 1, forced, now, inactive) == Right
  {
    ExpiredOneMore(c.files, c.queue, c1.files, c1.queue, files', k, forced, now, inactive);
    assert forall x :: x in c1.queue ==> x in c.queue;
  }

  lemma GoneNone(c: Cache, forced: nat, now: int, inactive: int)
    requires Faults(c) == {} && forced <= 1
    ensures Gone(c, c.files, c.queue, 0, forced, now, inactive) == Right
  {
    QueueInFiles(c);
  }

  lemma Untouched(c: Cache, id: nat, files': Files)
    requires id in c.queue && files' - {id} == c.files - {id}
    ensures Stay(c, files')
  {
    forall x | x in c.files && x !in c.queue ensures x in files' && files'[x] == c.files[x] {
      assert x in c.files - {id};
      assert (files' - {id})[x] == (c.files - {id})[x];
    }
  }

  lemma DropKept(c: Cache, id: nat, files': Files)
    requires Faults(c) == {} && id in c.queue && id in c.files && files' - {id} == c.files - {id}
    ensures Kept(Remove(c.queue, id), c.files, files')
  {
    NoFault(c);
    RemoveFacts(c.queue, id);
    forall x | x in Remove(c.queue, id) ensures x in c.files && x in files' && files'[x] == c.files[x] {
      assert x in c.files - {id};
      assert (files' - {id})[x] == (c.files - {id})[x];
    }
  }

  lemma HandleFacts(c: Cache, h: nat)
    requires Faults(c) == {} && h in c.handles
    ensures var id := c.handles[h].file;
        id in c.files && c.files[id].count > 0 && c.files[id].fd in c.open && c.files[id].fd != INVALID
    ensures var id := c.handles[h].file; c.files[id].close <==> id !in c.queue
  {
    NoFault(c);
    var id := c.handles[h].file;
    assert HandleOk(c, c.handles[h]);
    assert h in Users(c.handles, id);
    assert EntryOk(c.files[id], id in c.queue);
  }

  // The request h is done with its file.  The descriptor is closed exactly when nobody else uses it and the entry has
  // left the cache, or was not used often enough; an entry is freed exactly when it has left and nobody else uses it.
  // An entry that stays in the cache moves to the head of the queue.  The other entries stay as they are.
  predicate Departed(c: Cache, h: nat, now: int, c': Cache) {
    h in c.handles && c.handles[h].file in c.files && c.files[c.handles[h].file].count > 0 &&
    var k := c.handles[h];
    var f := c.files[k.file];
    var last := f.count == 1 && (f.close || f.uses < k.minUses);
    && c'.open == c.open - (if last then {f.fd} else {}) && f.fd in c.open
    && (k.file in c'.files <==> f.count > 1 || !f.close)
    && c'.files - {k.file} == c.files - {k.file}
    && (k.file in c'.files ==>
        c'.files[k.file] == f.(count := f.count - 1, fd := if last then INVALID else f.fd,
            accessed := if f.close then f.accessed else now))
    && c'.queue == (if f.close then c.queue else [k.file] + Remove(c.queue, k.file))
    && c' == c.(files := c'.files, queue := c'.queue, open := c'.open, handles := c.handles - {h}, clock := now)
  }

  // What a request leaves behind.
  lemma LeaveSound(c: Cache, h: nat, now: int, c': Cache)
    requires Faults(c) == {} && h in c.handles && now >= c.clock && c.handles[h].file in c.files
    requires (var k := c.handles[h]; var f := c.files[k.file];
              f.count > 0 &&
              var idle := f.count == 1 && (f.close || f.uses < k.minUses);
              && c' == c.(files := c'.files, queue := c'.queue, open := c'.open, handles := c.handles - {h},
                  clock := now)
              && c'.open == (if idle then c.open - ({f.fd} - {INVALID}) else c.open)
              && c'.queue == (if f.close then c.queue else [k.file] + Remove(c.queue, k.file))
              && c'.files == (if f.close then if idle then c.files - {k.file}
                  else c.files[k.file := f.(count := f.count - 1)]
                            else c.files[k.file := f.(count := f.count - 1, accessed := now, fd := if idle then INVALID
                                else f.fd)]))
    ensures Faults(c') == {}
  {
    HandleFacts(c, h);
    var k := c.handles[h];
    var id, f := k.file, c.files[k.file];
    if f.close {
      ReleaseSound(c, h);
      Tick(Released(c, h), now);
      assert c' == Released(c, h).(clock := now);
    } else {
      LeaveCached(c, h, now, c'.files[id], c'.open);
      assert c' == Refreshed(c, id, c'.files[id], c'.open, c.loose, c.handles - {h}, now);
    }
  }

  lemma LeaveCached(c: Cache, h: nat, now: int, g: File, o: set<int>)
    requires Faults(c) == {} && h in c.handles && now >= c.clock && c.handles[h].file in c.files
        && c.handles[h].file in c.queue
    requires (var f := c.files[c.handles[h].file];
              && f.count > 0 && !f.close && f.fd in c.open && f.fd != INVALID
              && ((g == f.(count := f.count - 1, accessed := now) && o == c.open)
                  || (g == f.(count := 0, accessed := now, fd := INVALID) && f.count == 1 && o == c.open - {f.fd})))
    ensures Faults(Refreshed(c, c.handles[h].file, g, o, c.loose, c.handles - {h}, now)) == {}
  {
    var id := c.handles[h].file;
    EntryFacts(c, id);
    RefreshSound(c, id, g, o, c.loose, c.handles - {h}, now);
  }

  lemma EntryFacts(c: Cache, id: nat)
    requires Faults(c) == {} && id in c.files
    ensures EntryOk(c.files[id], id in c.queue) && INVALID !in c.open
        && (c.files[id].fd != INVALID ==> c.files[id].fd in c.open && c.files[id].fd !in c.loose)
  {
    NoFault(c);
  }

  lemma AnswerSound(c: Cache, id: nat, of: Of, now: int, h: nat, c': Cache)
    requires Faults(c) == {} && id in c.queue && id in c.files && !Parked(c.files[id]) && c.clock <= now
        && h !in c.handles
    requires of.err == 0
    requires (var f := c.files[id];
              var g := f.(accessed := now, count := if f.err == 0 && !f.isDir then f.count + 1 else f.count);
              c' == Refreshed(c, id, g, c.open, c.loose, Serve(c.handles, h, id, Cached(f, of)), now))
    ensures Faults(c') == {}
  {
    EntryFacts(c, id);
    var f := c.files[id];
    var g := f.(accessed := now, count := if f.err == 0 && !f.isDir then f.count + 1 else f.count);
    RefreshSound(c, id, g, c.open, c.loose, Serve(c.handles, h, id, Cached(f, of)), now);
  }

  lemma DropSound(c: Cache, id: nat, c': Cache)
    requires Faults(c) == {} && id in c.queue && id in c.files
    requires c' == if c.files[id].count > 0 then Unlinked(c, id)
        else Discarded(c, id).(open := c.open - ({c.files[id].fd} - {INVALID}))
    ensures Faults(c') == {} && c'.open <= c.open && c'.files - {id} == c.files - {id}
  {
    ExpireStep(c, id, c');
  }

  // Only a plain file comes with a descriptor.
  predicate OfOk(of: Of) {
    of.fd != INVALID <==> of.err == 0 && !of.isDir
  }

  lemma UpdateSound(c: Cache, id: nat, of: Of, now: int, h: nat, c': Cache)
    requires Faults(c) == {} && id in c.queue && id in c.files && c.clock <= now && h !in c.handles && OfOk(of)
    requires FdMove(c.files[id].fd, of.fd, c.open, c.loose, c'.open, c'.loose)
    requires c.files[id].count == 0 || (of.err == 0 && !of.isDir && (of.fd == c.files[id].fd || c'.loose != c.loose))
    requires c' == Refreshed(c, id, Updated(c.files[id], of, now), c'.open, c'.loose, Serve(c.handles, h, id, of), now)
    ensures Faults(c') == {} && c'.files - {id} == c.files - {id}
  {
    EntryFacts(c, id);
    RefreshSound(c, id, Updated(c.files[id], of, now), c'.open, c'.loose, Serve(c.handles, h, id, of), now);
  }

  // The descriptor that the entry may keep, and the one that it may lose.
  lemma RetestFacts(f: File, of0: Of, now: int, os: Os, of: Of, keep: bool)
    requires PlainOk(f) && !Parked(f) && !Clash(f, of0, now, os) && !Fresh(f, of0, now) && os.errno != 0
        && (os.open == f.fd ==> f.fd == INVALID)
    requires Wanted(Ask(f, of0), os) && of0.err == 0 && of == Told(Ask(f, of0), Look(Ask(f, of0), os))
    requires keep == (f.err != 0 || f.isDir || (!of.isDir && of.err == 0 && of.uniq == f.uniq))
    ensures OfOk(of) && (of.fd == f.fd || of.fd == INVALID || of.fd == os.open)
    ensures if keep then f.fd == INVALID || of.fd != INVALID else f.fd != INVALID && of.fd != f.fd
    ensures of == Reply(f, of0, now, os) && Verdict(f, of0, now, os) == if keep || f.count == 0 then Served else Renew
    ensures (if keep && of.fd != f.fd then {f.fd} - {INVALID} else {}) == Lost(f, of0, now, os)
  {}

  // What the request is told about such a directory
  lemma ClashFacts(f: File, of0: Of, now: int, os: Os, of: Of)
    requires PlainOk(f) && Clash(f, of0, now, os) && of0.err == 0 && of == Told(Ask(f, of0), Look(Ask(f, of0), os))
    ensures f.err == 0 && !f.isDir && of.err == 0 && of.isDir && of.fd == f.fd && of == Reply(f, of0, now, os)
    ensures Verdict(f, of0, now, os) == (if f.count == 0 then Served else Renew) && Lost(f, of0, now, os) == {}
  {}

  // An entry with a descriptor that is closed
  lemma Dangling(c: Cache, x: nat)
    requires x in c.files && c.files[x].fd != INVALID && c.files[x].fd !in c.open
    ensures Faults(c) != {}
  {
    NoFault(c);
  }

  // Two entries with the same descriptor
  lemma Shared(c: Cache, x: nat, y: nat)
    requires x in c.files && y in c.files && x != y && c.files[x].fd == c.files[y].fd != INVALID
    ensures Faults(c) != {}
  {
    NoFault(c);
  }

  lemma RefusedFacts(f: File, of0: Of, now: int, os: Os, of: Of)
    requires !Parked(f) && !Fresh(f, of0, now) && of == Told(Ask(f, of0), Look(Ask(f, of0), os))
        && !Wanted(Ask(f, of0), os)
    ensures of == Reply(f, of0, now, os) && Verdict(f, of0, now, os) == Refused
  {}

  lemma ParkedFacts(f: File, of0: Of, now: int, os: Os, of: Of)
    requires Parked(f) && of == Told(of0, Look(of0, os)) && os.errno != 0 && of0.fd == INVALID && of0.err == 0
    ensures of == Reply(f, of0, now, os) && Verdict(f, of0, now, os) == (if Wanted(of0, os) then Served else Refused)
    ensures Lost(f, of0, now, os) == {} && (Wanted(of0, os) ==> OfOk(of))
    ensures of.fd == INVALID || of.fd == os.open
  {}

  lemma RenewSound(c: Cache, id: nat, fd: int, c': Cache)
    requires Faults(c) == {} && id in c.queue && id in c.files && c.files[id].count > 0 && fd !in c.open
    requires c' == Unlinked(c, id).(open := c.open + ({fd} - {INVALID}), loose := c.loose + ({fd} - {INVALID}))
    ensures Faults(c') == {}
    ensures fd != INVALID ==> Unused(c.handles, fd) && fd !in c.loose
    ensures c'.files - {id} == c.files - {id}
  {
    UnlinkSound(c, id);
    var c1 := Unlinked(c, id);
    if fd != INVALID {
      Loosen(c1, fd);
      LooseOpen(c);
      assert c' == c1.(open := c1.open + {fd}, loose := c1.loose + {fd});
    } else {
      assert c' == c1;
    }
  }

  lemma LooseOpen(c: Cache)
    requires Faults(c) == {}
    ensures c.loose <= c.open && INVALID !in c.open && c.current == |c.queue| <= c.max
  {
    NoFault(c);
  }

  lemma CreatedSound(c: Cache, id: nat, raw: File, of: Of, now: int, h: nat, c': Cache)
    requires Faults(c) == {} && id !in c.files && raw.name !in c.tree && raw.count == 0 && c.current < c.max
        && c.clock <= now && h !in c.handles && OfOk(of)
    requires of.fd == INVALID || (of.fd in c.loose && of.fd >= 0 && Unused(c.handles, of.fd))
    requires c' == Created(c, id, Updated(raw, of, now), c.open, Serve(c.handles, h, id, of),
        now).(loose := c.loose - {of.fd})
    ensures Faults(c') == {}
  {
    LooseOpen(c);
    var c0 := c.(open := c.open - {of.fd}, loose := c.loose - {of.fd});
    if of.fd != INVALID {
      Tighten(c, of.fd);
    } else {
      assert c0 == c;
    }
    CreateSound(c0, id, Updated(raw, of, now), c.open, Serve(c.handles, h, id, of), now);
    assert c' == Created(c0, id, Updated(raw, of, now), c.open, Serve(c.handles, h, id, of), now);
  }

  // The new entry is sound unless another one has its descriptor.
  lemma AddedSound(c: Cache, id: nat, raw: File, of: Of, now: int, h: nat, clash: bool, x: nat, c': Cache)
    requires Faults(c) == {} && id !in c.files && raw.name !in c.tree && raw.count == 0 && c.current < c.max
        && c.clock <= now && h !in c.handles
    requires Source(c, of, clash, x)
    requires c' == Created(c, id, Updated(raw, of, now), c.open, Serve(c.handles, h, id, of),
        now).(loose := c.loose - {of.fd})
    ensures Faults(c') == {} <==> !clash
  {
    if clash { Shared(c', x, id); } else { CreatedSound(c, id, raw, of, now, h, c'); }
  }

  lemma NameFacts(c: Cache, name: string)
    requires Faults(c) == {} && name in c.tree
    ensures c.tree[name] in c.queue && c.tree[name] in c.files && c.files[c.tree[name]].name == name
  {
    NoFault(c);
  }

  lemma JudgeDecision(c: Cache, id: nat, of0: Of, now: int, os: Os, h: nat, out: Outcome, of: Of, c': Cache)
    requires id in c.files && of == Reply(c.files[id], of0, now, os)
        && out == Verdict(c.files[id], of0, now, os) != Refused && !Fresh(c.files[id], of0, now)
    requires c'.open <= c.open + {os.open}
    requires (var f := c.files[id];
              out == Served ==>
              c' == Refreshed(Used(c, id), id, Updated(f.(uses := f.uses + 1), of, now), c'.open,
                  c.loose + Lost(f, of0, now, os), Serve(c.handles, h, id, of), now))
    requires out == Served && Clash(c.files[id], of0, now, os) ==>
        of.fd == c.files[id].fd && of.err == 0 && of.fd !in c'.open
    requires (out == Renew ==>
              && c' == Dropped(Used(c, id), id).(files := c'.files, open := c'.open,
                  loose := c.loose + Fresher(c.files[id], of))
              && c'.files - {id} == Used(c, id).files - {id}
              && New(c, id, of0, now, os, of, c') && Lost(c.files[id], of0, now, os) == {})
    ensures Judge(c, id, of0, now, os, h, out, of, c') == Right
  {
    if out == Served {
      JudgeServed(c, id, of0, now, os, h, of, c'.files[id], c'.loose, c');
    } else {
      JudgeRenew(c, id, of0, now, os, h, of, c');
    }
  }

  // An entry that has been found: one more use, and out of the queue for now
  ghost function Used(c: Cache, id: nat): Cache
    requires id in c.files
  {
    c.(files := c.files[id := c.files[id].(uses := c.files[id].uses + 1)])
  }

  ghost function Taken(c: Cache, id: nat): Cache
    requires id in c.files
  {
    Used(c, id).(queue := Remove(c.queue, id))
  }

  // How a request for a file that has an entry leaves the cache
  ghost predicate Handled(c: Cache, id: nat, of0: Of, now: int, os: Os, h: nat, out: Outcome, of: Of, c': Cache) {
    && id in c.files && of == Reply(c.files[id], of0, now, os) && out == Verdict(c.files[id], of0, now, os)
    && c'.open <= c.open + {os.open}
    && match out
       case Served =>
         && id in c'.files && Holds(c'.files[id], of) && Dated(c.files[id], of0, now, c'.files[id])
         && c' == Refreshed(c, id, c'.files[id], c'.open, c.loose + Lost(c.files[id], of0, now, os),
             Serve(c.handles, h, id, of), now)
         && (Clash(c.files[id], of0, now, os) ==> of.fd == c.files[id].fd && of.err == 0 && of.fd !in c'.open)
       case Refused =>
         && c'.files - {id} == c.files - {id}
         && c' == Dropped(c, id).(files := c'.files, open := c'.open) && Lost(c.files[id], of0, now, os) == {}
       case Renew =>
         && c'.files - {id} == c.files - {id}
         && c' == Dropped(c, id).(files := c'.files, open := c'.open, loose := c.loose + Fresher(c.files[id], of))
         && New(c, id, of0, now, os, of, c') && Lost(c.files[id], of0, now, os) == {}
  }

  // What comes with a new entry: a descriptor that nobody knows, or, for a directory that clashes, the old one
  ghost predicate New(c: Cache, id: nat, of0: Of, now: int, os: Os, of: Of, c': Cache)
    requires id in c.files
  {
    if Clash(c.files[id], of0, now, os) then
      of.fd == c.files[id].fd && of.err == 0 && of.isDir && id in c'.files && c'.files[id].fd == of.fd
    else OfOk(of) && Pending(c, of.fd) && of.fd != c.files[id].fd
  }

  ghost function Judge(c: Cache, id: nat, of0: Of, now: int, os: Os, h: nat, out: Outcome, of: Of,
      c': Cache): Judgement {
    if Handled(c, id, of0, now, os, h, out, of, c') then Right else Wrong
  }

  lemma JudgeServed(c: Cache, id: nat, of0: Of, now: int, os: Os, h: nat, of: Of, g: File, l: set<int>, c': Cache)
    requires id in c.files && of == Reply(c.files[id], of0, now, os) && Verdict(c.files[id], of0, now, os) == Served
        && Holds(g, of) && Dated(c.files[id], of0, now, g)
    requires c' == Refreshed(Used(c, id), id, g, c'.open, l, Serve(c.handles, h, id, of), now)
        && c'.open <= c.open + {os.open}
    requires l == c.loose + Lost(c.files[id], of0, now, os)
    requires Clash(c.files[id], of0, now, os) ==> of.fd == c.files[id].fd && of.err == 0 && of.fd !in c'.open
    ensures Judge(c, id, of0, now, os, h, Served, of, c') == Right
  {
    assert c'.files == c.files[id := g];
  }

  lemma AnswerRight(c: Cache, id: nat, of: Of, now: int, os: Os, h: nat, c': Cache)
    requires Faults(c) == {} && id in c.queue && id in c.files && !Parked(c.files[id]) && Fresh(c.files[id], of, now)
    requires c.clock <= now && h !in c.handles && of.fd == INVALID && of.err == 0
    requires (var f := c.files[id];
              var g := f.(accessed := now, uses := f.uses + 1, count := if f.err == 0
                  && !f.isDir then f.count + 1 else f.count);
              c' == Refreshed(Used(c, id), id, g, c.open, c.loose, Serve(c.handles, h, id, Cached(f, of)), now))
    ensures Faults(c') == {} && Judge(c, id, of, now, os, h, Served, Cached(c.files[id], of), c') == Right
  {
    Use(c, id);
    AnswerSound(Used(c, id), id, of, now, h, c');
    JudgeServed(c, id, of, now, os, h, Cached(c.files[id], of), c'.files[id], c.loose, c');
  }

  lemma JudgeRefused(c: Cache, id: nat, of0: Of, now: int, os: Os, h: nat, of: Of, c': Cache)
    requires id in c.files && of == Reply(c.files[id], of0, now, os) && Verdict(c.files[id], of0, now, os) == Refused
    requires c' == Dropped(Used(c, id), id).(files := c'.files, open := c'.open) && c'.open <= c.open
    requires c'.files - {id} == Used(c, id).files - {id}
    ensures Judge(c, id, of0, now, os, h, Refused, of, c') == Right
  {
    assert c'.files - {id} == c.files - {id};
  }

  lemma JudgeRenew(c: Cache, id: nat, of0: Of, now: int, os: Os, h: nat, of: Of, c': Cache)
    requires id in c.files && of == Reply(c.files[id], of0, now, os) && Verdict(c.files[id], of0, now, os) == Renew
    requires c' == Dropped(Used(c, id), id).(files := c'.files, open := c'.open,
        loose := c.loose + Fresher(c.files[id], of))
    requires c'.open <= c.open + {os.open} && c'.files - {id} == Used(c, id).files - {id}
    requires New(c, id, of0, now, os, of, c') && Lost(c.files[id], of0, now, os) == {}
    ensures Judge(c, id, of0, now, os, h, Renew, of, c') == Right
  {
    assert c'.files - {id} == c.files - {id};
  }

  lemma OthersKept(c: Cache, name: string, files': Files)
    requires Faults(c) == {} && (if name in c.tree then files' - {c.tree[name]} == c.files - {c.tree[name]}
        else files' == c.files)
    ensures Kept(Rest(c, name), c.files, files')
  {
    if name in c.tree {
      NameFacts(c, name);
      DropKept(c, c.tree[name], files');
    } else {
      QueueInFiles(c);
    }
  }

  lemma RestSize(c: Cache, name: string)
    requires Faults(c) == {}
    ensures name in c.tree ==> |Rest(c, name)| == |c.queue| - 1 && c.tree[name] !in Rest(c, name)
  {
    NoFault(c);
    if name in c.tree { RemoveFacts(c.queue, c.tree[name]); }
  }

  lemma KeptLess(c: Cache, name: string, files1: Files, k: nat, files2: Files)
    requires Kept(Rest(c, name), c.files, files1) && k <= |Rest(c, name)|
        && Kept(Rest(c, name)[..|Rest(c, name)| - k], files1, files2)
    ensures Kept(Rest(c, name)[..|Rest(c, name)| - k], c.files, files2)
  {
    var q := Rest(c, name)[..|Rest(c, name)| - k];
    assert forall x :: x in q ==> x in Rest(c, name);
  }

  // The entries that expire are the ones that were used least recently.
  lemma ExpiredAreOldest(c: Cache, fs': Files, q': seq<nat>, k: nat, forced: nat, now: int, inactive: int, x: nat,
      y: nat)
    requires Faults(c) == {} && Expired(c.files, c.queue, fs', q', k, forced, now, inactive)
    requires x in q' && y in c.queue && y !in q'
    ensures x in c.files && y in c.files && c.files[y].accessed <= c.files[x].accessed
  {
    NoFault(c);
    var i :| 0 <= i < |q'| && q'[i] == x;
    var j :| 0 <= j < |c.queue| && c.queue[j] == y;
    assert c.queue[i] == x;
    assert forall a :: 0 <= a < |q'| ==> q'[a] == c.queue[a];
  }

  // What a request is told.  A recent entry answers, whatever the system would say.
  lemma RecentAnswers(c: Cache, name: string, of: Of, now: int, os: Os)
    requires name in c.tree && c.tree[name] in c.files && Recent(c.files[c.tree[name]], of, now)
    ensures (var f := c.files[c.tree[name]];
             && (f.err == 0 ==>
                 Answers(c, name, of, now, os) == of.(fd := f.fd, uniq := f.uniq, rest := f.rest, isDir := f.isDir))
             && (f.err != 0 ==> Answers(c, name, of, now, os) == of.(err := f.err))
             && Fate(c, name, of, now, os) == Served)
  {}

  // The descriptor that the cache has for a name, and whether a directory is expected
  function Held(c: Cache, name: string): int {
    if name in c.tree && c.tree[name] in c.files then c.files[c.tree[name]].fd else INVALID
  }

  predicate DirExpected(c: Cache, name: string, of: Of) {
    of.testDir || (name in c.tree && c.tree[name] in c.files && c.files[c.tree[name]].isDir)
  }

  // stat() sees the inode of the descriptor that the cache has for the name.
  predicate SameInode(c: Cache, name: string, os: Os) {
    name in c.tree && c.tree[name] in c.files && os.stat.Is? && os.stat.info.uniq == c.files[c.tree[name]].uniq
  }

  // What the system says of the name: an error, or what is known of the file and its descriptor
  predicate Says(r: Of, of: Of, fd: int, info: Info) {
    r.err == of.err && r.fd == fd && r.uniq == info.uniq && r.rest == info.rest && r.isDir == info.isDir
  }

  // Without a recent entry the system is asked, and the answer is what it says: when there is a descriptor, or a
  // directory is expected, a failed stat() is an error; the descriptor is kept when stat() sees its inode; an expected
  // directory is not opened; and all else is up to open() and fstat().
  lemma SystemAnswers(c: Cache, name: string, of: Of, now: int, os: Os)
    requires of.fd == INVALID && of.err == 0
    requires name in c.tree && c.tree[name] in c.files ==> !Recent(c.files[c.tree[name]], of, now)
    ensures (var r, held, dir := Answers(c, name, of, now, os), Held(c, name), DirExpected(c, name, of);
             if (held != INVALID || dir) && os.stat.Failed? then r.err == os.errno && r.fd == INVALID
             else if held != INVALID && SameInode(c, name, os) then Says(r, of, held, os.stat.info)
             else if held == INVALID && dir && os.stat.info.isDir then Says(r, of, INVALID, os.stat.info)
             else if os.open == INVALID then r.err == os.errno && r.fd == INVALID
             else if os.fstat.Failed? then r.err == 0 && r.fd == INVALID
             else Says(r, of, if os.fstat.info.isDir then INVALID else os.open, os.fstat.info))
  {}

  // The system has nothing to say but an error.
  predicate Fails(c: Cache, name: string, of: Of, os: Os) {
    var held, dir := Held(c, name), DirExpected(c, name, of);
    if (held != INVALID || dir) && os.stat.Failed? then true
    else if (held != INVALID && SameInode(c, name, os)) || (held == INVALID && dir && os.stat.info.isDir) then false
    else os.open == INVALID || os.fstat.Failed?
  }

  // What becomes of it: an error is refused unless it is to be cached and there is a number for it; a name without an
  // entry gets one, and so does a name whose entry has users that read another file than the one under the name now.
  lemma FateIs(c: Cache, name: string, of: Of, now: int, os: Os)
    requires of.fd == INVALID && of.err == 0
    requires name in c.tree && c.tree[name] in c.files ==> !Recent(c.files[c.tree[name]], of, now)
    ensures (var r, known := Answers(c, name, of, now, os), name in c.tree && c.tree[name] in c.files;
             && (Fate(c, name, of, now, os) == Refused <==> Fails(c, name, of, os) && (r.err == 0 || !of.errors))
             && (Fate(c, name, of, now, os) == Renew <==>
                 && !(Fails(c, name, of, os) && (r.err == 0 || !of.errors))
                 && (known ==> var f := c.files[c.tree[name]];
                               && (f.fd != INVALID || f.err != 0 || f.isDir) && f.count > 0
                               && (r.err != 0 || r.isDir || r.uniq != f.uniq))))
  {}

  // The loss is real: an entry with descriptor 3 for inode 7, a stat() that sees inode 8, and an open
  // that gets inode 7 again.
  lemma RaceLoses()
    ensures (var f := File("f", 0, 0, 3, 7, 0, 0, 1, 0, 0, false, false);
             var c := Cache(map[0 := f], map["f" := 0], [0], 1, 1, {3}, {}, map[], 0);
             var of := Of(INVALID, 0, 0, 0, false, false, true, 0, 0, 1);
             var os := Os(Is(Info(8, false, 0)), 4, Is(Info(7, false, 0)), 2);
             Faults(c) == {} && OsOk(os, c.open) && !Clash(f, of, 0, os) && Leaks(c, "f", of, 0, os) == {3})
  {
    var f := File("f", 0, 0, 3, 7, 0, 0, 1, 0, 0, false, false);
    var c := Cache(map[0 := f], map["f" := 0], [0], 1, 1, {3}, {}, map[], 0);
    assert Owned(c.files, 3) by { assert c.files[0].fd == 3; }
    assert Users(c.handles, 0) == {};
    NoFault(c);
  }

  // ---------- runs ----------

  // What a client asks for, when, and what the system will answer: opening a file, with the address of the cleanup and
  // that of the memory for a new entry; or the end of a request
  datatype Request =
    | Open(name: string, of: Of, now: int, os: Os, h: nat, id: nat, memory: bool, raw: File)
    | Cleanup(h: nat, now: int)

  // The times do not fall.
  ghost predicate Timely(requests: seq<Request>, clock: int) {
    && (forall i :: 0 <= i < |requests| ==> clock <= requests[i].now)
    && (forall i, j :: 0 <= i < j < |requests| ==> requests[i].now <= requests[j].now)
  }

  lemma TimelyRest(requests: seq<Request>, n: nat, clock: int)
    requires n < |requests| && Timely(requests[n..], clock)
    ensures clock <= requests[n].now
    ensures Timely(requests[n + 1..], requests[n].now)
  {
    var rest, more := requests[n..], requests[n + 1..];
    assert rest[0] == requests[n];
    forall i | 0 <= i < |more| ensures more[i] == rest[i + 1] && rest[0].now <= more[i].now {}
  }

  // stat() and the file that is then opened do not agree about the inode.
  predicate Differ(r: Request) {
    r.Open? && r.os.stat.Is? && r.os.fstat.Is? && r.os.stat.info.uniq != r.os.fstat.info.uniq
  }

  // The request g does not end among the first n.
  predicate Running(requests: seq<Request>, n: nat, g: nat)
    requires n <= |requests|
  {
    forall i :: 0 <= i < n ==> !(requests[i].Cleanup? && requests[i].h == g)
  }

  // Nobody who is still running has lost a descriptor.
  ghost predicate Holding(hs: Handles, c: Cache, requests: seq<Request>, n: nat)
    requires n <= |requests|
  {
    forall g :: g in hs && Running(requests, n, g) ==> g in c.handles && c.handles[g] == hs[g] && hs[g].fd in c.open
  }

  lemma StillHolding(hs: Handles, c: Cache, requests: seq<Request>, n: nat, c': Cache)
    requires n < |requests| && Faults(c') == {} && Holding(hs, c, requests, n)
    requires forall g :: g in c.handles && !(requests[n].Cleanup? && requests[n].h == g) ==>
        g in c'.handles && c'.handles[g] == c.handles[g]
    ensures Holding(hs, c', requests, n + 1)
  {
    forall g | g in hs && Running(requests, n + 1, g)
      ensures g in c'.handles && c'.handles[g] == hs[g] && hs[g].fd in c'.open
    {
      assert Running(requests, n, g);
      HandleOpen(c', g);
    }
  }

  lemma HandleOpen(c: Cache, h: nat)
    requires Faults(c) == {} && h in c.handles
    ensures c.handles[h].fd in c.open
  {
    NoFault(c);
    assert HandleOk(c, c.handles[h]);
  }

  function Union(s: seq<set<int>>): set<int> {
    if s == [] then {} else Union(s[..|s| - 1]) + s[|s| - 1]
  }

  // So is the other failure: stat() sees a directory with inode number 7.
  lemma ClashDoubles()
    ensures (var f := File("f", 0, 0, 3, 7, 0, 0, 1, 0, 0, false, false);
             var c := Cache(map[0 := f], map["f" := 0], [0], 1, 1, {3}, {}, map[], 0);
             var of := Of(INVALID, 0, 0, 0, false, false, true, 0, 0, 1);
             var os := Os(Is(Info(7, true, 0)), 4, Failed, 2);
             && Faults(c) == {} && OsOk(os, c.open) && Clashes(c, "f", of, 0, os)
             && Answers(c, "f", of, 0, os).fd == 3 && Answers(c, "f", of, 0, os).isDir
                 && Fate(c, "f", of, 0, os) == Served)
  {
    var f := File("f", 0, 0, 3, 7, 0, 0, 1, 0, 0, false, false);
    var c := Cache(map[0 := f], map["f" := 0], [0], 1, 1, {3}, {}, map[], 0);
    assert Owned(c.files, 3) by { assert c.files[0].fd == 3; }
    assert Users(c.handles, 0) == {};
    NoFault(c);
  }

  class OpenFileCache {
    var files: Files               // the entries in memory, by address
    var tree: map<string, nat>
    var queue: seq<nat>            // the expire queue, most recently used entry first
    var current: int
    const max: nat
    const inactive: int
    var handles: Handles           // the cleanups in the pools of the requests
    var open: set<int>             // the descriptors that the operating system holds open
    ghost var loose: set<int>
    ghost var clock: int

    ghost function View(): Cache
      reads this
    {
      Cache(files, tree, queue, current, max, open, loose, handles, clock)
    }

    ghost predicate Valid()
      reads this
    {
      Faults(View()) == {}
    }

    // ngx_open_file_cache_init
    constructor (max: nat, inactive: int, now: int)
      requires max >= 1
      ensures Valid() && files == map[] && handles == map[] && open == {} && loose == {} && clock == now
      ensures this.max == max && this.inactive == inactive
    {
      this.max, this.inactive := max, inactive;
      files, tree, queue, current, handles := map[], map[], [], 0, map[];
      open, loose, clock := {}, {}, now;
      new;
      NoFault(View());
    }

    // ngx_close_file: a descriptor is closed once
    method CloseFile(fd: int)
      requires fd in open
      modifies this`open
      ensures open == old(open) - {fd}
    {
      open := open - {fd};
    }

    // ngx_open_and_stat_file
    method OpenAndStat(of0: Of, os: Os) returns (ok: bool, of: Of)
      requires OsOk(os, open) && of0.err == 0 && (of0.fd == INVALID || of0.fd in open)
      modifies this`open
      ensures ok == Look(of0, os).Something? && of == Told(of0, Look(of0, os))
      ensures open == old(open) + (if of.fd == of0.fd then {} else {of.fd} - {INVALID})
    {
      of := of0;
      if of.fd != INVALID {
        if os.stat.Failed? { return false, of.(fd := INVALID, err := os.errno); }
        if of.uniq == os.stat.info.uniq {
          return true, of.(uniq := os.stat.info.uniq, rest := os.stat.info.rest, isDir := os.stat.info.isDir);
        }
      } else if of.testDir {
        if os.stat.Failed? { return false, of.(fd := INVALID, err := os.errno); }
        if os.stat.info.isDir {
          return true, of.(uniq := os.stat.info.uniq, rest := os.stat.info.rest, isDir := true);
        }
      }
      if os.open == INVALID { return false, of.(fd := INVALID, err := os.errno); }
      open := open + {os.open};
      if os.fstat.Failed? {
        CloseFile(os.open);
        return false, of.(fd := INVALID);
      }
      var info := os.fstat.info;
      if info.isDir {
        CloseFile(os.open);
        of := of.(fd := INVALID);
      } else {
        of := of.(fd := os.open);
      }
      return true, of.(uniq := info.uniq, rest := info.rest, isDir := info.isDir);
    }

    // ngx_close_cached_file
    method CloseCachedFile(id: nat, minUses: nat, now: int)
      requires id in files && (files[id].count == 0 && files[id].fd != INVALID ==> files[id].fd in open)
      modifies this`files, this`queue, this`open
      ensures (var f := old(files[id]); var idle := f.count == 0 && (f.close || f.uses < minUses);
               && queue == (if f.close then old(queue) else [id] + Remove(old(queue), id))
               && open == (if idle then old(open) - ({f.fd} - {INVALID}) else old(open))
               && files == (if f.close then if idle then old(files) - {id} else old(files)
                            else old(files)[id := f.(accessed := now, fd := if idle then INVALID else f.fd)]))
    {
      if !files[id].close {
        files := files[id := files[id].(accessed := now)];
        queue := Remove(queue, id);
        queue := [id] + queue;
        if files[id].uses >= minUses || files[id].count > 0 { return; }
      }
      if files[id].count > 0 { return; }
      if files[id].fd != INVALID {
        CloseFile(files[id].fd);
        files := files[id := files[id].(fd := INVALID)];
      }
      if !files[id].close { return; }
      files := files - {id};
    }

    // One turn of the loop in ngx_expire_old_cached_files, once it is known that the last entry goes
    method ExpireLast(now: int)
      requires Valid() && queue != []
      modifies this`files, this`tree, this`queue, this`current, this`open
      ensures Valid() && queue == old(queue)[..|old(queue)| - 1] && open <= old(open)
      ensures files.Keys <= old(files).Keys && tree.Keys <= old(tree).Keys
      ensures Kept(queue, old(files), files) && Staying(old(View()), files) == Right
    {
      ghost var c := View();
      var id := queue[|queue| - 1];
      LastFacts(c, id);
      var f := files[id];
      queue := Remove(queue, id);
      tree := tree - {f.name};
      current := current - 1;
      if f.err == 0 && !f.isDir {
        files := files[id := f.(close := true)];
        CloseCachedFile(id, 0, now);
      } else {
        files := files - {id};
      }
      ExpireStep(c, id, View());
    }

    // ngx_expire_old_cached_files
    method Expire(n0: nat, now: int) returns (ghost k: nat)
      requires Valid() && n0 <= 1
      modifies this`files, this`tree, this`queue, this`current, this`open
      ensures Valid() && open <= old(open) && files.Keys <= old(files).Keys && tree.Keys <= old(tree).Keys
      ensures n0 + k <= 3 && Expired(old(files), old(queue), files, queue, k, 1 - n0, now, inactive)
      ensures n0 == 0 && old(queue) != [] ==> k >= 1
      ensures Staying(old(View()), files) == Right
      ensures n0 + k < 3 && queue != [] ==>
          queue[|queue| - 1] in files && now - files[queue[|queue| - 1]].accessed <= inactive
    {
      var n := n0;
      k := 0;
      ghost var c := View();
      GoneNone(c, 1 - n0, now, inactive);
      while n < 3
        invariant n == n0 + k <= 3
        invariant Valid() && open <= old(open) && files.Keys <= old(files).Keys && tree.Keys <= old(tree).Keys
        invariant Gone(c, files, queue, k, 1 - n0, now, inactive) == Right
      {
        if queue == [] { return; }
        var id := queue[|queue| - 1];
        LastFacts(View(), id);
        if n != 0 && now - files[id].accessed <= inactive { return; }
        n := n + 1;
        ghost var c' := View();
        ExpireLast(now);
        GoneMore(c, c', files, k, 1 - n0, now, inactive);
        k := k + 1;
      }
    }

    // The first two steps of ngx_open_file_cleanup
    method Leave(h: nat, now: int)
      requires Valid() && h in handles && clock <= now
      modifies this`files, this`queue, this`open, this`handles, this`clock
      ensures Valid() && Departed(old(View()), h, now, View())
    {
      ghost var c := View();
      HandleFacts(c, h);
      var k := handles[h];
      handles := handles - {h};
      files := files[k.file := files[k.file].(count := files[k.file].count - 1)];
      clock := now;
      CloseCachedFile(k.file, k.minUses, now);
      LeaveSound(c, h, now, View());
    }

    // ngx_open_file_cleanup: the request h is done with its file
    method Cleanup(h: nat, now: int) returns (ghost c1: Cache, ghost k: nat)
      requires Valid() && h in handles && clock <= now
      modifies this`files, this`tree, this`queue, this`current, this`open, this`handles, this`clock
      ensures Valid() && handles == old(handles) - {h} && clock == now && open <= old(open)
      ensures Departed(old(View()), h, now, c1) && k <= 2 && Expired(c1.files, c1.queue, files, queue, k, 0, now,
          inactive)
      ensures k < 2 && queue != [] ==>
          queue[|queue| - 1] in files && now - files[queue[|queue| - 1]].accessed <= inactive
    {
      Leave(h, now);
      c1 := View();
      k := Expire(1, now);
    }

    // The label `update`, then `found`
    method Update(id: nat, of: Of, now: int, h: nat)
      requires id in files
      modifies this`files, this`queue, this`handles, this`clock
      ensures files == old(files)[id := Updated(old(files[id]), of, now)]
      ensures queue == [id] + old(queue) && handles == Serve(old(handles), h, id, of) && clock == now
    {
      var f := files[id].(fd := of.fd, err := of.err, symlinks := of.symlinks);
      if of.err == 0 {
        f := f.(uniq := of.uniq, rest := of.rest, close := false, isDir := of.isDir);
        if !of.isDir { f := f.(count := f.count + 1); }
      }
      files := files[id := f.(created := now)];
      Finish(id, of, now, h);
    }

    // The label `found`
    method Finish(id: nat, of: Of, now: int, h: nat)
      requires id in files
      modifies this`files, this`queue, this`handles, this`clock
      ensures files == old(files)[id := old(files[id]).(accessed := now)]
      ensures queue == [id] + old(queue) && handles == Serve(old(handles), h, id, of) && clock == now
    {
      files := files[id := files[id].(accessed := now)];
      queue := [id] + queue;
      clock := now;
      if of.err == 0 && !of.isDir { handles := handles[h := Handle(id, of.fd, of.minUses)]; }
    }

    // The label `failed` with an entry that is already out of the queue
    method Refuse(ghost c: Cache, id: nat)
      requires Faults(c) == {} && id in c.queue && id in c.files && View() == c.(queue := Remove(c.queue, id))
      modifies this`files, this`tree, this`current, this`open
      ensures Valid() && View() == Dropped(c, id).(files := files, open := open) && files - {id} == c.files - {id}
          && open <= c.open
    {
      EntryFacts(c, id);
      tree := tree - {files[id].name};
      current := current - 1;
      if files[id].count == 0 {
        if files[id].fd != INVALID { CloseFile(files[id].fd); }
        files := files - {id};
      } else {
        files := files[id := files[id].(close := true)];
      }
      DropSound(c, id, View());
    }

    // The entry is served from the cache.
    method Answer(ghost c: Cache, id: nat, of0: Of, now: int, ghost os: Os, h: nat) returns (of: Of)
      requires Faults(c) == {} && id in c.queue && id in c.files && View() == Taken(c, id)
      requires !Parked(c.files[id]) && Fresh(c.files[id], of0, now) && c.clock <= now && h !in c.handles
          && of0.fd == INVALID && of0.err == 0
      modifies this`files, this`queue, this`handles, this`clock
      ensures Valid() && Judge(c, id, of0, now, os, h, Served, of, View()) == Right
    {
      of := of0;
      var f := files[id];
      if f.err == 0 {
        of := of.(fd := f.fd, uniq := f.uniq, rest := f.rest, isDir := f.isDir);
        if !f.isDir { files := files[id := f.(count := f.count + 1)]; }
      } else {
        of := of.(err := f.err);
      }
      Finish(id, of, now, h);
      AnswerRight(c, id, of0, now, os, h, View());
    }

    // A file that was closed because it was not used often enough is opened again.
    method Reopen(ghost c: Cache, id: nat, of0: Of, now: int, os: Os, h: nat) returns (out: Outcome, of: Of)
      requires Faults(c) == {} && id in c.queue && id in c.files && View() == Taken(c, id)
      requires Parked(c.files[id]) && c.clock <= now && h !in c.handles && of0.fd == INVALID && of0.err == 0
          && OsOk(os, open)
      modifies this`files, this`tree, this`queue, this`current, this`open, this`handles, this`clock
      ensures Valid() && Judge(c, id, of0, now, os, h, out, of, View()) == Right
    {
      Use(c, id);
      ghost var c1 := Used(c, id);
      EntryFacts(c1, id);
      var ok;
      ok, of := OpenAndStat(of0, os);
      ParkedFacts(c.files[id], of0, now, os, of);
      if !ok && (of.err == 0 || !of.errors) {
        Refuse(c1, id);
        JudgeRefused(c, id, of0, now, os, h, of, View());
        return Refused, of;
      }
      Update(id, of, now, h);
      UpdateSound(c1, id, of, now, h, View());
      JudgeServed(c, id, of0, now, os, h, of, files[id], loose, View());
      return Served, of;
    }

    // What becomes of the entry once the file has been looked at again: it is updated, with its old
    // descriptor closed if the file is another one, or it is left to its users.
    method Resolve(ghost c: Cache, id: nat, of: Of, keep: bool, now: int, h: nat) returns (out: Outcome)
      requires Faults(c) == {} && id in c.queue && id in c.files && c.clock <= now && h !in c.handles
      requires (var f := c.files[id];
                && View() == c.(queue := Remove(c.queue, id),
                    open := c.open + (if of.fd == f.fd then {} else {of.fd} - {INVALID}))
                && PlainOk(f) && (of.fd == f.fd || (of.fd !in c.open && of.fd >= INVALID))
                && (if keep then f.fd == INVALID || of.fd != INVALID else f.fd != INVALID)
                && (if keep || of.fd != f.fd then OfOk(of) else of.err == 0 && of.isDir))
      modifies this`files, this`tree, this`queue, this`current, this`open, this`loose, this`handles, this`clock
      ensures Valid() <==> keep || of.fd != c.files[id].fd || out == Renew
      ensures open <= c.open + ({of.fd} - {INVALID})
      ensures !keep && of.fd == c.files[id].fd ==> open == if out == Served then c.open - {of.fd} else c.open
      ensures out == (if keep || c.files[id].count == 0 then Served else Renew)
      ensures (out == Served ==>
               View() == Refreshed(c, id, Updated(c.files[id], of, now), open,
                                   c.loose + (if keep && of.fd != c.files[id].fd then {c.files[id].fd} - {INVALID}
                                       else {}),
                                   Serve(c.handles, h, id, of), now))
      ensures out == Renew ==> View() == Dropped(c, id).(files := files, open := open,
          loose := c.loose + Fresher(c.files[id], of))
      ensures out == Renew ==> files - {id} == c.files - {id} && id in files && files[id].fd == c.files[id].fd
      ensures out == Renew && of.fd != c.files[id].fd ==> Pending(c, of.fd)
    {
      EntryFacts(c, id);
      var f := files[id];
      if keep {
        loose := loose + (if of.fd != f.fd then {f.fd} - {INVALID} else {});
      } else if f.count == 0 {
        CloseFile(f.fd);
      } else {
        tree := tree - {f.name};
        current := current - 1;
        files := files[id := f.(close := true)];
        loose := loose + Fresher(f, of);
        RenewSound(c, id, if of.fd == f.fd then INVALID else of.fd, View());
        return Renew;
      }
      Update(id, of, now, h);
      if keep || of.fd != f.fd {
        UpdateSound(c, id, of, now, h, View());
      } else {
        Dangling(View(), id);
      }
      return Served;
    }

    // The entry goes on when it had no descriptor, or when the file is still the same.
    method Decide(ghost c: Cache, id: nat, ghost of0: Of, of: Of, now: int, ghost os: Os, h: nat) returns (out: Outcome)
      requires Faults(c) == {} && id in c.queue && id in c.files && c.clock <= now && h !in c.handles && of0.err == 0
      requires !Parked(c.files[id]) && !Fresh(c.files[id], of0, now) && OsOk(os, c.open)
      requires Wanted(Ask(c.files[id], of0), os) && of == Told(Ask(c.files[id], of0), Look(Ask(c.files[id], of0), os))
      requires View() == Taken(c, id).(open := c.open + (if of.fd == c.files[id].fd then {} else {of.fd} - {INVALID}))
      modifies this`files, this`tree, this`queue, this`current, this`open, this`loose, this`handles, this`clock
      ensures Judge(c, id, of0, now, os, h, out, of, View()) == Right
      ensures Valid() <==> out == Renew || !Clash(c.files[id], of0, now, os)
    {
      Use(c, id);
      EntryFacts(c, id);
      ghost var clash := Clash(c.files[id], of0, now, os);
      var f := files[id];
      var keep := f.err != 0 || f.isDir;
      if !of.isDir && of.err == 0 { keep := keep || of.uniq == f.uniq; }
      if clash { ClashFacts(c.files[id], of0, now, os, of); } else { RetestFacts(c.files[id], of0, now, os, of, keep); }
      ghost var lost := if keep && of.fd != c.files[id].fd then {c.files[id].fd} - {INVALID} else {};
      assert lost == Lost(c.files[id], of0, now, os);
      assert clash <==> !keep && of.fd == c.files[id].fd;
      out := Resolve(Used(c, id), id, of, keep, now, h);
      assert out == Served ==> loose == c.loose + lost;
      assert open <= c.open + {os.open} by {
        assert open <= c.open + ({of.fd} - {INVALID}) && (of.fd in c.open || of.fd == INVALID || of.fd == os.open);
      }
      JudgeDecision(c, id, of0, now, os, h, out, of, View());
    }

    // The entry is too old to be trusted: the file is looked at again.
    method Retest(ghost c: Cache, id: nat, of0: Of, now: int, os: Os, h: nat) returns (out: Outcome, of: Of)
      requires Faults(c) == {} && id in c.queue && id in c.files && View() == Taken(c, id)
      requires !Parked(c.files[id]) && !Fresh(c.files[id], of0, now) && c.clock <= now && h !in c.handles
          && of0.fd == INVALID && of0.err == 0
      requires OsOk(os, open)
      modifies this`files, this`tree, this`queue, this`current, this`open, this`loose, this`handles, this`clock
      ensures Valid() <==> out != Served || !Clash(c.files[id], of0, now, os)
      ensures Judge(c, id, of0, now, os, h, out, of, View()) == Right
    {
      Use(c, id);
      ghost var c1 := Used(c, id);
      EntryFacts(c1, id);
      var f := files[id];
      of := of0;
      if f.isDir { of := of.(testDir := true); }
      of := of.(fd := f.fd, uniq := f.uniq);
      var ok;
      ok, of := OpenAndStat(of, os);
      if !ok && (of.err == 0 || !of.errors) {
        RefusedFacts(c.files[id], of0, now, os, of);
        Refuse(c1, id);
        JudgeRefused(c, id, of0, now, os, h, of, View());
        return Refused, of;
      }
      out := Decide(c, id, of0, of, now, os, h);
    }

    // The label `create`: the k entries at the end of the queue go when the cache is full.
    method MakeRoom(now: int) returns (ghost k: nat)
      requires Valid() && max >= 1
      modifies this`files, this`tree, this`queue, this`current, this`open
      ensures Valid() && current < max && open <= old(open) && files.Keys <= old(files).Keys
          && tree.Keys <= old(tree).Keys
      ensures k <= |old(queue)| && queue == old(queue)[..|old(queue)| - k] && Kept(queue, old(files), files)
      ensures if old(current) < max then k == 0 else 1 <= k <= 3
      ensures Staying(old(View()), files) == Right
    {
      k := 0;
      QueueInFiles(View());
      LooseOpen(View());
      if current >= max {
        k := Expire(0, now);
        LooseOpen(View());
      }
    }

    // The new entry
    method AddEntry(name: string, of: Of, now: int, h: nat, id: nat, raw: File, ghost clash: bool, ghost x: nat)
      requires Valid() && clock <= now && h !in handles && name !in tree && id !in files && current < max
      requires Source(View(), of, clash, x)
      modifies this`files, this`tree, this`queue, this`current, this`loose, this`handles, this`clock
      ensures Valid() <==> !clash
      ensures loose == old(loose) - {of.fd} && tree == old(tree)[name := id] && queue == [id] + old(queue)
      ensures files == old(files)[id := Updated(raw.(name := name, uses := 1, count := 0), of, now)]
      ensures handles == Serve(old(handles), h, id, of) && clock == now
    {
      ghost var c := View();
      files := files[id := raw.(name := name, uses := 1, count := 0)];
      tree := tree[name := id];
      current := current + 1;
      Update(id, of, now, h);
      loose := loose - {of.fd};
      AddedSound(c, id, raw.(name := name, uses := 1, count := 0), of, now, h, clash, x, View());
    }

    // The label `create`, and `failed` when there is no memory
    method CreateEntry(name: string, of: Of, now: int, h: nat, id: nat, memory: bool, raw: File, ghost clash: bool,
        ghost x: nat)
      returns (ok: bool, ghost k: nat)
      requires Valid() && clock <= now && h !in handles && name !in tree && id !in files && max >= 1
      requires Source(View(), of, clash, x)
      modifies this`files, this`tree, this`queue, this`current, this`open, this`loose, this`handles, this`clock
      ensures Valid() <==> !clash
      ensures clash ==> x in files && x != id && files[x].fd == of.fd && (!memory ==> of.fd !in open)
      ensures ok == (memory && of.err == 0) && loose == old(loose) - {of.fd} && open <= old(open)
      ensures k <= |old(queue)| && Kept(old(queue)[..|old(queue)| - k], old(files), files)
      ensures if old(current) < max then k == 0 else 1 <= k <= 3
      ensures memory ==> id in files && files[id] == Updated(raw.(name := name, uses := 1, count := 0), of, now)
      ensures memory ==> name in tree && tree[name] == id && queue == [id] + old(queue)[..|old(queue)| - k]
      ensures memory ==> handles == Serve(old(handles), h, id, of) && clock == now
      ensures !memory ==>
          handles == old(handles) && queue == old(queue)[..|old(queue)| - k] && clock == old(clock) && name !in tree
    {
      k := MakeRoom(now);
      assert Stay(old(View()), files);
      SourceFacts(View(), of, clash, x);
      ok := memory && of.err == 0;
      if memory {
        AddEntry(name, of, now, h, id, raw, clash, x);
      } else if of.fd != INVALID {
        ghost var c := View();
        LooseOpen(c);
        CloseFile(of.fd);
        loose := loose - {of.fd};
        if clash { Dangling(View(), x); } else { Tighten(c, of.fd); }
      } else {
        LooseOpen(View());
      }
    }

    // There is an entry for the name.
    method Revisit(id: nat, of0: Of, now: int, os: Os, h: nat) returns (out: Outcome, of: Of)
      requires Valid() && clock <= now && h !in handles && OsOk(os, open) && of0.fd == INVALID && of0.err == 0
      requires id in queue && id in files
      modifies this`files, this`tree, this`queue, this`current, this`open, this`loose, this`handles, this`clock
      ensures Valid() <==> out != Served || !Clash(old(files[id]), of0, now, os)
      ensures Judge(old(View()), id, of0, now, os, h, out, of, View()) == Right
    {
      ghost var c := View();
      files := files[id := files[id].(uses := files[id].uses + 1)];
      queue := Remove(queue, id);
      if Parked(files[id]) {
        out, of := Reopen(c, id, of0, now, os, h);
      } else if Fresh(files[id], of0, now) {
        of := Answer(c, id, of0, now, os, h);
        out := Served;
      } else {
        out, of := Retest(c, id, of0, now, os, h);
      }
    }

    // There is no entry for the name.
    method Visit(of0: Of, os: Os) returns (ok: bool, of: Of)
      requires Valid() && OsOk(os, open) && of0.fd == INVALID && of0.err == 0
      modifies this`open, this`loose
      ensures Valid() && of == Told(of0, Look(of0, os)) && ok == Wanted(of0, os)
      ensures open <= old(open) + {os.open} && loose == old(loose) + ({of.fd} - {INVALID})
      ensures ok ==> OfOk(of)
      ensures Pending(old(View()), of.fd)
    {
      ghost var c := View();
      LooseOpen(c);
      ok, of := OpenAndStat(of0, os);
      if !ok { ok := of.err != 0 && of.errors; }
      loose := loose + ({of.fd} - {INVALID});
      if of.fd != INVALID {
        Loosen(c, of.fd);
        assert View() == c.(open := c.open + {of.fd}, loose := c.loose + {of.fd});
      } else {
        assert View() == c;
      }
    }

    // ngx_open_cached_file up to the label `create`
    method Seek(name: string, of0: Of, now: int, os: Os, h: nat) returns (out: Outcome, of: Of)
      requires Valid() && clock <= now && h !in handles && OsOk(os, open) && of0.fd == INVALID && of0.err == 0
      modifies this`files, this`tree, this`queue, this`current, this`open, this`loose, this`handles, this`clock
      ensures Valid() <==> out != Served || !Clashes(old(View()), name, of0, now, os)
      ensures open <= old(open) + {os.open} && files.Keys <= old(files).Keys
      ensures of == Answers(old(View()), name, of0, now, os) && out == Fate(old(View()), name, of0, now, os)
      ensures Kept(Rest(old(View()), name), old(files), files)
      ensures out == Served ==> name in tree && tree[name] in files && Holds(files[tree[name]], of)
      ensures out == Served ==> Stamped(old(View()), name, of0, now, Served, files[tree[name]]) && clock == now
      ensures out == Served ==>
          handles == Serve(old(handles), h, tree[name], of) && queue == [tree[name]] + Rest(old(View()), name)
      ensures out != Served ==>
          clock == old(clock) && handles == old(handles) && queue == Rest(old(View()), name) && name !in tree
      ensures Clashes(old(View()), name, of0, now, os) && out == Served
          ==> Doubled(old(View()), name, of, 0, false, View())
      ensures out == Renew ==> Leaks(old(View()), name, of0, now, os) == {}
      ensures out == Renew ==> Arrived(old(View()), name, Clashes(old(View()), name, of0, now, os), of, View())
      ensures out != Renew ==> loose == old(loose) + Leaks(old(View()), name, of0, now, os)
    {
      ghost var c := View();
      if name in tree {
        var file := tree[name];
        NameFacts(c, name);
        out, of := Revisit(file, of0, now, os, h);
        RestSize(c, name);
        assert Handled(c, file, of0, now, os, h, out, of, View());
        assert forall x :: x in files && x != file ==> x in c.files - {file};
      } else {
        var ok;
        ok, of := Visit(of0, os);
        out := if ok then Renew else Refused;
      }
      OthersKept(c, name, files);
    }

    // ngx_open_cached_file with a cache, for a request that has no cleanup in its pool for it yet.
    // `id` and `raw` are the address and the contents of the memory for a new entry.
    method Open(name: string, of0: Of, now: int, os: Os, h: nat, id: nat, memory: bool, raw: File)
      returns (ok: bool, of: Of, ghost k: nat)
      requires Valid() && max >= 1 && clock <= now && h !in handles && id !in files && OsOk(os, open)
      modifies this`files, this`tree, this`queue, this`current, this`open, this`loose, this`handles, this`clock
      ensures Valid() <==> !Clashes(old(View()), name, of0.(fd := INVALID, err := 0), now, os)
      ensures Clashes(old(View()), name, of0.(fd := INVALID, err := 0), now, os)
          ==> Doubled(old(View()), name, of, id, memory, View())
      ensures open <= old(open) + {os.open}
      ensures loose == old(loose) + Leaks(old(View()), name, of0.(fd := INVALID, err := 0), now, os)
      ensures of == Answers(old(View()), name, of0.(fd := INVALID, err := 0), now, os)
      ensures (var fate := Fate(old(View()), name, of0.(fd := INVALID, err := 0), now, os);
               ok == (of.err == 0 && (fate == Served || (fate == Renew && memory))))
      ensures (var fate := Fate(old(View()), name, of0.(fd := INVALID, err := 0), now, os);
               && (name in tree <==> fate == Served || (fate == Renew && memory))
               && (name in tree ==> tree[name] in files && Holds(files[tree[name]], of))
               && (name in tree ==> Stamped(old(View()), name, of0, now, fate, files[tree[name]])))
      ensures clock <= now
      ensures ok ==> name in tree
      ensures handles == if ok && !of.isDir then old(handles)[h := Handle(tree[name], of.fd, of.minUses)]
          else old(handles)
      ensures Moved(old(View()), name, k, View())
    {
      k := 0;
      of := of0.(fd := INVALID, err := 0);
      ghost var c := View();
      ghost var clash := Clashes(c, name, of, now, os);
      LooseOpen(c);
      var out;
      out, of := Seek(name, of, now, os, h);
      if out != Renew { return out == Served && of.err == 0, of, k; }
      ok, k := Enter(c, name, of, now, h, id, memory, raw, clash);
    }

    // The rest of it: a new entry
    method Enter(ghost c: Cache, name: string, of: Of, now: int, h: nat, id: nat, memory: bool, raw: File,
        ghost clash: bool)
      returns (ok: bool, ghost k: nat)
      requires Faults(c) == {} && Valid() && clock == c.clock <= now && handles == c.handles && h !in handles
          && max == c.max >= 1
      requires id !in c.files && files.Keys <= c.files.Keys && name !in tree
      requires queue == Rest(c, name) && Kept(queue, c.files, files) && Arrived(c, name, clash, of, View())
      modifies this`files, this`tree, this`queue, this`current, this`open, this`loose, this`handles, this`clock
      ensures Valid() <==> !clash
      ensures clash ==> Doubled(c, name, of, id, memory, View())
      ensures open <= old(open) && loose == c.loose && ok == (memory && of.err == 0)
      ensures name in tree <==> memory
      ensures name in tree ==> tree[name] in files && Holds(files[tree[name]], of)
      ensures name in tree ==> Stamped(c, name, of, now, Renew, files[tree[name]])
      ensures clock <= now
      ensures handles == if ok && !of.isDir then c.handles[h := Handle(tree[name], of.fd, of.minUses)] else c.handles
      ensures Moved(c, name, k, View())
    {
      ghost var files1 := files;
      SourceFacts(View(), of, clash, if clash then c.tree[name] else 0);
      LooseOpen(View());
      LooseOpen(c);
      RestSize(c, name);
      ok, k := CreateEntry(name, of, now, h, id, memory, raw, clash, if clash then c.tree[name] else 0);
      KeptLess(c, name, files1, k, files);
    }

    // A request can be made: its cleanup is not there yet, or is; new memory is new, and so is a new descriptor.
    predicate Possible(r: Request)
      reads this
    {
      match r
      case Open(_, _, _, os, h, id, _, _) => h !in handles && id !in files && OsOk(os, open)
      case Cleanup(h, _) => h in handles
    }

    predicate Clashing(r: Request)
      reads this
    {
      r.Open? && r.name in tree && tree[r.name] in files
      && Clash(files[tree[r.name]], r.of.(fd := INVALID, err := 0), r.now, r.os)
    }

    // One request, whatever the system answers; gone is the descriptor that gets lost.
    method Answering(r: Request) returns (ghost gone: set<int>)
      requires Valid() && max >= 1 && clock <= r.now && Possible(r) && !Clashing(r)
      modifies this`files, this`tree, this`queue, this`current, this`open, this`loose, this`handles, this`clock
      ensures Valid() && clock <= r.now && loose == old(loose) + gone
      ensures gone == if r.Open? then Leaks(old(View()), r.name, r.of.(fd := INVALID, err := 0), r.now, r.os) else {}
      ensures forall g :: g in old(handles) && !(r.Cleanup? && r.h == g) ==>
          g in handles && handles[g] == old(handles)[g]
    {
      match r {
        case Open(name, of, now, os, h, id, memory, raw) =>
          gone := Leaks(View(), name, of.(fd := INVALID, err := 0), now, os);
          var ok, of';
          ghost var k;
          ok, of', k := Open(name, of, now, os, h, id, memory, raw);
        case Cleanup(h, now) =>
          gone := {};
          ghost var c1, k := Cleanup(h, now);
      }
    }

    // The request in its place in a run
    method Next(requests: seq<Request>, n: nat, ghost hs: Handles) returns (ghost gone: set<int>)
      requires Valid() && max >= 1 && n < |requests| && Timely(requests[n..], clock)
      requires Possible(requests[n]) && !Clashing(requests[n]) && Holding(hs, View(), requests, n)
      modifies this`files, this`tree, this`queue, this`current, this`open, this`loose, this`handles, this`clock
      ensures Valid() && Timely(requests[n + 1..], clock) && Holding(hs, View(), requests, n + 1)
      ensures loose == old(loose) + gone && (gone != {} ==> Differ(requests[n]))
    {
      ghost var c := View();
      TimelyRest(requests, n, clock);
      gone := Answering(requests[n]);
      StillHolding(hs, c, requests, n, View());
    }

    // Any run of opens and cleanups whose times do not fall: the cache is valid after each of the first n requests,
    // which are all of them unless the next one is not possible or clashes.  A request that is still running has
    // the descriptor that it had, and it is open.  A descriptor gets lost only where stat() and open do not agree.
    method Run(requests: seq<Request>) returns (n: nat, ghost lost: seq<set<int>>)
      requires Valid() && max >= 1 && Timely(requests, clock)
      modifies this`files, this`tree, this`queue, this`current, this`open, this`loose, this`handles, this`clock
      ensures Valid() && n == |lost| <= |requests| && Timely(requests[n..], clock)
      ensures n < |requests| ==> !Possible(requests[n]) || Clashing(requests[n])
      ensures Holding(old(handles), View(), requests, n)
      ensures loose == old(loose) + Union(lost) && forall i :: 0 <= i < n && lost[i] != {} ==> Differ(requests[i])
    {
      n, lost := 0, [];
      ghost var hs := handles;
      forall g | g in handles ensures handles[g].fd in open { HandleOpen(View(), g); }
      while n < |requests|
        invariant Valid() && n <= |requests| && |lost| == n && Timely(requests[n..], clock)
        invariant Holding(hs, View(), requests, n)
        invariant loose == old(loose) + Union(lost) && forall i :: 0 <= i < n && lost[i] != {} ==> Differ(requests[i])
      {
        if !Possible(requests[n]) || Clashing(requests[n]) { return; }
        ghost var gone := Next(requests, n, hs);
        lost := lost + [gone];
        n := n + 1;
      }
    }
  }
}
