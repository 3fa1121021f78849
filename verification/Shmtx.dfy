/** ngx_shmtx.c with atomic operations: any number of processes, one lock word, one count of
    waiters and one semaphore.  Every atomic operation of the code is one step. */
module Shmtx {
  // The pid of a process; 0 is the lock word of a free lock.
  type Pid = p: int | p > 0 witness 1

  // Where a process is: between the atomic operations of ngx_shmtx_trylock, _lock, _unlock,
  // _force_unlock and _wakeup.
  datatype Pc =
    | Idle                        // outside, not holding the lock
    | Holding                     // between lock and unlock
    | TryCas                      // trylock, 65: the lock word was 0
    | LockRead(i: nat)            // lock, 78 and 90: about to read the lock word, after i pauses
    | LockCas(i: nat)             // lock, 78 and 91: the lock word was 0
    | AddWait                     // lock, 101
    | WaitRead                    // lock, 103: registered as a waiter
    | WaitCas                     // lock, 103: the lock word was 0
    | SubWait                     // lock, 104: took the lock, still registered
    | Asleep                      // lock, 111: in sem_wait
    | UnlockCas                   // unlock, 143
    | ForceCas(target: Pid)       // force_unlock, 155
    | WakeRead                    // wakeup, 176
    | WakeCas(seen: int)          // wakeup, 182: the count was seen > 0
    | WakePost                    // wakeup, 190
    | Dead(last: Pc)              // the process died at `last`

  // spins: how often the lock word is looked at after a pause; semaphore: whether sem_init succeeded.
  datatype Config = Config(spins: nat, semaphore: bool)

  datatype State = State(lock: int, wait: int, sem: nat, pc: map<Pid, Pc>)

  ghost predicate Init(s: State) {
    && s.lock == 0 && s.wait == 0 && s.sem == 0
    && forall p :: p in s.pc ==> s.pc[p] == Idle
  }

  function Goto(s: State, p: Pid, pc: Pc): State {
    s.(pc := s.pc[p := pc])
  }

  // Where lock goes after a failed attempt to take the lock at the i-th look.
  function Retry(c: Config, i: nat): Pc {
    if i < c.spins then LockRead(i + 1) else if c.semaphore then AddWait else LockRead(0)
  }

  // The result of the next atomic operation of process p, for the steps that have only one.
  function Run(c: Config, s: State, p: Pid): State
    requires p in s.pc
  {
    match s.pc[p]
    case TryCas => if s.lock == 0 then Goto(s, p, Holding).(lock := p) else Goto(s, p, Idle)
    case LockRead(i) => Goto(s, p, if s.lock == 0 then LockCas(i) else Retry(c, i))
    case LockCas(i) => if s.lock == 0 then Goto(s, p, Holding).(lock := p) else Goto(s, p, Retry(c, i))
    case AddWait => Goto(s, p, WaitRead).(wait := s.wait + 1)
    case WaitRead => Goto(s, p, if s.lock == 0 then WaitCas else Asleep)
    case WaitCas => if s.lock == 0 then Goto(s, p, SubWait).(lock := p) else Goto(s, p, Asleep)
    case SubWait => Goto(s, p, Holding).(wait := s.wait - 1)
    case Asleep => if s.sem > 0 then Goto(s, p, LockRead(0)).(sem := s.sem - 1) else s
    case UnlockCas => if s.lock == p then Goto(s, p, WakeRead).(lock := 0) else Goto(s, p, Idle)
    case ForceCas(t) => if s.lock == t then Goto(s, p, WakeRead).(lock := 0) else Goto(s, p, Idle)
    case WakeRead => Goto(s, p, if c.semaphore && s.wait > 0 then WakeCas(s.wait) else Idle)
    case WakeCas(seen) => if s.wait == seen then Goto(s, p, WakePost).(wait := s.wait - 1) else Goto(s, p, WakeRead)
    case WakePost => Goto(s, p, Idle).(sem := s.sem + 1)
    case _ => s
  }

  // What a process may do: its next atomic operation, or, from outside, call into the mutex.
  datatype Action = Continue | CallTryLock | CallLock | CallUnlock | CallForceUnlock(target: Pid) | Crash

  predicate Enabled(s: State, p: Pid, a: Action) {
    p in s.pc && match a
      case Continue => true
      case CallTryLock => s.pc[p].Idle?
      case CallLock => s.pc[p].Idle?
      case CallUnlock => s.pc[p].Idle? || s.pc[p].Holding?
      case CallForceUnlock(t) => s.pc[p].Idle? && t in s.pc && s.pc[t].Dead?
      case Crash => !s.pc[p].Dead?
  }

  function Next(c: Config, s: State, p: Pid, a: Action): State
    requires Enabled(s, p, a)
  {
    match a
    case Continue => Run(c, s, p)
    case CallTryLock => Goto(s, p, if s.lock == 0 then TryCas else Idle)
    case CallLock => Goto(s, p, LockRead(0))
    case CallUnlock => Goto(s, p, UnlockCas)
    case CallForceUnlock(t) => Goto(s, p, ForceCas(t))
    case Crash => Goto(s, p, Dead(s.pc[p]))
  }

  // ---------- the invariant ----------

  // The place of a process, dead or alive.
  function Place(pc: Pc): Pc {
    if pc.Dead? then pc.last else pc
  }

  // In the critical section, or about to enter or to leave it.
  predicate Owns(pc: Pc) {
    pc.Holding? || pc.SubWait?
  }

  predicate MayOwn(pc: Pc) {
    Owns(Place(pc)) || Place(pc).UnlockCas?
  }

  // Counted in `wait`, or woken up and not yet gone from sem_wait.
  predicate Registered(pc: Pc) {
    var at := Place(pc);
    at.WaitRead? || at.WaitCas? || at.SubWait? || at.Asleep?
  }

  predicate Posting(pc: Pc) {
    Place(pc).WakePost?
  }

  // Inside lock, and not asleep, or inside wakeup.
  predicate Busy(pc: Pc) {
    var at := Place(pc);
    || at.LockRead? || at.LockCas? || at.AddWait? || at.WaitRead? || at.WaitCas?
    || at.WakeRead? || at.WakeCas? || at.WakePost?
  }

  ghost function Waiters(pc: map<Pid, Pc>): set<Pid> {
    set p | p in pc && Registered(pc[p])
  }

  ghost function Posters(pc: map<Pid, Pc>): set<Pid> {
    set p | p in pc && Posting(pc[p])
  }

  ghost predicate PcOk(c: Config, s: State, p: Pid)
    requires p in s.pc
  {
    var pc := s.pc[p];
    && (Owns(pc) ==> s.lock == p)
    && (pc.ForceCas? ==> pc.target in s.pc && s.pc[pc.target].Dead?)
    && (Place(pc).WakeCas? ==> Place(pc).seen > 0)
    && !(pc.Dead? && pc.last.Dead?)
    && (!c.semaphore ==> !Place(pc).AddWait? && !Registered(pc))
  }

  // The lock word names its holder.
  ghost predicate LockOk(s: State) {
    s.lock != 0 ==> s.lock > 0 && s.lock in s.pc && MayOwn(s.pc[s.lock])
  }

  // Every registered waiter is still counted, or has a post in the semaphore or on its way.
  ghost predicate CountOk(s: State) {
    && s.wait + s.sem + |Posters(s.pc)| == |Waiters(s.pc)|
    && s.sem + |Posters(s.pc)| <= |s.pc|
  }

  // A sleeper is not forgotten.
  ghost predicate WakeupOk(s: State) {
    (s.lock == 0 && s.sem == 0 && exists p :: p in s.pc && Place(s.pc[p]).Asleep?) ==>
      exists q :: q in s.pc && Busy(s.pc[q])
  }

  ghost predicate AllPcOk(c: Config, s: State) {
    forall p :: p in s.pc ==> PcOk(c, s, p)
  }

  ghost predicate Inv(c: Config, s: State) {
    && AllPcOk(c, s) && LockOk(s) && CountOk(s) && WakeupOk(s)
  }

  lemma InitInv(c: Config, s: State)
    requires Init(s)
    ensures Inv(c, s)
  {
    assert Waiters(s.pc) == {} && Posters(s.pc) == {};
  }

  // ---------- counting ----------

  lemma WaitersUpdate(pc: map<Pid, Pc>, p: Pid, x: Pc)
    requires p in pc
    ensures |Waiters(pc[p := x])| == |Waiters(pc)| - Bit(Registered(pc[p])) + Bit(Registered(x))
    ensures |pc[p := x]| == |pc|
  {
    var pc' := pc[p := x];
    assert pc'.Keys == pc.Keys;
    WaitersBut(pc, p, x);
    OneMore(Waiters(pc), Waiters(pc'), p);
  }

  lemma WaitersBut(pc: map<Pid, Pc>, p: Pid, x: Pc)
    requires p in pc
    ensures Waiters(pc[p := x]) - {p} == Waiters(pc) - {p}
    ensures (p in Waiters(pc) <==> Registered(pc[p])) && (p in Waiters(pc[p := x]) <==> Registered(x))
  {}

  lemma OneMore(a: set<Pid>, b: set<Pid>, p: Pid)
    requires a - {p} == b - {p}
    ensures |b| == |a| - Bit(p in a) + Bit(p in b)
  {
    RemoveOne(a, p);
    RemoveOne(b, p);
  }

  lemma PostersUpdate(pc: map<Pid, Pc>, p: Pid, x: Pc)
    requires p in pc
    ensures |Posters(pc[p := x])| == |Posters(pc)| - Bit(Posting(pc[p])) + Bit(Posting(x))
  {
    PostersBut(pc, p, x);
    OneMore(Posters(pc), Posters(pc[p := x]), p);
  }

  lemma PostersBut(pc: map<Pid, Pc>, p: Pid, x: Pc)
    requires p in pc
    ensures Posters(pc[p := x]) - {p} == Posters(pc) - {p}
    ensures (p in Posters(pc) <==> Posting(pc[p])) && (p in Posters(pc[p := x]) <==> Posting(x))
  {}

  lemma RemoveOne(s: set<Pid>, p: Pid)
    ensures |s - {p}| == |s| - if p in s then 1 else 0
  {
    if p !in s { assert s - {p} == s; }
  }

  lemma WaitersBound(pc: map<Pid, Pc>)
    ensures |Waiters(pc)| <= |pc|
  {
    SubsetSize(Waiters(pc), pc.Keys);
  }

  lemma {:induction false} SubsetSize(a: set<Pid>, b: set<Pid>)
    requires a <= b
    ensures |a| <= |b|
  {
    assert b == a + (b - a);
  }

  // ---------- every step keeps the invariant ----------

  // A step changes only the place of the process that takes it.
  lemma OthersStay(c: Config, s: State, p: Pid, a: Action, q: Pid)
    requires Enabled(s, p, a) && q in s.pc && q != p
    ensures var s' := Next(c, s, p, a); q in s'.pc && s'.pc[q] == s.pc[q] && s'.pc.Keys == s.pc.Keys
  {}

  lemma RunCount(c: Config, s: State, p: Pid)
    requires p in s.pc && PcOk(c, s, p) && CountOk(s)
    ensures CountOk(Run(c, s, p))
  {
    var s' := Run(c, s, p);
    WaitersBound(s.pc);
    RunBalance(c, s, p);
    WaitersUpdate(s.pc, p, s'.pc[p]);
    PostersUpdate(s.pc, p, s'.pc[p]);
  }

  // A step changes the count of waiters, the semaphore, the posts and the waiters in balance.
  lemma RunBalance(c: Config, s: State, p: Pid)
    requires p in s.pc && PcOk(c, s, p)
    ensures var s' := Run(c, s, p);
      && s'.pc == s.pc[p := s'.pc[p]]
      && (s'.wait - s.wait) + (s'.sem - s.sem) + Bit(Posting(s'.pc[p])) - Bit(Posting(s.pc[p]))
         == Bit(Registered(s'.pc[p])) - Bit(Registered(s.pc[p]))
      && ((s'.sem - s.sem) + Bit(Posting(s'.pc[p])) - Bit(Posting(s.pc[p])) <= Bit(s.wait > 0))
  {}

  function Bit(b: bool): nat {
    if b then 1 else 0
  }

  lemma CallCount(c: Config, s: State, p: Pid, a: Action)
    requires Enabled(s, p, a) && !a.Continue? && CountOk(s) && PcOk(c, s, p)
    ensures CountOk(Next(c, s, p, a))
  {
    WaitersUpdate(s.pc, p, Next(c, s, p, a).pc[p]);
    PostersUpdate(s.pc, p, Next(c, s, p, a).pc[p]);
  }

  // The place of the process that takes the step, and the places of the others.
  lemma OwnPcOk(c: Config, s: State, p: Pid, a: Action)
    requires Enabled(s, p, a) && PcOk(c, s, p)
    ensures PcOk(c, Next(c, s, p, a), p)
  {}

  lemma OtherPcOk(c: Config, s: State, p: Pid, a: Action, q: Pid)
    requires Enabled(s, p, a) && PcOk(c, s, p) && q in s.pc && PcOk(c, s, q) && q != p && LockOk(s)
    ensures PcOk(c, Next(c, s, p, a), q)
  {
    OthersStay(c, s, p, a, q);
    DeadStay(c, s, p, a);
  }

  // The dead do not come back.
  lemma DeadStay(c: Config, s: State, p: Pid, a: Action)
    requires Enabled(s, p, a)
    ensures forall q :: q in s.pc && s.pc[q].Dead? ==> q in Next(c, s, p, a).pc && Next(c, s, p, a).pc[q].Dead?
  {}

  lemma NextLock(c: Config, s: State, p: Pid, a: Action)
    requires Enabled(s, p, a) && PcOk(c, s, p) && LockOk(s)
    ensures LockOk(Next(c, s, p, a))
  {}

  // A process that leaves while the lock is free and the semaphore is empty leaves a busy one behind.
  lemma NextWakeup(c: Config, s: State, p: Pid, a: Action)
    requires Inv(c, s) && Enabled(s, p, a)
    ensures WakeupOk(Next(c, s, p, a))
  {
    var s' := Next(c, s, p, a);
    assert PcOk(c, s, p);
    if s'.lock == 0 && s'.sem == 0 && exists q :: q in s'.pc && Place(s'.pc[q]).Asleep? {
      if Busy(s'.pc[p]) {
      } else {
        var q :| q in s'.pc && Place(s'.pc[q]).Asleep?;
        assert q in s.pc;
        assert PcOk(c, s, q);
        QuietStep(c, s, p, a, q);
        var r :| r in s.pc && r != p && Busy(s.pc[r]);
        OthersStay(c, s, p, a, r);
      }
    }
  }

  lemma QuietStep(c: Config, s: State, p: Pid, a: Action, q: Pid)
    requires Enabled(s, p, a) && PcOk(c, s, p) && LockOk(s) && CountOk(s) && WakeupOk(s) && q in s.pc && PcOk(c, s, q)
    requires var s' := Next(c, s, p, a); s'.lock == 0 && s'.sem == 0 && !Busy(s'.pc[p]) && Place(s'.pc[q]).Asleep?
    ensures exists r :: r in s.pc && r != p && Busy(s.pc[r])
  {
    assert Place(s.pc[q]).Asleep?;
    if Busy(s.pc[p]) {
      // p was in wakeup and saw no waiter to wake: the sleeper's post is on its way
      assert s.pc[p].WakeRead?;
      assert q in Waiters(s.pc) && |Waiters(s.pc)| > 0;
      assert Posters(s.pc) != {};
      var r :| r in Posters(s.pc);
      assert r != p;
    } else {
      var r :| r in s.pc && Busy(s.pc[r]);
    }
  }

  lemma NextPcs(c: Config, s: State, p: Pid, a: Action)
    requires AllPcOk(c, s) && LockOk(s) && Enabled(s, p, a)
    ensures AllPcOk(c, Next(c, s, p, a))
  {
    var s' := Next(c, s, p, a);
    forall q | q in s'.pc
      ensures PcOk(c, s', q)
    {
      assert PcOk(c, s, p);
      if q == p {
        OwnPcOk(c, s, p, a);
      } else {
        assert PcOk(c, s, q);
        OtherPcOk(c, s, p, a, q);
      }
    }
  }

  lemma NextInv(c: Config, s: State, p: Pid, a: Action)
    requires Inv(c, s) && Enabled(s, p, a)
    ensures Inv(c, Next(c, s, p, a))
  {
    NextPcs(c, s, p, a);
    NextWakeup(c, s, p, a);
    assert PcOk(c, s, p);
    NextLock(c, s, p, a);
    if a.Continue? { RunCount(c, s, p); } else { CallCount(c, s, p, a); }
  }

  // ---------- whole runs ----------

  // One entry of a schedule: who moves, and how.
  datatype Move = Move(p: Pid, a: Action)

  // The state after the moves of a schedule, each of which must be possible when its turn comes.
  ghost predicate Possible(c: Config, s: State, run: seq<Move>)
    decreases |run|
  {
    run == [] || (Enabled(s, run[0].p, run[0].a) && Possible(c, Next(c, s, run[0].p, run[0].a), run[1..]))
  }

  ghost function After(c: Config, s: State, run: seq<Move>): State
    requires Possible(c, s, run)
    decreases |run|
  {
    if run == [] then s else After(c, Next(c, s, run[0].p, run[0].a), run[1..])
  }

  lemma {:induction false} RunInv(c: Config, s: State, run: seq<Move>)
    requires Inv(c, s) && Possible(c, s, run)
    ensures Inv(c, After(c, s, run))
    decreases |run|
  {
    if run != [] {
      NextInv(c, s, run[0].p, run[0].a);
      RunInv(c, Next(c, s, run[0].p, run[0].a), run[1..]);
    }
  }

  // Mutual exclusion, in every state of every run, crashes and forced unlocks included: the lock
  // word is the pid of the only live process that holds the lock.
  lemma MutualExclusion(c: Config, s: State, run: seq<Move>, p: Pid, q: Pid)
    requires Init(s) && Possible(c, s, run)
    requires var t := After(c, s, run); p in t.pc && q in t.pc && Owns(t.pc[p]) && Owns(t.pc[q])
    ensures p == q == After(c, s, run).lock
  {
    InitInv(c, s);
    RunInv(c, s, run);
    assert PcOk(c, After(c, s, run), p) && PcOk(c, After(c, s, run), q);
  }

  // The waiters are counted exactly, and the count stays within the number of processes, so the
  // conversion to a signed integer at line 178 is exact.
  lemma WaitersCounted(c: Config, s: State, run: seq<Move>)
    requires Init(s) && Possible(c, s, run)
    ensures var t := After(c, s, run);
      && t.wait + t.sem + |Posters(t.pc)| == |Waiters(t.pc)|
      && -|t.pc| <= t.wait <= |t.pc|
  {
    InitInv(c, s);
    RunInv(c, s, run);
    WaitersBound(After(c, s, run).pc);
  }

  // ---------- no deadlock ----------

  // Inside lock and awake.
  predicate Trying(pc: Pc) {
    pc.LockRead? || pc.LockCas? || pc.AddWait? || pc.WaitRead? || pc.WaitCas?
  }

  predicate Waking(pc: Pc) {
    pc.WakeRead? || pc.WakeCas? || pc.WakePost?
  }

  // The moves of processes that are inside lock or unlock already; nobody calls, nobody dies.
  predicate Internal(run: seq<Move>) {
    forall i :: 0 <= i < |run| ==> run[i].a == Continue
  }

  ghost predicate AllAlive(s: State) {
    forall p :: p in s.pc ==> !s.pc[p].Dead?
  }

  function TryRank(pc: Pc): nat {
    match pc
    case AddWait => 2
    case LockRead(_) => 1
    case WaitRead => 1
    case _ => 0
  }

  // Prefixing a run with one move.
  lemma Prefix(c: Config, s: State, p: Pid, rest: seq<Move>)
    requires p in s.pc && Possible(c, Run(c, s, p), rest) && Internal(rest)
    ensures var run := [Move(p, Continue)] + rest;
      Possible(c, s, run) && Internal(run) && After(c, s, run) == After(c, Run(c, s, p), rest)
  {
    var run := [Move(p, Continue)] + rest;
    assert run[1..] == rest;
  }

  // An awake process inside lock takes a free lock if it is left alone.
  lemma {:induction false} Acquire(c: Config, s: State, p: Pid) returns (run: seq<Move>)
    requires p in s.pc && Trying(s.pc[p]) && s.lock == 0
    ensures Possible(c, s, run) && Internal(run) && After(c, s, run).lock == p
    decreases TryRank(s.pc[p])
  {
    var rest := [];
    if TryRank(s.pc[p]) > 0 { rest := Acquire(c, Run(c, s, p), p); }
    Prefix(c, s, p, rest);
    run := [Move(p, Continue)] + rest;
  }

  ghost function Wakers(pc: map<Pid, Pc>): set<Pid> {
    set p | p in pc && Waking(pc[p])
  }

  function WakeRank(s: State, w: Pid): nat
    requires w in s.pc
  {
    match s.pc[w]
    case WakeCas(seen) => if seen == s.wait then 1 else 3
    case WakeRead => 2
    case _ => 0
  }

  // A step of a waker leaves the sleeper q asleep, and somebody to look after it.
  lemma StillAsleep(c: Config, s: State, q: Pid, w: Pid)
    requires Inv(c, s) && AllAlive(s) && s.lock == 0 && q in s.pc && s.pc[q].Asleep? && w in s.pc && Waking(s.pc[w])
    ensures var s' := Run(c, s, w);
      && Inv(c, s') && AllAlive(s') && s'.lock == 0 && q in s'.pc && s'.pc[q].Asleep?
      && (s'.sem == 0 ==> exists r :: r in s'.pc && (Trying(s'.pc[r]) || Waking(s'.pc[r])))
  {
    var s' := Run(c, s, w);
    NextInv(c, s, w, Continue);
    assert AllAlive(s') && s'.pc[q].Asleep? && WakeupOk(s');
    if s'.sem == 0 {
      var r :| r in s'.pc && Busy(s'.pc[r]);
      assert Trying(s'.pc[r]) || Waking(s'.pc[r]);
    }
  }

  // A sleeper is woken up, and the lock is taken: the posts that are due are made.
  lemma {:induction false} WakeUp(c: Config, s: State, q: Pid, w: Pid) returns (run: seq<Move>)
    requires Inv(c, s) && AllAlive(s) && s.lock == 0 && q in s.pc && s.pc[q].Asleep?
    requires w in s.pc && (s.sem > 0 || Waking(s.pc[w]))
    ensures Possible(c, s, run) && Internal(run) && After(c, s, run).lock != 0
    decreases |Wakers(s.pc)|, s.sem == 0, WakeRank(s, w)
  {
    var rest;
    if s.sem > 0 {
      rest := Acquire(c, Run(c, s, q), q);
      Prefix(c, s, q, rest);
      run := [Move(q, Continue)] + rest;
    } else {
      var s' := Run(c, s, w);
      StillAsleep(c, s, q, w);
      WakersStep(c, s, w);
      if s'.sem > 0 || Waking(s'.pc[w]) {
        rest := WakeUp(c, s', q, w);
      } else {
        var r :| r in s'.pc && (Trying(s'.pc[r]) || Waking(s'.pc[r]));
        if Trying(s'.pc[r]) {
          rest := Acquire(c, s', r);
        } else {
          rest := WakeUp(c, s', q, r);
        }
      }
      Prefix(c, s, w, rest);
      run := [Move(w, Continue)] + rest;
    }
  }

  lemma WakersStep(c: Config, s: State, w: Pid)
    requires w in s.pc && Waking(s.pc[w])
    ensures var s' := Run(c, s, w);
      && |Wakers(s'.pc)| <= |Wakers(s.pc)| && (!Waking(s'.pc[w]) ==> |Wakers(s'.pc)| < |Wakers(s.pc)|)
      && (Waking(s'.pc[w]) ==> WakeRank(s', w) < WakeRank(s, w))
  {
    var s' := Run(c, s, w);
    assert s'.pc == s.pc[w := s'.pc[w]];
    WakersUpdate(s.pc, w, s'.pc[w]);
  }

  lemma WakersUpdate(pc: map<Pid, Pc>, w: Pid, x: Pc)
    requires w in pc && Waking(pc[w])
    ensures |Wakers(pc[w := x])| == |Wakers(pc)| - if Waking(x) then 0 else 1
  {
    var pc' := pc[w := x];
    assert Wakers(pc') - {w} == Wakers(pc) - {w};
    RemoveOne(Wakers(pc), w);
    RemoveOne(Wakers(pc'), w);
  }

  // No deadlock: from every state of a run without crashes in which the lock is free and some
  // process is inside lock, asleep or not, the processes that are already inside lock and unlock
  // can go on, on their own, until one of them has the lock.
  lemma NoDeadlock(c: Config, s: State, run: seq<Move>, p: Pid) returns (more: seq<Move>)
    requires Init(s) && Possible(c, s, run)
    requires var t := After(c, s, run); AllAlive(t) && t.lock == 0 && p in t.pc && (t.pc[p].Asleep? || Trying(t.pc[p]))
    ensures var t := After(c, s, run); Possible(c, t, more) && Internal(more) && After(c, t, more).lock != 0
  {
    InitInv(c, s);
    RunInv(c, s, run);
    var t := After(c, s, run);
    if Trying(t.pc[p]) {
      more := Acquire(c, t, p);
    } else if t.sem > 0 {
      more := WakeUp(c, t, p, p);
    } else {
      var q :| q in t.pc && Busy(t.pc[q]);
      if Trying(t.pc[q]) {
        more := Acquire(c, t, q);
      } else {
        more := WakeUp(c, t, p, q);
      }
    }
  }

  // ---------- no lost wakeup ----------

  // A live process will take the lock, or wake a sleeper up: it is inside lock or trylock, or about to post, or inside
  // wakeup with a waiter left to be counted down.
  predicate Acting(s: State, q: Pid)
    requires q in s.pc
  {
    Trying(s.pc[q]) || s.pc[q].TryCas? || s.pc[q].WakePost? || (Waking(s.pc[q]) && s.wait > 0)
  }

  ghost predicate Hopeful(s: State) {
    exists q :: q in s.pc && Acting(s, q)
  }

  // The processes that are inside can go on, on their own, until one of them has the lock.
  ghost predicate CanGoOn(c: Config, s: State) {
    exists more :: Possible(c, s, more) && Internal(more) && After(c, s, more).lock != 0
  }

  // A waker that is left alone wakes the sleeper p up, and p takes the lock.
  lemma {:induction false} Rouse(c: Config, s: State, p: Pid, q: Pid) returns (run: seq<Move>)
    requires c.semaphore && s.lock == 0 && p in s.pc && s.pc[p].Asleep? && q in s.pc
    requires s.sem > 0 || s.pc[q].WakePost? || (Waking(s.pc[q]) && s.wait > 0)
    ensures Possible(c, s, run) && Internal(run) && After(c, s, run).lock != 0
    decreases s.sem == 0, WakeRank(s, q)
  {
    var rest;
    if s.sem > 0 {
      rest := Acquire(c, Run(c, s, p), p);
      Prefix(c, s, p, rest);
      run := [Move(p, Continue)] + rest;
    } else {
      rest := Rouse(c, Run(c, s, q), p, q);
      Prefix(c, s, q, rest);
      run := [Move(q, Continue)] + rest;
    }
  }

  // Nobody who is inside can do anything for the sleepers.
  ghost predicate Stuck(s: State) {
    && s.lock == 0 && s.sem == 0 && !Hopeful(s)
    && forall q :: q in s.pc && s.pc[q].WakeCas? ==> s.pc[q].seen > 0
  }

  lemma StuckStep(c: Config, s: State, q: Pid)
    requires Stuck(s) && q in s.pc
    ensures Stuck(Run(c, s, q))
  {
    var s' := Run(c, s, q);
    assert !Acting(s, q);
    if Hopeful(s') {
      var r :| r in s'.pc && Acting(s', r);
      assert r != q ==> s'.pc[r] == s.pc[r];
      assert r in s.pc && Acting(s, r);
    }
  }

  lemma {:induction false} StuckStays(c: Config, s: State, run: seq<Move>)
    requires Stuck(s) && Possible(c, s, run) && Internal(run)
    ensures After(c, s, run).lock == 0
    decreases |run|
  {
    if run != [] {
      assert run[0].a == Continue;
      StuckStep(c, s, run[0].p);
      StuckStays(c, Run(c, s, run[0].p), run[1..]);
    }
  }

  // In every state of every run, crashes included, in which the lock is free and a process sleeps on an empty
  // semaphore: the processes inside can go on until one has the lock if and only if a live process is acting.
  lemma WakeupIff(c: Config, s: State, run: seq<Move>, p: Pid)
    requires Init(s) && Possible(c, s, run)
    requires var t := After(c, s, run); t.lock == 0 && t.sem == 0 && p in t.pc && t.pc[p].Asleep?
    ensures var t := After(c, s, run); CanGoOn(c, t) <==> Hopeful(t)
  {
    InitInv(c, s);
    RunInv(c, s, run);
    var t := After(c, s, run);
    assert PcOk(c, t, p);
    if Hopeful(t) {
      var q :| q in t.pc && Acting(t, q);
      var more;
      if Trying(t.pc[q]) {
        more := Acquire(c, t, q);
      } else if t.pc[q].TryCas? {
        Prefix(c, t, q, []);
        more := [Move(q, Continue)] + [];
      } else {
        more := Rouse(c, t, p, q);
      }
    } else {
      forall q | q in t.pc && t.pc[q].WakeCas? ensures t.pc[q].seen > 0 { assert PcOk(c, t, q); }
      forall more | Possible(c, t, more) && Internal(more) ensures After(c, t, more).lock
          == 0 { StuckStays(c, t, more); }
    }
  }

  predicate NoCrash(run: seq<Move>) {
    forall i :: 0 <= i < |run| ==> run[i].a != Crash
  }

  lemma {:induction false} StayAlive(c: Config, s: State, run: seq<Move>)
    requires AllAlive(s) && Possible(c, s, run) && NoCrash(run)
    ensures AllAlive(After(c, s, run))
    decreases |run|
  {
    if run != [] {
      assert run[0].a != Crash;
      StayAlive(c, Next(c, s, run[0].p, run[0].a), run[1..]);
    }
  }

  // No wakeup is lost in a run without crashes: when the lock is free and a process sleeps on an empty semaphore, some
  // live process is acting.
  lemma NoLostWakeup(c: Config, s: State, run: seq<Move>, p: Pid)
    requires Init(s) && Possible(c, s, run) && NoCrash(run)
    requires var t := After(c, s, run); t.lock == 0 && t.sem == 0 && p in t.pc && t.pc[p].Asleep?
    ensures Hopeful(After(c, s, run))
  {
    StayAlive(c, s, run);
    var more := NoDeadlock(c, s, run, p);
    WakeupIff(c, s, run, p);
  }

  // Two processes, with the pids 1 and 2, and a semaphore
  function Both(lock: int, wait: int, one: Pc, two: Pc): State {
    State(lock, wait, 0, map[1 := one, 2 := two])
  }

  function Semaphores(): Config {
    Config(0, true)
  }

  // From s a run leads to the state t.
  ghost predicate Leads(s: State, t: State, run: seq<Move>) {
    Possible(Semaphores(), s, run) && After(Semaphores(), s, run) == t
  }

  // A step of the first and of the second process before that
  lemma One(s: State, a: Action, lock: int, wait: int, one: Pc, two: Pc, t: State, rest: seq<Move>)
      returns (run: seq<Move>)
    requires Enabled(s, 1, a) && Leads(Both(lock, wait, one, two), t, rest)
    requires s.pc[1 := one] == map[1 := one, 2 := two] && Next(Semaphores(), s, 1, a)
        == Goto(s, 1, one).(lock := lock, wait := wait) && s.sem == 0
    ensures Leads(s, t, run)
  {
    run := [Move(1, a)] + rest;
    assert run[1..] == rest;
  }

  lemma Two(s: State, a: Action, lock: int, wait: int, one: Pc, two: Pc, t: State, rest: seq<Move>)
      returns (run: seq<Move>)
    requires Enabled(s, 2, a) && Leads(Both(lock, wait, one, two), t, rest)
    requires s.pc[2 := two] == map[1 := one, 2 := two] && Next(Semaphores(), s, 2, a)
        == Goto(s, 2, two).(lock := lock, wait := wait) && s.sem == 0
    ensures Leads(s, t, run)
  {
    run := [Move(2, a)] + rest;
    assert run[1..] == rest;
  }

  lemma Die(t: State) returns (run: seq<Move>)
    requires t == Both(0, 0, Dead(WakePost), Asleep)
    ensures Leads(Both(0, 1, WakeCas(1), Asleep), t, run)
  {
    run := One(Both(0, 0, WakePost, Asleep), Crash, 0, 0, Dead(WakePost), Asleep, t, []);
    run := One(Both(0, 1, WakeCas(1), Asleep), Continue, 0, 0, WakePost, Asleep, t, run);
  }

  lemma Unlock(t: State) returns (run: seq<Move>)
    requires t == Both(0, 0, Dead(WakePost), Asleep)
    ensures Leads(Both(1, 1, Holding, Asleep), t, run)
  {
    run := Die(t);
    run := One(Both(0, 1, WakeRead, Asleep), Continue, 0, 1, WakeCas(1), Asleep, t, run);
    run := One(Both(1, 1, UnlockCas, Asleep), Continue, 0, 1, WakeRead, Asleep, t, run);
    run := One(Both(1, 1, Holding, Asleep), CallUnlock, 1, 1, UnlockCas, Asleep, t, run);
  }

  lemma FallAsleep(t: State) returns (run: seq<Move>)
    requires t == Both(0, 0, Dead(WakePost), Asleep)
    ensures Leads(Both(1, 0, Holding, LockRead(0)), t, run)
  {
    run := Unlock(t);
    run := Two(Both(1, 1, Holding, WaitRead), Continue, 1, 1, Holding, Asleep, t, run);
    run := Two(Both(1, 0, Holding, AddWait), Continue, 1, 1, Holding, WaitRead, t, run);
    run := Two(Both(1, 0, Holding, LockRead(0)), Continue, 1, 0, Holding, AddWait, t, run);
  }

  lemma TakeLock(t: State) returns (run: seq<Move>)
    requires t == Both(0, 0, Dead(WakePost), Asleep)
    ensures Leads(Both(0, 0, Idle, Idle), t, run)
  {
    run := FallAsleep(t);
    run := Two(Both(1, 0, Holding, Idle), CallLock, 1, 0, Holding, LockRead(0), t, run);
    run := One(Both(0, 0, LockCas(0), Idle), Continue, 1, 0, Holding, Idle, t, run);
    run := One(Both(0, 0, LockRead(0), Idle), Continue, 0, 0, LockCas(0), Idle, t, run);
    run := One(Both(0, 0, Idle, Idle), CallLock, 0, 0, LockRead(0), Idle, t, run);
  }

  // With crashes a wakeup can be lost: process 2 sleeps, process 1 unlocks, counts it down, and dies before the post.
  lemma DeathLosesWakeup() returns (s: State, run: seq<Move>)
    ensures Init(s) && Possible(Semaphores(), s, run)
    ensures var t := After(Semaphores(), s, run);
        t.lock == 0 && t.sem == 0 && 2 in t.pc && t.pc[2].Asleep? && !Hopeful(t) && !CanGoOn(Semaphores(), t)
  {
    var t := Both(0, 0, Dead(WakePost), Asleep);
    s := Both(0, 0, Idle, Idle);
    run := TakeLock(t);
    assert forall q :: q in t.pc ==> !Acting(t, q);
    WakeupIff(Semaphores(), s, run, 2);
  }

  // ---------- what the calls do ----------

  // The state after n steps of p alone
  function Alone(c: Config, s: State, p: Pid, n: nat): State
    requires p in s.pc
    decreases n
  {
    if n == 0 then s else Alone(c, Run(c, s, p), p, n - 1)
  }

  lemma {:induction false} AloneMore(c: Config, s: State, p: Pid, n: nat, m: nat)
    requires p in s.pc
    ensures p in Alone(c, s, p, n).pc && Alone(c, s, p, n + m) == Alone(c, Alone(c, s, p, n), p, m)
    decreases n
  {
    if n > 0 { AloneMore(c, Run(c, s, p), p, n - 1, m); }
  }

  // p is somewhere else, and nothing else has changed.
  function Put(s: State, p: Pid, pc: Pc): State {
    State(s.lock, s.wait, s.sem, s.pc[p := pc])
  }

  // trylock takes a free lock,
  lemma TryLockFree(c: Config, s: State, p: Pid)
    requires p in s.pc && s.pc[p] == Idle && s.lock == 0
    ensures Alone(c, Next(c, s, p, CallTryLock), p, 1) == Put(s, p, Holding).(lock := p)
  {
    var s1 := Next(c, s, p, CallTryLock);
    assert s1 == Put(s, p, TryCas);
    assert Alone(c, s1, p, 1) == Run(c, s1, p);
    assert s1.pc[p := Holding] == s.pc[p := Holding];
  }

  // and nothing happens when the lock is held, or is taken before the compare-and-set.
  lemma TryLockHeld(c: Config, s: State, p: Pid)
    requires p in s.pc && s.lock != 0
    ensures s.pc[p] == Idle ==> Next(c, s, p, CallTryLock) == s
    ensures s.pc[p] == TryCas ==> Run(c, s, p) == Put(s, p, Idle)
  {
    if s.pc[p] == Idle { assert s.pc[p := Idle] == s.pc; }
  }

  // lock takes a free lock.
  lemma LockFree(c: Config, s: State, p: Pid)
    requires p in s.pc && s.pc[p] == Idle && s.lock == 0
    ensures Alone(c, Next(c, s, p, CallLock), p, 2) == Put(s, p, Holding).(lock := p)
  {
    var s1 := Next(c, s, p, CallLock);
    var s2, s3 := Put(s, p, LockCas(0)), Put(s, p, Holding).(lock := p);
    assert s1.pc[p := LockCas(0)] == s2.pc && s2.pc[p := Holding] == s3.pc;
    assert Run(c, s1, p) == s2 && Run(c, s2, p) == s3;
    assert Alone(c, s1, p, 2) == Alone(c, s2, p, 1) == Alone(c, s3, p, 0);
  }

  // One look at a lock that is held; a lock that is taken before the compare-and-set is one, too.
  lemma LookHeld(c: Config, s: State, p: Pid, i: nat)
    requires p in s.pc && s.lock != 0
    ensures s.pc[p] == LockRead(i) || s.pc[p] == LockCas(i) ==>
        Run(c, s, p) == Put(s, p, if i < c.spins then LockRead(i + 1) else if c.semaphore then AddWait else LockRead(0))
    ensures s.pc[p] == WaitRead || s.pc[p] == WaitCas ==> Run(c, s, p) == Put(s, p, Asleep)
  {}

  lemma {:induction false} SpinHeld(c: Config, s: State, p: Pid, i: nat)
    requires p in s.pc && s.pc[p] == LockRead(i) && s.lock != 0 && i <= c.spins && c.semaphore
    ensures Alone(c, s, p, c.spins + 1 - i) == Put(s, p, AddWait)
    decreases c.spins - i
  {
    LookHeld(c, s, p, i);
    var s1 := Run(c, s, p);
    if i < c.spins {
      SpinHeld(c, s1, p, i + 1);
      assert s1.pc[p := AddWait] == s.pc[p := AddWait];
    } else {
      assert Alone(c, s, p, 1) == s1;
    }
  }

  // With a semaphore, a process that finds the lock held looks at it after every pause, is counted, and falls asleep.
  lemma LockHeld(c: Config, s: State, p: Pid)
    requires p in s.pc && s.pc[p] == Idle && s.lock != 0 && c.semaphore
    ensures Alone(c, Next(c, s, p, CallLock), p, c.spins + 3) == Put(s, p, Asleep).(wait := s.wait + 1)
  {
    var s1 := Next(c, s, p, CallLock);
    SpinHeld(c, s1, p, 0);
    var s2 := Put(s1, p, AddWait);
    AloneMore(c, s1, p, c.spins + 1, 2);
    var s3 := Put(s, p, WaitRead).(wait := s.wait + 1);
    var s4 := Put(s, p, Asleep).(wait := s.wait + 1);
    assert s2.pc[p := WaitRead] == s3.pc && s3.pc[p := Asleep] == s4.pc;
    assert Run(c, s2, p) == s3 && Run(c, s3, p) == s4;
    assert Alone(c, s2, p, 2) == Alone(c, s3, p, 1) == Alone(c, s4, p, 0);
  }

  // Without one it looks at it for ever, and changes nothing.
  lemma {:induction false} LockSpins(c: Config, s: State, p: Pid, i: nat, n: nat)
    requires p in s.pc && s.pc[p] == LockRead(i) && s.lock != 0 && !c.semaphore
    ensures exists j: nat :: Alone(c, s, p, n) == Put(s, p, LockRead(j))
    decreases n
  {
    if n == 0 {
      assert s.pc[p := LockRead(i)] == s.pc;
      assert Alone(c, s, p, n) == Put(s, p, LockRead(i));
    } else {
      LookHeld(c, s, p, i);
      var k := if i < c.spins then i + 1 else 0;
      var s1 := Put(s, p, LockRead(k));
      assert Run(c, s, p) == s1;
      LockSpins(c, s1, p, k, n - 1);
      var j: nat :| Alone(c, s1, p, n - 1) == Put(s1, p, LockRead(j));
      assert s1.pc[p := LockRead(j)] == s.pc[p := LockRead(j)];
      assert Alone(c, s, p, n) == Put(s, p, LockRead(j));
    }
  }

  // A sleeper stays asleep until there is a post; it takes the post, and looks at the lock again.
  lemma Wakes(c: Config, s: State, p: Pid)
    requires p in s.pc && s.pc[p] == Asleep
    ensures Run(c, s, p) == if s.sem == 0 then s else Put(s, p, LockRead(0)).(sem := s.sem - 1)
  {}

  // What wakeup does when p is left alone: with a waiter, one is counted down and a post is made.
  function Woken(c: Config, s: State, p: Pid): State {
    if c.semaphore && s.wait > 0 then Put(s, p, Idle).(wait := s.wait - 1, sem := s.sem + 1) else Put(s, p, Idle)
  }

  lemma WakeAlone(c: Config, s: State, p: Pid)
    requires p in s.pc && s.pc[p] == WakeRead
    ensures Alone(c, s, p, if c.semaphore && s.wait > 0 then 3 else 1) == Woken(c, s, p)
  {
    if c.semaphore && s.wait > 0 {
      var s1, s2 := Put(s, p, WakeCas(s.wait)), Put(s, p, WakePost).(wait := s.wait - 1);
      var s3 := Woken(c, s, p);
      assert s1.pc[p := WakePost] == s2.pc && s2.pc[p := Idle] == s3.pc;
      assert Run(c, s, p) == s1 && Run(c, s1, p) == s2 && Run(c, s2, p) == s3;
      assert Alone(c, s, p, 3) == Alone(c, s1, p, 2) == Alone(c, s2, p, 1) == Alone(c, s3, p, 0);
    } else {
      assert Alone(c, s, p, 1) == Run(c, s, p);
    }
  }

  // The count has changed since it was read: wakeup starts again.
  lemma WakeAgain(c: Config, s: State, p: Pid, seen: int)
    requires p in s.pc && s.pc[p] == WakeCas(seen) && s.wait != seen
    ensures Run(c, s, p) == Put(s, p, WakeRead)
  {}

  // unlock by the holder: the lock is free, and a waiter is woken up; by anybody else it does nothing.
  lemma Unlocks(c: Config, s: State, p: Pid)
    requires p in s.pc && (s.pc[p] == Holding || s.pc[p] == Idle)
    ensures var s1 := Next(c, s, p, CallUnlock);
      if s.lock == p then
        Alone(c, s1, p, if c.semaphore && s.wait > 0 then 4 else 2) == Woken(c, s.(lock := 0), p)
      else Alone(c, s1, p, 1) == Put(s, p, Idle)
  {
    Released(c, s, p, UnlockCas, p);
  }

  // force_unlock of a dead process that holds the lock does the same; if it does not hold it, nothing.
  lemma ForceUnlocks(c: Config, s: State, p: Pid, target: Pid)
    requires Enabled(s, p, CallForceUnlock(target))
    ensures var s1 := Next(c, s, p, CallForceUnlock(target));
      if s.lock == target then
        Alone(c, s1, p, if c.semaphore && s.wait > 0 then 4 else 2) == Woken(c, s.(lock := 0), p)
      else Alone(c, s1, p, 1) == s
  {
    Released(c, s, p, ForceCas(target), target);
    if s.lock != target { assert s.pc[p := Idle] == s.pc; }
  }

  lemma Released(c: Config, s: State, p: Pid, pc: Pc, holder: Pid)
    requires p in s.pc && ((pc == UnlockCas && holder == p) || pc == ForceCas(holder))
    ensures var s1 := Goto(s, p, pc);
      if s.lock == holder then
        Alone(c, s1, p, if c.semaphore && s.wait > 0 then 4 else 2) == Woken(c, s.(lock := 0), p)
      else Alone(c, s1, p, 1) == Put(s, p, Idle)
  {
    var s1 := Goto(s, p, pc);
    if s.lock == holder {
      var s2 := Put(s, p, WakeRead).(lock := 0);
      assert s1.pc[p := WakeRead] == s2.pc;
      assert Run(c, s1, p) == s2;
      WakeAlone(c, s2, p);
      AloneMore(c, s1, p, 1, if c.semaphore && s.wait > 0 then 3 else 1);
      assert Alone(c, s1, p, 1) == s2;
      assert s2.pc[p := Idle] == s.pc[p := Idle];
    } else {
      assert s1.pc[p := Idle] == s.pc[p := Idle];
      assert Alone(c, s1, p, 1) == Run(c, s1, p);
    }
  }
}
