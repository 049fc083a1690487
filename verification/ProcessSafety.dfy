/** What every interleaving of the process cache's threads keeps, and why some thread can always go on. */
module ProcessSafety {
  import opened Wrappers
  import opened FltResources
  import opened ProcessProtocol

  // ---------- locks and guards ----------

  function PcOf(threads: map<Tid, Thread>, t: Tid): Pc {
    if t in threads then threads[t].pc else Finished
  }

  /** The lock and the guards say about `t` what its program point says. */
  ghost predicate SyncMatches(sync: Sync, t: Tid, pc: Pc) {
    && (sync.lock.owner == Some(t) <==> ExclusiveDepth(pc) > 0)
    && (sync.lock.owner == Some(t) ==> sync.lock.depth == ExclusiveDepth(pc))
    && sync.lock.sharers[t] == SharedDepth(pc)
    && (forall o: ObjId :: (o, t) in sync.readers <==> ReadGuard(pc) == Some(o))
    && (forall o: ObjId :: (o, t) in sync.writers <==> WriteGuard(pc) == Some(o))
  }

  ghost predicate SyncInv(sync: Sync, threads: map<Tid, Thread>) {
    sync.lock.WellFormed() && forall t: Tid :: SyncMatches(sync, t, PcOf(threads, t))
  }

  lemma AcquireKeepsSync(s: State, t: Tid, exclusive: bool, pc: Pc)
    requires SyncInv(s.sync, s.threads) && t in s.threads && Acquire(s, t, exclusive, pc).Go?
    requires var now := s.threads[t].pc;
             && ReadGuard(pc) == ReadGuard(now) && WriteGuard(pc) == WriteGuard(now)
             && SharedDepth(now) == 0
             && ExclusiveDepth(pc) == ExclusiveDepth(now) + (if exclusive || ExclusiveDepth(now) > 0 then 1 else 0)
             && SharedDepth(pc) == if exclusive || ExclusiveDepth(now) > 0 then 0 else 1
    ensures SyncInv(WithThread(s, t, Acquire(s, t, exclusive, pc)).sync,
            WithThread(s, t, Acquire(s, t, exclusive, pc)).threads)
  {
    var s' := WithThread(s, t, Acquire(s, t, exclusive, pc));
    assert SyncMatches(s.sync, t, PcOf(s.threads, t));
    forall u: Tid
      ensures SyncMatches(s'.sync, u, PcOf(s'.threads, u))
    {
      assert SyncMatches(s.sync, u, PcOf(s.threads, u));
    }
  }

  lemma ReleaseKeepsSync(s: State, t: Tid, pc: Pc)
    requires SyncInv(s.sync, s.threads) && t in s.threads
    requires var now := s.threads[t].pc;
             && ReadGuard(pc) == ReadGuard(now) && WriteGuard(pc) == WriteGuard(now)
             && ExclusiveDepth(now) + SharedDepth(now) == ExclusiveDepth(pc) + 1 && SharedDepth(pc) == 0
    ensures SyncInv(WithThread(s, t, Release(s, t, pc)).sync, WithThread(s, t, Release(s, t, pc)).threads)
  {
    var s' := WithThread(s, t, Release(s, t, pc));
    assert SyncMatches(s.sync, t, PcOf(s.threads, t));
    forall u: Tid
      ensures SyncMatches(s'.sync, u, PcOf(s'.threads, u))
    {
      assert SyncMatches(s.sync, u, PcOf(s.threads, u));
    }
  }

  /** A step that leaves the lock alone and takes or drops at most the guards its program points say. */
  lemma GuardKeepsSync(s: State, t: Tid, e: Effect)
    requires SyncInv(s.sync, s.threads) && t in s.threads && e.Go? && e.sync.lock == s.sync.lock
    requires var now := s.threads[t].pc;
             ExclusiveDepth(e.pc) == ExclusiveDepth(now) && SharedDepth(e.pc) == SharedDepth(now)
    requires forall o: ObjId, u: Tid | u != t :: (o, u) in e.sync.readers <==> (o, u) in s.sync.readers
    requires forall o: ObjId, u: Tid | u != t :: (o, u) in e.sync.writers <==> (o, u) in s.sync.writers
    requires forall o: ObjId :: (o, t) in e.sync.readers <==> ReadGuard(e.pc) == Some(o)
    requires forall o: ObjId :: (o, t) in e.sync.writers <==> WriteGuard(e.pc) == Some(o)
    ensures SyncInv(WithThread(s, t, e).sync, WithThread(s, t, e).threads)
  {
    var s' := WithThread(s, t, e);
    assert SyncMatches(s.sync, t, PcOf(s.threads, t));
    forall u: Tid
      ensures SyncMatches(s'.sync, u, PcOf(s'.threads, u))
    {
      assert SyncMatches(s.sync, u, PcOf(s.threads, u));
    }
  }

  /** A step that touches neither the lock nor a guard. */
  lemma QuietKeepsSync(s: State, t: Tid, e: Effect)
    requires SyncInv(s.sync, s.threads) && t in s.threads && e.Go? && e.sync == s.sync
    requires var now := s.threads[t].pc;
             && ExclusiveDepth(e.pc) == ExclusiveDepth(now) && SharedDepth(e.pc) == SharedDepth(now)
             && ReadGuard(e.pc) == ReadGuard(now) && WriteGuard(e.pc) == WriteGuard(now)
    ensures SyncInv(WithThread(s, t, e).sync, WithThread(s, t, e).threads)
  {
    assert SyncMatches(s.sync, t, PcOf(s.threads, t));
    GuardKeepsSync(s, t, e);
  }

  predicate AtAcquire(pc: Pc) {
    pc.LookupAcquire? || pc.InsertAcquire? || pc.ParentAcquire? || pc.RemoveAcquire?
  }

  predicate AtRelease(pc: Pc) {
    pc.LookupRelease? || pc.InsertRelease? || pc.ParentRelease? || pc.RemoveRelease?
  }

  predicate AtGuardStep(pc: Pc) {
    pc.ParentRead? || pc.ParentUnguard? || pc.Scan? || pc.ScanUnread? || pc.ScanWrite? || pc.ScanUnwrite?
  }

  lemma AcquireStepKeepsSync(s: State, t: Tid, c: Choice)
    requires SyncInv(s.sync, s.threads) && t in s.threads && StepEffect(s, t, c).Go? && AtAcquire(s.threads[t].pc)
    ensures SyncInv(WithThread(s, t, StepEffect(s, t, c)).sync, WithThread(s, t, StepEffect(s, t, c)).threads)
  {
    AcquireKeepsSync(s, t, !s.threads[t].pc.LookupAcquire?, StepEffect(s, t, c).pc);
  }

  lemma ReleaseStepKeepsSync(s: State, t: Tid, c: Choice)
    requires SyncInv(s.sync, s.threads) && t in s.threads && StepEffect(s, t, c).Go? && AtRelease(s.threads[t].pc)
    ensures SyncInv(WithThread(s, t, StepEffect(s, t, c)).sync, WithThread(s, t, StepEffect(s, t, c)).threads)
  {
    ReleaseKeepsSync(s, t, StepEffect(s, t, c).pc);
  }

  lemma GuardStepKeepsSync(s: State, t: Tid, c: Choice)
    requires SyncInv(s.sync, s.threads) && t in s.threads && StepEffect(s, t, c).Go? && AtGuardStep(s.threads[t].pc)
    ensures SyncInv(WithThread(s, t, StepEffect(s, t, c)).sync, WithThread(s, t, StepEffect(s, t, c)).threads)
  {
    assert SyncMatches(s.sync, t, PcOf(s.threads, t));
    GuardKeepsSync(s, t, StepEffect(s, t, c));
  }

  lemma StepKeepsSync(s: State, t: Tid, c: Choice)
    requires SyncInv(s.sync, s.threads) && t in s.threads && StepEffect(s, t, c).Go?
    ensures SyncInv(WithThread(s, t, StepEffect(s, t, c)).sync, WithThread(s, t, StepEffect(s, t, c)).threads)
  {
    if AtAcquire(s.threads[t].pc) {
      AcquireStepKeepsSync(s, t, c);
    } else if AtRelease(s.threads[t].pc) {
      ReleaseStepKeepsSync(s, t, c);
    } else if AtGuardStep(s.threads[t].pc) {
      GuardStepKeepsSync(s, t, c);
    } else {
      QuietKeepsSync(s, t, StepEffect(s, t, c));
    }
  }

  /** The exclusive owner is alone: nobody else holds the lock in either way, or any guard. */
  lemma OwnerIsAlone(s: State, t: Tid, u: Tid)
    requires SyncInv(s.sync, s.threads) && t in s.threads && u != t
    requires ExclusiveDepth(s.threads[t].pc) > 0
    ensures ExclusiveDepth(PcOf(s.threads, u)) == 0 && SharedDepth(PcOf(s.threads, u)) == 0
    ensures ReadGuard(PcOf(s.threads, u)) == None && WriteGuard(PcOf(s.threads, u)) == None
  {
    assert SyncMatches(s.sync, t, PcOf(s.threads, t));
    assert SyncMatches(s.sync, u, PcOf(s.threads, u));
  }

  // ---------- the cache ----------

  /** `obj` describes the current incarnation of `pid`, which runs or still has its removal ahead. */
  ghost predicate Describes(os: Os, mem: Memory, obj: ObjId, pid: Pid) {
    && obj < |mem.heap| && mem.heap[obj].pid == pid
    && (pid in os.live || pid in os.pending)
    && mem.heap[obj].incarnation == os.Incarnation(pid)
  }

  /** Every cached pid is live or about to be removed, and no entry's parent was removed since it was inserted. */
  ghost predicate CacheInv(os: Os, mem: Memory) {
    && os.live !! os.pending
    && (forall p | p in mem.cache :: Describes(os, mem, mem.cache[p], p) && p in mem.cleared)
    && (forall p | p in mem.cache && mem.heap[mem.cache[p]].ppid.Some? ::
          mem.heap[mem.cache[p]].ppid.value !in mem.cleared[p])
  }

  /** The cached entries outside `todo` do not name `pid` as their parent. */
  ghost predicate Scanned(mem: Memory, pid: Pid, todo: set<ObjId>) {
    && pid !in mem.cache
    && forall p | p in mem.cache && mem.cache[p] !in todo ::
         mem.cache[p] < |mem.heap| && mem.heap[mem.cache[p]].ppid != Some(pid)
  }

  /** Inside the parent lookup for `child`, which is the requestor's own entry. */
  ghost predicate LevelOk(os: Os, mem: Memory, level: Level, pid: Pid) {
    level.Nested? ==> Describes(os, mem, level.child, pid) && mem.heap[level.child].ppid == Some(level.ppid)
  }

  /** `result` is what the child's recorded parent led to. */
  ghost predicate ParentOk(os: Os, mem: Memory, pid: Pid, child: ObjId, result: Option<ObjId>) {
    && Describes(os, mem, child, pid)
    && (result.Some? ==> mem.heap[child].ppid.Some? && Describes(os, mem, result.value, mem.heap[child].ppid.value))
  }

  predicate Removing(pc: Pc) {
    pc.RemoveAcquire? || pc.RemoveEntry? || pc.Scan? || pc.ScanUnread? || pc.ScanWrite? || pc.ScanUnwrite?
        || pc.RemoveRelease?
  }

  ghost predicate ThreadOk(os: Os, mem: Memory, th: Thread) {
    && (th.pc != Finished ==> (th.exiting <==> Removing(th.pc)))
    && (th.pc != Finished && !th.exiting ==> th.pid in os.live)
    && match th.pc
       case LookupAcquire(level) => LevelOk(os, mem, level, th.pid)
       case LookupRead(level) => LevelOk(os, mem, level, th.pid)
       case LookupRelease(level, found) =>
         LevelOk(os, mem, level, th.pid) && (found.Some? ==> Describes(os, mem, found.value, TargetPid(th, level)))
       case Create(level) => LevelOk(os, mem, level, th.pid)
       case InsertAcquire(level, obj) => LevelOk(os, mem, level, th.pid)
           && Describes(os, mem, obj, TargetPid(th, level))
       case Insert(level, obj) => LevelOk(os, mem, level, th.pid) && Describes(os, mem, obj, TargetPid(th, level))
       case InsertRelease(level, obj, _) => LevelOk(os, mem, level, th.pid)
           && Describes(os, mem, obj, TargetPid(th, level))
       case ParentAcquire(child) => Describes(os, mem, child, th.pid)
       case ParentRead(child) => Describes(os, mem, child, th.pid)
       case ParentUnguard(child, result) => ParentOk(os, mem, th.pid, child, result)
       case ParentRelease(child, result) => ParentOk(os, mem, th.pid, child, result)
       case RemoveAcquire => true
       case RemoveEntry => true
       case Scan(todo) => Scanned(mem, th.pid, todo)
       case ScanUnread(todo, obj) => Scanned(mem, th.pid, todo)
       case ScanWrite(todo, obj) => Scanned(mem, th.pid, todo) && obj < |mem.heap| && mem.heap[obj].ppid == Some(th.pid)
       case ScanUnwrite(todo, obj) => Scanned(mem, th.pid, todo) && obj < |mem.heap|
           && mem.heap[obj].ppid == Some(th.pid)
       case RemoveRelease => Scanned(mem, th.pid, {})
       case Finished => true
  }

  /** Each pending removal has a callback that has not made it yet. */
  ghost predicate RemovalAhead(threads: map<Tid, Thread>, pid: Pid) {
    exists t | t in threads :: threads[t].pid == pid && (threads[t].pc.RemoveAcquire? || threads[t].pc.RemoveEntry?)
  }

  /** What an object of a pid's current incarnation says of its parent is what the system says. */
  ghost predicate InfosOk(os: Os, mem: Memory) {
    forall o | 0 <= o < |mem.heap| ::
      var info := mem.heap[o];
      && info.incarnation <= os.Incarnation(info.pid)
      && (info.incarnation == os.Incarnation(info.pid) && info.ppid.Some? ==> info.ppid == os.Ppid(info.pid))
  }

  ghost predicate Inv(s: State) {
    && SyncInv(s.sync, s.threads)
    && CacheInv(s.os, s.mem)
    && InfosOk(s.os, s.mem)
    && (forall t | t in s.threads :: ThreadOk(s.os, s.mem, s.threads[t]))
    && (forall p | p in s.os.pending :: RemovalAhead(s.threads, p))
  }

  // ---------- what a step means for the other threads ----------

  /** A thread without the lock cares only that objects keep their identity. */
  lemma OthersUnlocked(os: Os, mem: Memory, os': Os, mem': Memory, th: Thread)
    requires ThreadOk(os, mem, th) && ExclusiveDepth(th.pc) == 0
    requires os'.live == os.live && os'.spawned == os.spawned
    requires |mem.heap| <= |mem'.heap|
    requires forall o | 0 <= o < |mem.heap| ::
               mem'.heap[o].pid == mem.heap[o].pid && mem'.heap[o].incarnation == mem.heap[o].incarnation
    ensures ThreadOk(os', mem', th)
  {
  }

  /** A new object disturbs nobody. */
  lemma OthersAppend(os: Os, mem: Memory, info: Info, th: Thread)
    requires ThreadOk(os, mem, th) && CacheInv(os, mem)
    ensures ThreadOk(os, mem.(heap := mem.heap + [info]), th)
  {
  }

  /** Steps other than making an object change memory only under the exclusive lock. */
  lemma OthersOk(s: State, t: Tid, c: Choice, u: Tid)
    requires Inv(s) && t in s.threads && u in s.threads && u != t && StepEffect(s, t, c).Go?
    ensures ThreadOk(StepEffect(s, t, c).os, StepEffect(s, t, c).mem, s.threads[u])
  {
    var e, pc := StepEffect(s, t, c), s.threads[t].pc;
    if pc.Create? {
      if e.mem != s.mem {
        OthersAppend(s.os, s.mem, e.mem.heap[|s.mem.heap|], s.threads[u]);
      }
    } else if e.mem != s.mem || e.os != s.os {
      OwnerIsAlone(s, t, u);
      OthersUnlocked(s.os, s.mem, e.os, e.mem, s.threads[u]);
    }
  }

  // ---------- what a step means for its own thread and the cache ----------

  lemma OwnLookupOk(s: State, t: Tid, c: Choice)
    requires Inv(s) && t in s.threads && StepEffect(s, t, c).Go?
    requires var pc := s.threads[t].pc; pc.LookupAcquire? || pc.LookupRead? || pc.LookupRelease?
    ensures var e := StepEffect(s, t, c); ThreadOk(e.os, e.mem, s.threads[t].(pc := e.pc))
  {
    var th := s.threads[t];
    assert ThreadOk(s.os, s.mem, th);
  }

  lemma OwnInsertOk(s: State, t: Tid, c: Choice)
    requires Inv(s) && t in s.threads && StepEffect(s, t, c).Go?
    requires var pc := s.threads[t].pc; pc.Create? || pc.InsertAcquire? || pc.Insert? || pc.InsertRelease?
    ensures var e := StepEffect(s, t, c); ThreadOk(e.os, e.mem, s.threads[t].(pc := e.pc))
  {
    var th := s.threads[t];
    assert ThreadOk(s.os, s.mem, th);
  }

  lemma OwnParentOk(s: State, t: Tid, c: Choice)
    requires Inv(s) && t in s.threads && StepEffect(s, t, c).Go?
    requires var pc := s.threads[t].pc; pc.ParentAcquire? || pc.ParentRead? || pc.ParentUnguard? || pc.ParentRelease?
    ensures var e := StepEffect(s, t, c); ThreadOk(e.os, e.mem, s.threads[t].(pc := e.pc))
  {
    var th := s.threads[t];
    assert ThreadOk(s.os, s.mem, th);
  }

  lemma OwnRemoveOk(s: State, t: Tid, c: Choice)
    requires Inv(s) && t in s.threads && StepEffect(s, t, c).Go?
    requires var pc := s.threads[t].pc; pc.RemoveAcquire? || pc.RemoveEntry? || pc.RemoveRelease? || pc.Finished?
    ensures var e := StepEffect(s, t, c); ThreadOk(e.os, e.mem, s.threads[t].(pc := e.pc))
  {
    var th := s.threads[t];
    assert ThreadOk(s.os, s.mem, th);
  }

  lemma OwnScanOk(s: State, t: Tid, c: Choice)
    requires Inv(s) && t in s.threads && StepEffect(s, t, c).Go?
    requires var pc := s.threads[t].pc; pc.Scan? || pc.ScanUnread? || pc.ScanWrite? || pc.ScanUnwrite?
    ensures var e := StepEffect(s, t, c); ThreadOk(e.os, e.mem, s.threads[t].(pc := e.pc))
  {
    var th := s.threads[t];
    assert ThreadOk(s.os, s.mem, th);
  }

  lemma OwnStepOk(s: State, t: Tid, c: Choice)
    requires Inv(s) && t in s.threads && StepEffect(s, t, c).Go?
    ensures var e := StepEffect(s, t, c); ThreadOk(e.os, e.mem, s.threads[t].(pc := e.pc))
  {
    var pc := s.threads[t].pc;
    if pc.LookupAcquire? || pc.LookupRead? || pc.LookupRelease? {
      OwnLookupOk(s, t, c);
    } else if pc.Create? || pc.InsertAcquire? || pc.Insert? || pc.InsertRelease? {
      OwnInsertOk(s, t, c);
    } else if pc.ParentAcquire? || pc.ParentRead? || pc.ParentUnguard? || pc.ParentRelease? {
      OwnParentOk(s, t, c);
    } else if pc.RemoveAcquire? || pc.RemoveEntry? || pc.RemoveRelease? || pc.Finished? {
      OwnRemoveOk(s, t, c);
    } else {
      OwnScanOk(s, t, c);
    }
  }

  lemma StepKeepsCache(s: State, t: Tid, c: Choice)
    requires Inv(s) && t in s.threads && StepEffect(s, t, c).Go?
    ensures CacheInv(StepEffect(s, t, c).os, StepEffect(s, t, c).mem)
  {
    var th := s.threads[t];
    assert ThreadOk(s.os, s.mem, th);
  }

  /** A step gives out no pid. */
  lemma StepKeepsProcesses(s: State, t: Tid, c: Choice)
    requires t in s.threads && StepEffect(s, t, c).Go?
    ensures var e := StepEffect(s, t, c);
            e.os.live == s.os.live && e.os.spawned == s.os.spawned && e.os.starters == s.os.starters
  {
  }

  lemma StepKeepsInfos(s: State, t: Tid, c: Choice)
    requires InfosOk(s.os, s.mem) && t in s.threads && StepEffect(s, t, c).Go?
    ensures InfosOk(StepEffect(s, t, c).os, StepEffect(s, t, c).mem)
  {
    StepKeepsProcesses(s, t, c);
  }
}
