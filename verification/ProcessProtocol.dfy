/**
  * The process cache as a system of interleaved threads: filter callbacks that look up, create and insert
  * process information, and exit callbacks that remove it (src/process_manager.rs:134-258).
  */
module ProcessProtocol {
  import opened Wrappers
  import opened FltResources

  type Pid = nat
  type ObjId = nat

  /** A ProcessInfo object: whose it is, which incarnation of that pid it describes, and the recorded parent. */
  datatype Info = Info(pid: Pid, incarnation: nat, ppid: Option<Pid>)

  /** Who started a process: the pid, and which incarnation of it. */
  datatype Starter = Starter(pid: Pid, incarnation: nat)

  /**
    * The processes: running, or between the start of their exit callback and the removal it makes; how often each
    * pid has been given out; and who started its latest process (nobody, for the system process).
    */
  datatype Os = Os(live: set<Pid>, pending: set<Pid>, spawned: map<Pid, nat>, starters: map<Pid, Starter>) {
    function Incarnation(p: Pid): nat {
      if p in spawned then spawned[p] else 0
    }

    /** The inherited pid that the system reports, whether or not that process still runs. */
    function Ppid(p: Pid): Option<Pid> {
      if p in starters then Some(starters[p].pid) else None
    }
  }

  /**
    * All ProcessInfo objects ever made, the cache from pids to them, and (history) for each cached pid the
    * removals that have taken effect since its entry was inserted.
    */
  datatype Memory = Memory(heap: seq<Info>, cache: map<Pid, ObjId>, cleared: map<Pid, set<Pid>>)

  /** `processes_lock`, and who holds which `ppid` read or write guard. */
  datatype Sync = Sync(lock: Lock, readers: set<(ObjId, Tid)>, writers: set<(ObjId, Tid)>)

  /**
    * `get_or_add_process_info` runs for the requestor, or nested in `get_or_add_parent_process_info` for the
    * parent `ppid` of `child`, under the exclusive lock and the read guard of the child's `ppid`.
    */
  datatype Level = Top | Nested(child: ObjId, ppid: Pid)

  datatype Pc =
    | LookupAcquire(level: Level)                          // process_info: before acquire_shared
    | LookupRead(level: Level)                             // holding it: read the map
    | LookupRelease(level: Level, found: Option<ObjId>)    // drop the lock
    | Create(level: Level)                                 // ProcessInfo::from_pid
    | InsertAcquire(level: Level, obj: ObjId)              // add_process: before acquire_exclusive
    | Insert(level: Level, obj: ObjId)                     // holding it: reserve and insert
    | InsertRelease(level: Level, obj: ObjId, added: bool) // drop the lock
    | ParentAcquire(child: ObjId)                          // get_or_add_parent_process_info: before acquire_exclusive
    | ParentRead(child: ObjId)                             // holding it: take the guard, read ppid
    | ParentUnguard(child: ObjId, result: Option<ObjId>)   // drop the guard
    | ParentRelease(child: ObjId, result: Option<ObjId>)   // drop the lock
    | RemoveAcquire                                        // remove_process: before acquire_exclusive
    | RemoveEntry                                          // holding it: remove the key
    | Scan(todo: set<ObjId>)                               // the entries still to visit
    | ScanUnread(todo: set<ObjId>, obj: ObjId)             // holding a read guard: compare, drop it
    | ScanWrite(todo: set<ObjId>, obj: ObjId)              // before the write guard
    | ScanUnwrite(todo: set<ObjId>, obj: ObjId)            // holding it: clear ppid, drop it
    | RemoveRelease                                        // drop the lock
    | Finished

  /** A callback: `pid` is the requestor, or the process that exits. */
  datatype Thread = Thread(pid: Pid, exiting: bool, pc: Pc)

  datatype State = State(os: Os, mem: Memory, sync: Sync, threads: map<Tid, Thread>)

  // ---------- what a thread holds at each point ----------

  predicate IsNested(pc: Pc) {
    match pc
    case LookupAcquire(l) => l.Nested?
    case LookupRead(l) => l.Nested?
    case LookupRelease(l, _) => l.Nested?
    case Create(l) => l.Nested?
    case InsertAcquire(l, _) => l.Nested?
    case Insert(l, _) => l.Nested?
    case InsertRelease(l, _, _) => l.Nested?
    case _ => false
  }

  predicate InLookup(pc: Pc) {
    pc.LookupRead? || pc.LookupRelease?
  }

  predicate InInsert(pc: Pc) {
    pc.Insert? || pc.InsertRelease?
  }

  /** How many acquisitions the thread has made as exclusive owner. */
  function ExclusiveDepth(pc: Pc): nat {
    if IsNested(pc) then (if InLookup(pc) || InInsert(pc) then 2 else 1)
    else if InInsert(pc) || pc.ParentRead? || pc.ParentUnguard? || pc.ParentRelease? || pc.RemoveEntry? || pc.Scan?
            || pc.ScanUnread? || pc.ScanWrite? || pc.ScanUnwrite? || pc.RemoveRelease? then 1
    else 0
  }

  function SharedDepth(pc: Pc): nat {
    if InLookup(pc) && !IsNested(pc) then 1 else 0
  }

  function ReadGuard(pc: Pc): Option<ObjId> {
    if IsNested(pc) then Some(pc.level.child)
    else if pc.ParentUnguard? then Some(pc.child)
    else if pc.ScanUnread? then Some(pc.obj)
    else None
  }

  function WriteGuard(pc: Pc): Option<ObjId> {
    if pc.ScanUnwrite? then Some(pc.obj) else None
  }

  // ---------- one step of one thread ----------

  /**
    * Everything outside the thread's control: does a fallible call succeed, does the callback go on to the parent,
    * which entry does the scan visit next.
    */
  datatype Choice = Choice(ok: bool, goOn: bool, pick: ObjId)

  function TargetPid(th: Thread, level: Level): Pid {
    match level
    case Top => th.pid
    case Nested(_, ppid) => ppid
  }

  /** Where `get_or_add_process_info` returns to. */
  function Return(level: Level, result: Option<ObjId>, c: Choice): Pc {
    match level
    case Top => if result.Some? && c.goOn then ParentAcquire(result.value) else Finished
    case Nested(child, _) => ParentUnguard(child, result)
  }

  predicate Unwritten(sync: Sync, obj: ObjId) {
    forall w | w in sync.writers :: w.0 != obj
  }

  predicate Unread(sync: Sync, obj: ObjId) {
    forall r | r in sync.readers :: r.0 != obj
  }

  /** What a step does to the shared state, and where the thread continues. */
  datatype Effect = Blocked | Go(os: Os, mem: Memory, sync: Sync, pc: Pc)

  function Acquire(s: State, t: Tid, exclusive: bool, pc: Pc): Effect {
    if exclusive then
      if s.sync.lock.CanAcquireExclusive(t) then
        Go(s.os, s.mem, s.sync.(lock := s.sync.lock.AcquireExclusive(t)), pc)
      else Blocked
    else
      if s.sync.lock.CanAcquireShared(t) then
        Go(s.os, s.mem, s.sync.(lock := s.sync.lock.AcquireShared(t)), pc)
      else Blocked
  }

  function Release(s: State, t: Tid, pc: Pc): Effect {
    Go(s.os, s.mem, s.sync.(lock := s.sync.lock.Release(t)), pc)
  }

  /** `ProcessInfo::from_pid`: fails once the process's exit callback has started, and may fail anyway. */
  function CreateInfo(s: State, level: Level, pid: Pid, c: Choice): Effect {
    if c.ok && pid in s.os.live then
      Go(s.os, s.mem.(heap := s.mem.heap + [Info(pid, s.os.Incarnation(pid), s.os.Ppid(pid))]), s.sync,
         InsertAcquire(level, |s.mem.heap|))
    else Go(s.os, s.mem, s.sync, Return(level, None, c))
  }

  /** The body of `add_process`: a refused reservation is an error, a present key is left alone. */
  function InsertInfo(s: State, level: Level, obj: ObjId, pid: Pid, c: Choice): Effect {
    if c.ok && pid !in s.mem.cache then
      Go(s.os, s.mem.(cache := s.mem.cache[pid := obj], cleared := s.mem.cleared[pid := {}]), s.sync,
         InsertRelease(level, obj, true))
    else Go(s.os, s.mem, s.sync, InsertRelease(level, obj, c.ok))
  }

  function ReadParent(s: State, t: Tid, child: ObjId): Effect {
    if Unwritten(s.sync, child) && child < |s.mem.heap| then
      Go(s.os, s.mem, s.sync.(readers := s.sync.readers + {(child, t)}),
         match s.mem.heap[child].ppid
         case None => ParentUnguard(child, None)
         case Some(ppid) => LookupAcquire(Nested(child, ppid)))
    else Blocked
  }

  /** Visit the next entry of the scan; when all are visited, the removal has taken effect. */
  function ScanNext(s: State, t: Tid, pid: Pid, todo: set<ObjId>, c: Choice): Effect {
    if todo == {} then
      Go(s.os, s.mem.(cleared := map p | p in s.mem.cleared :: s.mem.cleared[p] + {pid}), s.sync, RemoveRelease)
    else if c.pick in todo && Unwritten(s.sync, c.pick) then
      Go(s.os, s.mem, s.sync.(readers := s.sync.readers + {(c.pick, t)}), ScanUnread(todo, c.pick))
    else Blocked
  }

  function StepEffect(s: State, t: Tid, c: Choice): Effect
    requires t in s.threads
  {
    var th := s.threads[t];
    match th.pc
    case LookupAcquire(level) => Acquire(s, t, false, LookupRead(level))
    case LookupRead(level) =>
      var pid := TargetPid(th, level);
      Go(s.os, s.mem, s.sync, LookupRelease(level, if pid in s.mem.cache then Some(s.mem.cache[pid]) else None))
    case LookupRelease(level, found) =>
      Release(s, t, if found.Some? then Return(level, found, c) else Create(level))
    case Create(level) => CreateInfo(s, level, TargetPid(th, level), c)
    case InsertAcquire(level, obj) => Acquire(s, t, true, Insert(level, obj))
    case Insert(level, obj) => InsertInfo(s, level, obj, TargetPid(th, level), c)
    case InsertRelease(level, obj, added) => Release(s, t, Return(level, if added then Some(obj) else None, c))
    case ParentAcquire(child) => Acquire(s, t, true, ParentRead(child))
    case ParentRead(child) => ReadParent(s, t, child)
    case ParentUnguard(child, result) =>
      Go(s.os, s.mem, s.sync.(readers := s.sync.readers - {(child, t)}), ParentRelease(child, result))
    case ParentRelease(_, _) => Release(s, t, Finished)
    case RemoveAcquire => Acquire(s, t, true, RemoveEntry)
    case RemoveEntry =>
      var cache := s.mem.cache - {th.pid};
      Go(s.os.(pending := s.os.pending - {th.pid}), s.mem.(cache := cache), s.sync, Scan(cache.Values))
    case Scan(todo) => ScanNext(s, t, th.pid, todo, c)
    case ScanUnread(todo, obj) =>
      Go(s.os, s.mem, s.sync.(readers := s.sync.readers - {(obj, t)}),
         if obj < |s.mem.heap| && s.mem.heap[obj].ppid == Some(th.pid) then ScanWrite(todo, obj)
             else Scan(todo - {obj}))
    case ScanWrite(todo, obj) =>
      if Unwritten(s.sync, obj) && Unread(s.sync, obj) then
        Go(s.os, s.mem, s.sync.(writers := s.sync.writers + {(obj, t)}), ScanUnwrite(todo, obj))
      else Blocked
    case ScanUnwrite(todo, obj) =>
      Go(s.os,
         if obj < |s.mem.heap| then s.mem.(heap := s.mem.heap[obj := s.mem.heap[obj].(ppid := None)]) else s.mem,
         s.sync.(writers := s.sync.writers - {(obj, t)}), Scan(todo - {obj}))
    case RemoveRelease => Release(s, t, Finished)
    case Finished => Blocked
  }

  function WithThread(s: State, t: Tid, e: Effect): State
    requires t in s.threads && e.Go?
  {
    State(e.os, e.mem, e.sync, s.threads[t := s.threads[t].(pc := e.pc)])
  }

  // ---------- the system around the threads ----------

  datatype Action =
    | Run(t: Tid, c: Choice)           // a thread takes a step
    | StartFilter(t: Tid, pid: Pid)    // a running process makes a request
    | StartExit(t: Tid, pid: Pid)      // a process exits: its callback starts
    | Spawn(pid: Pid, starter: Pid)    // a running process starts another: its pid is given out

  /** A requestor cannot exit before its callback returns, and a pid is not reused while its removal is pending. */
  ghost predicate Enabled(s: State, a: Action) {
    match a
    case Run(t, c) => t in s.threads && StepEffect(s, t, c).Go?
    case StartFilter(t, pid) => t !in s.threads && pid in s.os.live
    case StartExit(t, pid) =>
      && t !in s.threads && pid in s.os.live
      && forall u | u in s.threads && !s.threads[u].exiting && s.threads[u].pid == pid :: s.threads[u].pc == Finished
    case Spawn(pid, starter) => pid !in s.os.live && pid !in s.os.pending && starter in s.os.live
  }

  function Next(s: State, a: Action): State
    requires Enabled(s, a)
  {
    match a
    case Run(t, c) => WithThread(s, t, StepEffect(s, t, c))
    case StartFilter(t, pid) => s.(threads := s.threads[t := Thread(pid, false, LookupAcquire(Top))])
    case StartExit(t, pid) =>
      s.(os := s.os.(live := s.os.live - {pid}, pending := s.os.pending + {pid}),
         threads := s.threads[t := Thread(pid, true, RemoveAcquire)])
    case Spawn(pid, starter) =>
      s.(os := s.os.(live := s.os.live + {pid}, spawned := s.os.spawned[pid := s.os.Incarnation(pid) + 1],
                     starters := s.os.starters[pid := Starter(starter, s.os.Incarnation(starter))]))
  }

  ghost predicate Initial(s: State) {
    && s.os.pending == {}
    && s.mem == Memory([], map[], map[])
    && s.sync == Sync(FREE, {}, {})
    && s.threads == map[]
  }
}
