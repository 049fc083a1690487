/** Which process the parent lookup returns when pids are given out again: runs of one undisturbed callback. */
module ProcessParents {
  import opened Wrappers
  import opened FltResources
  import opened ProcessProtocol
  import opened ProcessSafety
  import opened ProcessRuns

  lemma {:induction false} RunsCompose(s: State, a: seq<Action>, now: State, b: seq<Action>)
    requires IsRun(s, a) && now == After(s, a) && IsRun(now, b)
    ensures IsRun(s, a + b) && After(s, a + b) == After(now, b)
    decreases |a|
  {
    if a == [] {
      assert a + b == b;
    } else {
      assert (a + b)[0] == a[0] && (a + b)[1..] == a[1..] + b;
      RunsCompose(Next(s, a[0]), a[1..], now, b);
    }
  }

  lemma Single(s: State, a: Action)
    requires Enabled(s, a)
    ensures IsRun(s, [a]) && After(s, [a]) == Next(s, a)
  {
    assert [a][1..] == [];
    assert IsRun(Next(s, a), []);
  }

  /** One more step of a run. */
  lemma StepOn(s: State, run: seq<Action>, now: State, t: Tid, c: Choice) returns (longer: seq<Action>, next: State)
    requires IsRun(s, run) && now == After(s, run) && t in now.threads && StepEffect(now, t, c).Go?
    ensures next == WithThread(now, t, StepEffect(now, t, c))
    ensures IsRun(s, longer) && After(s, longer) == next
  {
    Single(now, Run(t, c));
    RunsCompose(s, run, now, [Run(t, c)]);
    longer, next := run + [Run(t, c)], Next(now, Run(t, c));
  }

  /** The lock is free, or the thread has it exclusively. */
  predicate LockIsMine(lock: Lock, t: Tid) {
    lock == FREE || (lock.owner == Some(t) && lock.depth > 0)
  }

  lemma LockRestored(lock: Lock, t: Tid)
    requires LockIsMine(lock, t)
    ensures lock.CanAcquireShared(t) && lock.AcquireShared(t).Release(t) == lock
    ensures lock.CanAcquireExclusive(t) && lock.AcquireExclusive(t).Release(t) == lock
  {
  }

  /** A look-up that nobody disturbs, of a process that is not cached, goes on to make its entry. */
  lemma LookupMisses(s: State, t: Tid, level: Level, c: Choice) returns (run: seq<Action>, end: State)
    requires t in s.threads && s.threads[t].pc == LookupAcquire(level) && LockIsMine(s.sync.lock, t)
    requires TargetPid(s.threads[t], level) !in s.mem.cache
    ensures IsRun(s, run) && After(s, run) == end
    ensures end.os == s.os && end.mem == s.mem && end.sync == s.sync
    ensures t in end.threads && end.threads[t] == s.threads[t].(pc := Create(level))
  {
    LockRestored(s.sync.lock, t);
    assert StepEffect(s, t, c) == Go(s.os, s.mem, s.sync.(lock := s.sync.lock.AcquireShared(t)), LookupRead(level));
    run, end := StepOn(s, [], s, t, c);
    assert StepEffect(end, t, c) == Go(s.os, s.mem, end.sync, LookupRelease(level, None));
    run, end := StepOn(s, run, end, t, c);
    assert StepEffect(end, t, c) == Go(s.os, s.mem, s.sync, Create(level));
    run, end := StepOn(s, run, end, t, c);
  }

  /** An entry that is ready goes into the cache. */
  lemma InsertSucceeds(s: State, t: Tid, level: Level, obj: ObjId, c: Choice) returns (run: seq<Action>, end: State)
    requires t in s.threads && s.threads[t].pc == InsertAcquire(level, obj) && LockIsMine(s.sync.lock, t) && c.ok
    requires TargetPid(s.threads[t], level) !in s.mem.cache
    ensures IsRun(s, run) && After(s, run) == end
    ensures end.os == s.os && end.sync == s.sync && end.mem.heap == s.mem.heap
    ensures end.mem.cache == s.mem.cache[TargetPid(s.threads[t], level) := obj]
    ensures t in end.threads && end.threads[t] == s.threads[t].(pc := Return(level, Some(obj), c))
  {
    LockRestored(s.sync.lock, t);
    assert StepEffect(s, t, c) == Go(s.os, s.mem, s.sync.(lock := s.sync.lock.AcquireExclusive(t)), Insert(level, obj));
    run, end := StepOn(s, [], s, t, c);
    var inserted := InsertInfo(end, level, obj, TargetPid(s.threads[t], level), c);
    assert StepEffect(end, t, c) == inserted && inserted.pc == InsertRelease(level, obj, true);
    run, end := StepOn(s, run, end, t, c);
    assert StepEffect(end, t, c) == Go(s.os, inserted.mem, s.sync, Return(level, Some(obj), c));
    run, end := StepOn(s, run, end, t, c);
  }

  /** What is made for a running process is inserted. */
  lemma CreateInserts(s: State, t: Tid, level: Level, c: Choice) returns (run: seq<Action>, end: State)
    requires t in s.threads && s.threads[t].pc == Create(level) && LockIsMine(s.sync.lock, t) && c.ok
    requires TargetPid(s.threads[t], level) in s.os.live && TargetPid(s.threads[t], level) !in s.mem.cache
    ensures IsRun(s, run) && After(s, run) == end
    ensures var pid, obj := TargetPid(s.threads[t], level), |s.mem.heap|;
            && end.os == s.os && end.sync == s.sync
            && end.mem.heap == s.mem.heap + [Info(pid, s.os.Incarnation(pid), s.os.Ppid(pid))]
            && end.mem.cache == s.mem.cache[pid := obj]
            && t in end.threads && end.threads[t] == s.threads[t].(pc := Return(level, Some(obj), c))
  {
    var first, middle := StepOn(s, [], s, t, c);
    assert middle.threads[t].pc == InsertAcquire(level, |s.mem.heap|);
    var second;
    second, end := InsertSucceeds(middle, t, level, |s.mem.heap|, c);
    RunsCompose(s, first, middle, second);
    run := first + second;
  }

  lemma LookupInserts(s: State, t: Tid, level: Level, c: Choice) returns (run: seq<Action>, end: State)
    requires t in s.threads && s.threads[t].pc == LookupAcquire(level) && LockIsMine(s.sync.lock, t) && c.ok
    requires TargetPid(s.threads[t], level) in s.os.live && TargetPid(s.threads[t], level) !in s.mem.cache
    ensures IsRun(s, run) && After(s, run) == end
    ensures var pid, obj := TargetPid(s.threads[t], level), |s.mem.heap|;
            && end.os == s.os && end.sync == s.sync
            && end.mem.heap == s.mem.heap + [Info(pid, s.os.Incarnation(pid), s.os.Ppid(pid))]
            && end.mem.cache == s.mem.cache[pid := obj]
            && t in end.threads && end.threads[t] == s.threads[t].(pc := Return(level, Some(obj), c))
  {
    var first, middle := LookupMisses(s, t, level, c);
    var second;
    second, end := CreateInserts(middle, t, level, c);
    RunsCompose(s, first, middle, second);
    run := first + second;
  }

  /** A callback of a running process makes its entry, with the parent that the system reports. */
  lemma ChildIsCached(s: State, p: Pid, t: Tid, c: Choice) returns (run: seq<Action>, end: State)
    requires t !in s.threads && p in s.os.live && s.sync == Sync(FREE, {}, {}) && p !in s.mem.cache
    requires c.ok && c.goOn
    ensures IsRun(s, run) && After(s, run) == end
    ensures end.os == s.os && end.sync == s.sync
    ensures end.mem.heap == s.mem.heap + [Info(p, s.os.Incarnation(p), s.os.Ppid(p))]
    ensures end.mem.cache == s.mem.cache[p := |s.mem.heap|]
    ensures t in end.threads && end.threads[t] == Thread(p, false, ParentAcquire(|s.mem.heap|))
  {
    var start := StartFilter(t, p);
    Single(s, start);
    var second;
    second, end := LookupInserts(Next(s, start), t, Top, c);
    RunsCompose(s, [start], Next(s, start), second);
    run := [start] + second;
  }

  /** The parent lookup reads the recorded parent, under lock and guard. */
  lemma ParentIsRead(s: State, t: Tid, child: ObjId, q: Pid, c: Choice) returns (run: seq<Action>, end: State)
    requires t in s.threads && s.threads[t].pc == ParentAcquire(child) && s.sync == Sync(FREE, {}, {})
    requires child < |s.mem.heap| && s.mem.heap[child].ppid == Some(q)
    ensures IsRun(s, run) && After(s, run) == end && end.os == s.os && end.mem == s.mem
    ensures end.sync.lock == FREE.AcquireExclusive(t)
    ensures t in end.threads && end.threads[t] == s.threads[t].(pc := LookupAcquire(Nested(child, q)))
  {
    LockRestored(s.sync.lock, t);
    run, end := StepOn(s, [], s, t, c);
    assert StepEffect(end, t, c) == ReadParent(end, t, child);
    run, end := StepOn(s, run, end, t, c);
  }

  /** The parent lookup for a child whose recorded parent runs and is not cached. */
  lemma ParentIsLookedUp(s: State, t: Tid, child: ObjId, q: Pid, c: Choice) returns (run: seq<Action>, end: State)
    requires t in s.threads && s.threads[t].pc == ParentAcquire(child) && s.sync == Sync(FREE, {}, {})
    requires child < |s.mem.heap| && s.mem.heap[child].ppid == Some(q) && c.ok
    requires q in s.os.live && q !in s.mem.cache
    ensures IsRun(s, run) && After(s, run) == end && end.os == s.os
    ensures end.mem.heap == s.mem.heap + [Info(q, s.os.Incarnation(q), s.os.Ppid(q))]
    ensures t in end.threads && end.threads[t] == s.threads[t].(pc := ParentRelease(child, Some(|s.mem.heap|)))
  {
    var first, middle := ParentIsRead(s, t, child, q, c);
    var second, later := LookupInserts(middle, t, Nested(child, q), c);
    RunsCompose(s, first, middle, second);
    run, end := StepOn(s, first + second, later, t, c);
  }

  // ---------- the process that started the requestor ----------

  /** The pid is given out in the run. */
  ghost predicate GivenOut(run: seq<Action>, q: Pid) {
    exists i | 0 <= i < |run| :: run[i].Spawn? && run[i].pid == q
  }

  lemma GivenOutStep(run: seq<Action>, q: Pid)
    requires run != []
    ensures GivenOut(run, q) <==> (run[0].Spawn? && run[0].pid == q) || GivenOut(run[1..], q)
  {
    if i :| 0 <= i < |run[1..]| && run[1..][i].Spawn? && run[1..][i].pid == q {
      assert run[i + 1] == run[1..][i];
    }
    if i :| 0 <= i < |run| && run[i].Spawn? && run[i].pid == q {
      assert i == 0 || run[1..][i - 1] == run[i];
    }
  }

  lemma NextSpawns(s: State, a: Action, q: Pid)
    requires Enabled(s, a)
    ensures Next(s, a).os.Incarnation(q)
         == s.os.Incarnation(q) + (if a.Spawn? && a.pid == q then 1 else 0)
    ensures !(a.Spawn? && a.pid == q) ==> Next(s, a).os.Ppid(q) == s.os.Ppid(q)
  {
    if a.Run? {
      StepKeepsProcesses(s, a.t, a.c);
    }
  }

  /** A pid has a new incarnation exactly when it was given out. */
  lemma {:induction false} IncarnationGrows(s: State, run: seq<Action>, q: Pid)
    requires IsRun(s, run)
    ensures After(s, run).os.Incarnation(q) >= s.os.Incarnation(q)
    ensures After(s, run).os.Incarnation(q) == s.os.Incarnation(q) <==> !GivenOut(run, q)
    ensures !GivenOut(run, q) ==> After(s, run).os.Ppid(q) == s.os.Ppid(q)
    decreases |run|
  {
    if run != [] {
      NextSpawns(s, run[0], q);
      IncarnationGrows(Next(s, run[0]), run[1..], q);
      GivenOutStep(run, q);
    }
  }

  /**
    * A process p is started by q, and much later a callback of p returns from the parent lookup with an entry: it
    * is an entry for q's pid, and describes the very process that started p exactly when this pid has not been given
    * out again since.
    */
  lemma ParentIsStarterIff(s: State, before: seq<Action>, p: Pid, q: Pid, since: seq<Action>,
                           t: Tid, child: ObjId, result: ObjId)
    requires Initial(s) && IsRun(s, before) && Enabled(After(s, before), Spawn(p, q))
    requires IsRun(Next(After(s, before), Spawn(p, q)), since) && !GivenOut(since, p)
    requires var end := After(Next(After(s, before), Spawn(p, q)), since);
             t in end.threads && end.threads[t].pid == p && end.threads[t].pc == ParentRelease(child, Some(result))
    ensures var atStart, end := After(s, before), After(Next(After(s, before), Spawn(p, q)), since);
            && result < |end.mem.heap| && end.mem.heap[result].pid == q
            && (end.mem.heap[result].incarnation == atStart.os.Incarnation(q) <==> !GivenOut(since, q))
  {
    InitialInv(s);
    RunsKeepInv(s, before);
    var started := Next(After(s, before), Spawn(p, q));
    NextKeepsInv(After(s, before), Spawn(p, q));
    RunsKeepInv(started, since);
    var end := After(started, since);
    assert ThreadOk(end.os, end.mem, end.threads[t]);
    IncarnationGrows(started, since, p);
    IncarnationGrows(started, since, q);
  }

  // ---------- a parent whose pid is given out again ----------

  /** Nothing was ever cached. */
  predicate Untouched(mem: Memory) {
    mem.heap == [] && mem.cache == map[]
  }

  /** The removal of a process that nobody has cached, undisturbed: the key, */
  lemma EntryRemoved(s: State, q: Pid, u: Tid) returns (run: seq<Action>, end: State)
    requires u in s.threads && s.threads[u] == Thread(q, true, RemoveAcquire)
    requires Untouched(s.mem) && s.sync == Sync(FREE, {}, {})
    ensures IsRun(s, run) && After(s, run) == end
    ensures end.os == s.os.(pending := s.os.pending - {q}) && Untouched(end.mem)
    ensures end.sync == Sync(FREE.AcquireExclusive(u), {}, {})
    ensures end.threads == s.threads[u := Thread(q, true, Scan({}))]
  {
    var c, locked := Choice(true, false, 0), Sync(FREE.AcquireExclusive(u), {}, {});
    LockRestored(FREE, u);
    assert StepEffect(s, u, c) == Go(s.os, s.mem, locked, RemoveEntry);
    run, end := StepOn(s, [], s, u, c);
    assert s.mem.cache - {q} == map[] && s.mem.cache.Values == {};
    assert StepEffect(end, u, c).pc == Scan({});
    run, end := StepOn(s, run, end, u, c);
  }

  /** and the scan, which finds nothing to do. */
  lemma NothingScanned(s: State, q: Pid, u: Tid) returns (run: seq<Action>, end: State)
    requires u in s.threads && s.threads[u] == Thread(q, true, Scan({}))
    requires Untouched(s.mem) && s.sync == Sync(FREE.AcquireExclusive(u), {}, {})
    ensures IsRun(s, run) && After(s, run) == end
    ensures end.os == s.os && Untouched(end.mem) && end.sync == Sync(FREE, {}, {})
    ensures end.threads == s.threads[u := Thread(q, true, Finished)]
  {
    var c := Choice(true, false, 0);
    LockRestored(FREE, u);
    assert StepEffect(s, u, c) == ScanNext(s, u, q, {}, c);
    run, end := StepOn(s, [], s, u, c);
    assert StepEffect(end, u, c) == Go(s.os, end.mem, Sync(FREE, {}, {}), Finished);
    run, end := StepOn(s, run, end, u, c);
  }

  lemma ExitsUnnoticed(s: State, q: Pid, u: Tid) returns (run: seq<Action>, end: State)
    requires s.threads == map[] && q in s.os.live && q !in s.os.pending
    requires Untouched(s.mem) && s.sync == Sync(FREE, {}, {})
    ensures IsRun(s, run) && After(s, run) == end
    ensures end.os == s.os.(live := s.os.live - {q}) && Untouched(end.mem) && end.sync == s.sync
    ensures end.threads == map[u := Thread(q, true, Finished)]
  {
    var start := StartExit(u, q);
    var removal, scanned := EntryRemoved(Next(s, start), q, u);
    var rest;
    rest, end := NothingScanned(scanned, q, u);
    RunsCompose(Next(s, start), removal, scanned, rest);
    Prepend(s, start, removal + rest);
    run := [start] + (removal + rest);
    assert s.os.pending + {q} - {q} == s.os.pending;
  }

  /** One action, then a run. */
  lemma Prepend(s: State, a: Action, run: seq<Action>)
    requires Enabled(s, a) && IsRun(Next(s, a), run)
    ensures IsRun(s, [a] + run) && After(s, [a] + run) == After(Next(s, a), run)
  {
    assert ([a] + run)[0] == a && ([a] + run)[1..] == run;
  }

  /** The last part of the run below: the callback of p. */
  lemma CallbackFindsParent(s: State, p: Pid, q: Pid, t: Tid) returns (run: seq<Action>, end: State)
    requires t !in s.threads && s.sync == Sync(FREE, {}, {}) && Untouched(s.mem)
    requires p in s.os.live && q in s.os.live && p != q && s.os.Ppid(p) == Some(q)
    ensures IsRun(s, run) && After(s, run) == end && end.os == s.os
    ensures t in end.threads && end.threads[t] == Thread(p, false, ParentRelease(0, Some(1)))
    ensures |end.mem.heap| == 2 && end.mem.heap[1] == Info(q, s.os.Incarnation(q), s.os.Ppid(q))
  {
    var first, middle := ChildIsCached(s, p, t, Choice(true, true, 0));
    assert 0 < |middle.mem.heap| && middle.mem.heap[0] == Info(p, s.os.Incarnation(p), Some(q));
    var second;
    second, end := ParentIsLookedUp(middle, t, 0, q, Choice(true, false, 0));
    RunsCompose(s, first, middle, second);
    run := first + second;
  }

  /**
    * A run in which the parent lookup returns a stranger: q starts p, q exits and is removed, r starts a new q, and
    * then a callback of p looks for its parent.
    */
  lemma StrangerIsReturned(s: State, p: Pid, q: Pid, r: Pid, t: Tid, u: Tid) returns (run: seq<Action>)
    requires Initial(s) && q in s.os.live && r in s.os.live && q != r && p !in s.os.live && t != u
    ensures IsRun(s, run) && run != [] && run[0] == Spawn(p, q)
    ensures var end := After(s, run);
            && end.os.Ppid(p) == Some(q) && end.os.starters[p].incarnation == s.os.Incarnation(q)
            && t in end.threads && end.threads[t] == Thread(p, false, ParentRelease(0, Some(1)))
            && |end.mem.heap| == 2 && end.mem.heap[1].pid == q
            && end.mem.heap[1].incarnation == s.os.Incarnation(q) + 1
  {
    var started := Next(s, Spawn(p, q));
    var exit, left := ExitsUnnoticed(started, q, u);
    var again := Next(left, Spawn(q, r));
    assert again.os.starters[p] == Starter(q, s.os.Incarnation(q));
    var callback, end := CallbackFindsParent(again, p, q, t);
    Prepend(left, Spawn(q, r), callback);
    RunsCompose(started, exit, left, [Spawn(q, r)] + callback);
    Prepend(s, Spawn(p, q), exit + ([Spawn(q, r)] + callback));
    run := [Spawn(p, q)] + (exit + ([Spawn(q, r)] + callback));
  }
}
