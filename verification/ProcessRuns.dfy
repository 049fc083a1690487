/** Properties of all runs of the process cache's threads. */
module ProcessRuns {
  import opened Wrappers
  import opened FltResources
  import opened ProcessProtocol
  import opened ProcessSafety

  // ---------- the invariant holds in every reachable state ----------

  lemma StepKeepsRemovals(s: State, t: Tid, c: Choice)
    requires Inv(s) && t in s.threads && StepEffect(s, t, c).Go?
    ensures var s' := WithThread(s, t, StepEffect(s, t, c)); forall p | p in s'.os.pending ::
            RemovalAhead(s'.threads, p)
  {
    var s' := WithThread(s, t, StepEffect(s, t, c));
    forall p | p in s'.os.pending
      ensures RemovalAhead(s'.threads, p)
    {
      assert RemovalAhead(s.threads, p);
      var u :| u in s.threads && s.threads[u].pid == p
          && (s.threads[u].pc.RemoveAcquire? || s.threads[u].pc.RemoveEntry?);
      assert s'.threads[u].pid == p;
    }
  }

  lemma RunKeepsInv(s: State, t: Tid, c: Choice)
    requires Inv(s) && Enabled(s, Run(t, c))
    ensures Inv(Next(s, Run(t, c)))
  {
    StepKeepsSync(s, t, c);
    StepKeepsCache(s, t, c);
    StepKeepsInfos(s, t, c);
    StepKeepsRemovals(s, t, c);
    OwnStepOk(s, t, c);
    forall u | u in s.threads && u != t {
      OthersOk(s, t, c, u);
    }
  }

  /** A new thread that holds nothing. */
  lemma NewThreadKeepsSync(s: State, t: Tid, th: Thread)
    requires SyncInv(s.sync, s.threads) && t !in s.threads
    requires th.pc == LookupAcquire(Top) || th.pc == RemoveAcquire
    ensures SyncInv(s.sync, s.threads[t := th])
  {
    var threads := s.threads[t := th];
    forall u: Tid
      ensures SyncMatches(s.sync, u, PcOf(threads, u))
    {
      assert SyncMatches(s.sync, u, PcOf(s.threads, u));
    }
  }

  lemma StartFilterKeepsInv(s: State, t: Tid, pid: Pid)
    requires Inv(s) && Enabled(s, StartFilter(t, pid))
    ensures Inv(Next(s, StartFilter(t, pid)))
  {
    var s' := Next(s, StartFilter(t, pid));
    NewThreadKeepsSync(s, t, s'.threads[t]);
    forall p | p in s'.os.pending
      ensures RemovalAhead(s'.threads, p)
    {
      assert RemovalAhead(s.threads, p);
      var u :| u in s.threads && s.threads[u].pid == p
          && (s.threads[u].pc.RemoveAcquire? || s.threads[u].pc.RemoveEntry?);
      assert s'.threads[u] == s.threads[u];
    }
  }

  /** The exit of another process. */
  lemma OthersOnExit(os: Os, mem: Memory, th: Thread, pid: Pid)
    requires ThreadOk(os, mem, th) && (th.pc == Finished || th.exiting || th.pid != pid)
    ensures ThreadOk(os.(live := os.live - {pid}, pending := os.pending + {pid}), mem, th)
  {
  }

  /** A new process. */
  lemma OthersOnSpawn(os: Os, os': Os, mem: Memory, th: Thread, pid: Pid)
    requires ThreadOk(os, mem, th) && pid !in os.live && pid !in os.pending
    requires os'.live == os.live + {pid} && os'.pending == os.pending
    requires forall p | p != pid :: os'.Incarnation(p) == os.Incarnation(p)
    ensures ThreadOk(os', mem, th)
  {
  }

  lemma StartExitKeepsInv(s: State, t: Tid, pid: Pid)
    requires Inv(s) && Enabled(s, StartExit(t, pid))
    ensures Inv(Next(s, StartExit(t, pid)))
  {
    var s' := Next(s, StartExit(t, pid));
    NewThreadKeepsSync(s, t, s'.threads[t]);
    forall u | u in s'.threads
      ensures ThreadOk(s'.os, s'.mem, s'.threads[u])
    {
      if u != t {
        OthersOnExit(s.os, s.mem, s.threads[u], pid);
      }
    }
    forall p | p in s'.os.pending
      ensures RemovalAhead(s'.threads, p)
    {
      if p == pid {
        assert s'.threads[t].pid == p;
      } else {
        assert RemovalAhead(s.threads, p);
        var u :| u in s.threads && s.threads[u].pid == p
            && (s.threads[u].pc.RemoveAcquire? || s.threads[u].pc.RemoveEntry?);
        assert s'.threads[u] == s.threads[u];
      }
    }
  }

  lemma SpawnKeepsInv(s: State, pid: Pid, starter: Pid)
    requires Inv(s) && Enabled(s, Spawn(pid, starter))
    ensures Inv(Next(s, Spawn(pid, starter)))
  {
    var s' := Next(s, Spawn(pid, starter));
    forall u | u in s'.threads
      ensures ThreadOk(s'.os, s'.mem, s'.threads[u])
    {
      OthersOnSpawn(s.os, s'.os, s.mem, s.threads[u], pid);
    }
  }

  lemma NextKeepsInv(s: State, a: Action)
    requires Inv(s) && Enabled(s, a)
    ensures Inv(Next(s, a))
  {
    match a
    case Run(t, c) => RunKeepsInv(s, t, c);
    case StartFilter(t, pid) => StartFilterKeepsInv(s, t, pid);
    case StartExit(t, pid) => StartExitKeepsInv(s, t, pid);
    case Spawn(pid, starter) => SpawnKeepsInv(s, pid, starter);
  }

  ghost predicate IsRun(s: State, run: seq<Action>)
    decreases |run|
  {
    run == [] || (Enabled(s, run[0]) && IsRun(Next(s, run[0]), run[1..]))
  }

  ghost function After(s: State, run: seq<Action>): State
    requires IsRun(s, run)
    decreases |run|
  {
    if run == [] then s else After(Next(s, run[0]), run[1..])
  }

  lemma {:induction false} RunsKeepInv(s: State, run: seq<Action>)
    requires Inv(s) && IsRun(s, run)
    ensures Inv(After(s, run))
    decreases |run|
  {
    if run != [] {
      NextKeepsInv(s, run[0]);
      RunsKeepInv(Next(s, run[0]), run[1..]);
    }
  }

  lemma InitialInv(s: State)
    requires Initial(s)
    ensures Inv(s)
  {
  }

  // ---------- the cache ----------

  /**
    * In every reachable state each cached entry describes the current incarnation of its pid, and that process
    * is live or its exit callback has not made its removal yet.
    */
  lemma CachedIsLiveOrPending(s: State, run: seq<Action>, p: Pid)
    requires Initial(s) && IsRun(s, run) && p in After(s, run).mem.cache
    ensures var end := After(s, run);
            && end.mem.cache[p] < |end.mem.heap|
            && var info := end.mem.heap[end.mem.cache[p]];
            && info.pid == p && info.incarnation == end.os.Incarnation(p)
            && (p in end.os.live || RemovalAhead(end.threads, p))
  {
    InitialInv(s);
    RunsKeepInv(s, run);
  }

  /** In every reachable state no cached entry names a parent whose removal took effect after the entry was inserted. */
  lemma NoRemovedParent(s: State, run: seq<Action>, p: Pid, q: Pid)
    requires Initial(s) && IsRun(s, run) && p in After(s, run).mem.cache
    ensures var end := After(s, run);
            && end.mem.cache[p] < |end.mem.heap| && p in end.mem.cleared
            && (end.mem.heap[end.mem.cache[p]].ppid == Some(q) ==> q !in end.mem.cleared[p])
  {
    InitialInv(s);
    RunsKeepInv(s, run);
  }

  /** When a removal is about to drop its lock, the pid is not cached and no cached entry names it as parent. */
  lemma RemovalLeavesNoTrace(s: State, run: seq<Action>, t: Tid)
    requires Initial(s) && IsRun(s, run)
    requires t in After(s, run).threads && After(s, run).threads[t].pc == RemoveRelease
    ensures var end, q := After(s, run), After(s, run).threads[t].pid;
            && q !in end.mem.cache
            && forall p | p in end.mem.cache ::
                 end.mem.cache[p] < |end.mem.heap| && end.mem.heap[end.mem.cache[p]].ppid != Some(q)
  {
    InitialInv(s);
    RunsKeepInv(s, run);
    assert ThreadOk(After(s, run).os, After(s, run).mem, After(s, run).threads[t]);
  }

  /**
    * The parent lookup returns only an entry for the parent recorded in the requestor's own entry, which is the pid
    * the system reports, for that pid's current incarnation, of a process that is live or whose removal is still
    * ahead at the moment of return. Module ProcessParents says when it is the process that started the requestor.
    */
  lemma ParentLookupIsLive(s: State, run: seq<Action>, t: Tid, c: Choice, child: ObjId, result: ObjId)
    requires Initial(s) && IsRun(s, run)
    requires t in After(s, run).threads && After(s, run).threads[t].pc == ParentRelease(child, Some(result))
    requires Enabled(After(s, run), Run(t, c))
    ensures var end := Next(After(s, run), Run(t, c));
            && end.threads[t].pc == Finished
            && child < |end.mem.heap| && result < |end.mem.heap|
            && var info, parent := end.mem.heap[child], end.mem.heap[result];
            && info.pid == end.threads[t].pid && info.incarnation == end.os.Incarnation(info.pid)
            && info.ppid == end.os.Ppid(info.pid) == Some(parent.pid)
            && (parent.pid in end.os.live || RemovalAhead(end.threads, parent.pid))
            && parent.incarnation == end.os.Incarnation(parent.pid)
  {
    InitialInv(s);
    RunsKeepInv(s, run);
    var now := After(s, run);
    assert ThreadOk(now.os, now.mem, now.threads[t]);
    NextKeepsInv(now, Run(t, c));
  }

  // ---------- locking ----------

  /**
    * The discipline: guards are held by the exclusive owner only, a thread that asks for the lock exclusively
    * does not share it, and a callback that has returned holds nothing.
    */
  lemma LockDiscipline(s: State, run: seq<Action>, t: Tid)
    requires Initial(s) && IsRun(s, run) && t in After(s, run).threads
    ensures var end, pc := After(s, run), After(s, run).threads[t].pc;
            && (forall o: ObjId | (o, t) in end.sync.readers || (o, t) in end.sync.writers ::
                 end.sync.lock.owner == Some(t))
            && (pc.InsertAcquire? || pc.ParentAcquire? || pc.RemoveAcquire? ==> end.sync.lock.sharers[t] == 0)
            && (pc == Finished ==>
                  && end.sync.lock.owner != Some(t) && end.sync.lock.sharers[t] == 0
                  && forall o: ObjId :: (o, t) !in end.sync.readers && (o, t) !in end.sync.writers)
  {
    InitialInv(s);
    RunsKeepInv(s, run);
    var end := After(s, run);
    assert SyncMatches(end.sync, t, PcOf(end.threads, t));
  }

  /** A thread that waits for the lock exclusively. */
  predicate WantsExclusive(th: Thread) {
    th.pc.InsertAcquire? || th.pc.ParentAcquire? || th.pc.RemoveAcquire?
  }

  /** A step that does not overtake: the lock is not shared anew while somebody waits for it exclusively. */
  ghost predicate Fair(s: State, t: Tid) {
    t in s.threads && (s.threads[t].pc.LookupAcquire? && s.sync.lock.owner != Some(t) ==>
      forall u | u in s.threads :: !WantsExclusive(s.threads[u]))
  }

  ghost predicate CanStep(s: State, t: Tid) {
    Fair(s, t) && exists c :: StepEffect(s, t, c).Go?
  }

  /** The exclusive owner is never blocked. */
  lemma OwnerCanStep(s: State, t: Tid)
    requires Inv(s) && s.sync.lock.owner == Some(t)
    ensures CanStep(s, t)
  {
    assert SyncMatches(s.sync, t, PcOf(s.threads, t));
    forall o: ObjId, u: Tid
      ensures ((o, u) in s.sync.readers ==> u == t && ReadGuard(s.threads[t].pc) == Some(o))
      ensures ((o, u) in s.sync.writers ==> u == t && WriteGuard(s.threads[t].pc) == Some(o))
    {
      assert SyncMatches(s.sync, u, PcOf(s.threads, u));
    }
    assert ThreadOk(s.os, s.mem, s.threads[t]);
    var pick := if s.threads[t].pc.Scan? && s.threads[t].pc.todo != {} then PickOne(s.threads[t].pc.todo) else 0;
    assert StepEffect(s, t, Choice(false, false, pick)).Go?;
  }

  ghost function PickOne(todo: set<ObjId>): (o: ObjId)
    requires todo != {}
    ensures o in todo
  {
    var o :| o in todo; o
  }

  /** A sharer is never blocked. */
  lemma SharerCanStep(s: State, t: Tid)
    requires Inv(s) && t in s.sync.lock.sharers
    ensures CanStep(s, t)
  {
    assert SyncMatches(s.sync, t, PcOf(s.threads, t));
    assert StepEffect(s, t, Choice(false, false, 0)).Go?;
  }

  /** With the lock free, a waiting writer can step, and without one everybody can. */
  lemma FreeCanStep(s: State, t: Tid) returns (u: Tid)
    requires Inv(s) && t in s.threads && s.threads[t].pc != Finished
    requires s.sync.lock.owner == None && s.sync.lock.sharers == multiset{}
    ensures u in s.threads && CanStep(s, u)
  {
    if w :| w in s.threads && WantsExclusive(s.threads[w]) {
      u := w;
    } else {
      u := t;
    }
    assert SyncMatches(s.sync, u, PcOf(s.threads, u));
    assert StepEffect(s, u, Choice(false, false, 0)).Go?;
  }

  /**
    * Freedom from deadlock: in every reachable state with an unfinished callback some callback can step, even
    * if sharing is refused whenever somebody waits for the lock exclusively.
    */
  lemma NoDeadlock(s: State, run: seq<Action>, t: Tid)
    requires Initial(s) && IsRun(s, run)
    requires t in After(s, run).threads && After(s, run).threads[t].pc != Finished
    ensures exists u :: u in After(s, run).threads && CanStep(After(s, run), u)
  {
    InitialInv(s);
    RunsKeepInv(s, run);
    var end := After(s, run);
    if end.sync.lock.owner.Some? {
      var o := end.sync.lock.owner.value;
      OwnerCanStep(end, o);
      assert o in end.threads;
    } else if end.sync.lock.sharers != multiset{} {
      var o :| o in end.sync.lock.sharers;
      SharerCanStep(end, o);
      assert o in end.threads;
    } else {
      var u := FreeCanStep(end, t);
    }
  }
}
