/** What single look-ups and updates of the process cache's threads come to, whatever the others do meanwhile. */
module ProcessLookups {
  import opened Wrappers
  import opened FltResources
  import opened ProcessProtocol
  import opened ProcessSafety
  import opened ProcessRuns

  /** No step of the thread is part of the run. */
  ghost predicate Rests(run: seq<Action>, t: Tid) {
    forall i | 0 <= i < |run| :: !(run[i].Run? && run[i].t == t)
  }

  /** A thread that makes no step stays where it is. */
  lemma {:induction false} RestingStays(s: State, run: seq<Action>, t: Tid)
    requires IsRun(s, run) && Rests(run, t) && t in s.threads
    ensures t in After(s, run).threads && After(s, run).threads[t] == s.threads[t]
    decreases |run|
  {
    if run != [] {
      assert !(run[0].Run? && run[0].t == t);
      assert Rests(run[1..], t) by {
        assert forall i | 0 <= i < |run[1..]| :: run[1..][i] == run[i + 1];
      }
      RestingStays(Next(s, run[0]), run[1..], t);
    }
  }

  /**
    * A look-up that finds the pid in the cache ends with that very object, which no step of anybody else can change
    * any more, and makes no new one.
    */
  lemma CachedIsReused(s: State, t: Tid, level: Level, c: Choice, run: seq<Action>, d: Choice)
    requires t in s.threads && s.threads[t].pc == LookupRead(level) && TargetPid(s.threads[t], level) in s.mem.cache
    requires IsRun(Next(s, Run(t, c)), run) && Rests(run, t)
    requires Enabled(After(Next(s, Run(t, c)), run), Run(t, d))
    ensures var now := After(Next(s, Run(t, c)), run);
            var end := Next(now, Run(t, d));
            && end.threads[t].pc == Return(level, Some(s.mem.cache[TargetPid(s.threads[t], level)]), d)
            && end.mem == now.mem && end.os == now.os
  {
    RestingStays(Next(s, Run(t, c)), run, t);
  }

  /** A look-up that does not find the pid goes on to make an object. */
  lemma UncachedIsMade(s: State, t: Tid, level: Level, c: Choice, run: seq<Action>, d: Choice)
    requires t in s.threads && s.threads[t].pc == LookupRead(level) && TargetPid(s.threads[t], level) !in s.mem.cache
    requires IsRun(Next(s, Run(t, c)), run) && Rests(run, t)
    requires Enabled(After(Next(s, Run(t, c)), run), Run(t, d))
    ensures Next(After(Next(s, Run(t, c)), run), Run(t, d)).threads[t].pc == Create(level)
  {
    RestingStays(Next(s, Run(t, c)), run, t);
  }

  /** A present key is left alone; the callback still goes on with the object it made, unless memory is refused. */
  lemma PresentIsKept(s: State, t: Tid, level: Level, obj: ObjId, c: Choice, run: seq<Action>, d: Choice)
    requires t in s.threads && s.threads[t].pc == Insert(level, obj) && TargetPid(s.threads[t], level) in s.mem.cache
    requires IsRun(Next(s, Run(t, c)), run) && Rests(run, t)
    requires Enabled(After(Next(s, Run(t, c)), run), Run(t, d))
    ensures Next(s, Run(t, c)).mem == s.mem
    ensures Next(After(Next(s, Run(t, c)), run), Run(t, d)).threads[t].pc
         == Return(level, if c.ok then Some(obj) else None, d)
  {
    RestingStays(Next(s, Run(t, c)), run, t);
  }

  /** An absent key gets the object, unless memory is refused. */
  lemma AbsentIsInserted(s: State, t: Tid, level: Level, obj: ObjId, c: Choice)
    requires t in s.threads && s.threads[t].pc == Insert(level, obj) && TargetPid(s.threads[t], level) !in s.mem.cache
    ensures var end := Next(s, Run(t, c));
            && end.mem.heap == s.mem.heap
            && end.mem.cache == (if c.ok then s.mem.cache[TargetPid(s.threads[t], level) := obj] else s.mem.cache)
            && end.threads[t].pc == InsertRelease(level, obj, c.ok)
  {
  }

  /** What is made carries the pid, its incarnation and the parent that the system reports at this moment. */
  lemma MadeAsReported(s: State, t: Tid, level: Level, c: Choice)
    requires t in s.threads && s.threads[t].pc == Create(level)
    ensures var pid, end := TargetPid(s.threads[t], level), Next(s, Run(t, c));
            && end.mem.cache == s.mem.cache
            && (c.ok && pid in s.os.live ==>
                  && end.mem.heap == s.mem.heap + [Info(pid, s.os.Incarnation(pid), s.os.Ppid(pid))]
                  && end.threads[t].pc == InsertAcquire(level, |s.mem.heap|))
            && (!(c.ok && pid in s.os.live) ==>
                  end.mem == s.mem && end.threads[t].pc == Return(level, None, c))
  {
  }

  /**
    * A callback that finds its entry without a parent returns without one, and makes nothing, whatever happens
    * between its steps.
    */
  lemma NoParentNoLookup(s: State, t: Tid, child: ObjId, c: Choice, run: seq<Action>, d: Choice, later: seq<Action>,
                         e: Choice)
    requires t in s.threads && s.threads[t].pc == ParentRead(child) && Enabled(s, Run(t, c))
    requires child < |s.mem.heap| && s.mem.heap[child].ppid == None
    requires IsRun(Next(s, Run(t, c)), run) && Rests(run, t)
    requires Enabled(After(Next(s, Run(t, c)), run), Run(t, d))
    requires IsRun(Next(After(Next(s, Run(t, c)), run), Run(t, d)), later) && Rests(later, t)
    requires Enabled(After(Next(After(Next(s, Run(t, c)), run), Run(t, d)), later), Run(t, e))
    ensures Next(s, Run(t, c)).mem == s.mem && Next(s, Run(t, c)).threads[t].pc == ParentUnguard(child, None)
    ensures var second := Next(After(Next(s, Run(t, c)), run), Run(t, d));
            second.threads[t].pc == ParentRelease(child, None)
    ensures Next(After(Next(After(Next(s, Run(t, c)), run), Run(t, d)), later), Run(t, e)).threads[t].pc == Finished
  {
    RestingStays(Next(s, Run(t, c)), run, t);
    RestingStays(Next(After(Next(s, Run(t, c)), run), Run(t, d)), later, t);
  }

  /** With a recorded parent, the look-up of that pid begins, under lock and guard. */
  lemma ParentIsLookedFor(s: State, t: Tid, child: ObjId, c: Choice)
    requires t in s.threads && s.threads[t].pc == ParentRead(child) && Enabled(s, Run(t, c))
    requires child < |s.mem.heap| && s.mem.heap[child].ppid.Some?
    ensures Next(s, Run(t, c)).mem == s.mem
    ensures Next(s, Run(t, c)).threads[t].pc == LookupAcquire(Nested(child, s.mem.heap[child].ppid.value))
  {
  }

  // ---------- what a step may change ----------

  /** Objects keep pid and incarnation; a parent link goes only where a removal clears links to its own process. */
  ghost predicate ObjectsKept(mem: Memory, mem': Memory, th: Thread) {
    && |mem.heap| <= |mem'.heap|
    && forall o | 0 <= o < |mem.heap| ::
         || mem'.heap[o] == mem.heap[o]
         || (th.exiting && mem.heap[o].ppid == Some(th.pid) && mem'.heap[o] == mem.heap[o].(ppid := None))
  }

  /** Entries stay, but for the one whose process is removed; and only a missing one is inserted. */
  ghost predicate EntriesKept(mem: Memory, mem': Memory, th: Thread) {
    && (forall p | p in mem.cache ::
          if th.pc == RemoveEntry && p == th.pid then p !in mem'.cache
          else p in mem'.cache && mem'.cache[p] == mem.cache[p])
    && (forall p | p in mem'.cache && p !in mem.cache ::
          th.pc.Insert? && p == TargetPid(th, th.pc.level) && mem'.cache[p] == th.pc.obj)
  }

  /** Every step of every thread, in every reachable state, changes no more than that. */
  lemma StepChangesLittle(s: State, run: seq<Action>, t: Tid, c: Choice)
    requires Initial(s) && IsRun(s, run) && Enabled(After(s, run), Run(t, c))
    ensures var now := After(s, run);
            && ObjectsKept(now.mem, Next(now, Run(t, c)).mem, now.threads[t])
            && EntriesKept(now.mem, Next(now, Run(t, c)).mem, now.threads[t])
  {
    InitialInv(s);
    RunsKeepInv(s, run);
    var now := After(s, run);
    assert ThreadOk(now.os, now.mem, now.threads[t]);
  }
}
