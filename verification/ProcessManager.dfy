/** The process manager object and the ProcessInfo objects it caches (src/process_manager.rs). */
module ProcessManagers {
  import opened Wrappers
  import opened NtStrings
  import opened FltResources

  type Pid = nat

  class ProcessInfo {
    const name: NtStr
    var ppid: Option<Pid>

    constructor (name: NtStr, ppid: Option<Pid>)
      ensures this.name == name && this.ppid == ppid
    {
      this.name, this.ppid := name, ppid;
    }
  }

  /** What the system reports about a process that can still be looked up. */
  datatype ProcessFacts = ProcessFacts(name: NtStr, ppid: Option<Pid>)

  type Processes = map<Pid, ProcessFacts>

  /** The memory requests of `get_or_add_process_info`. */
  datatype CacheSite = AllocateInfo | ReserveEntry

  predicate AllGranted(refused: set<CacheSite>) {
    AllocateInfo !in refused && ReserveEntry !in refused
  }

  class ProcessManager {
    var processes: map<Pid, ProcessInfo>
    const processesLock: FltResource

    constructor ()
      ensures processes == map[] && fresh(processesLock) && processesLock.lock == FREE
    {
      processes := map[];
      processesLock := new FltResource();
    }

    /** Can `me` take the lock exclusively now (it is free, or already its own)? */
    ghost predicate Lockable(me: Tid)
      reads processesLock
    {
      processesLock.lock.WellFormed() && processesLock.lock.CanAcquireExclusive(me)
    }

    /** `process_info`. */
    method Lookup(me: Tid, pid: Pid) returns (r: Option<ProcessInfo>)
      requires processesLock.lock.WellFormed() && processesLock.lock.CanAcquireShared(me)
      modifies processesLock
      ensures processesLock.lock == old(processesLock.lock)
      ensures r == if pid in processes then Some(processes[pid]) else None
    {
      processesLock.AcquireShared(me);
      r := if pid in processes then Some(processes[pid]) else None;
      processesLock.Release(me);
    }

    /** `add_process`: an entry that is already there stays. */
    method AddProcess(me: Tid, pid: Pid, info: ProcessInfo, refused: set<CacheSite>) returns (r: Result<()>)
      requires Lockable(me)
      modifies this, processesLock
      ensures processesLock.lock == old(processesLock.lock)
      ensures ReserveEntry in refused ==> r == Failure(InsufficientResources) && processes == old(processes)
      ensures ReserveEntry !in refused ==>
                r.Success? && processes == if pid in old(processes) then old(processes) else old(processes)[pid := info]
    {
      processesLock.AcquireExclusive(me);
      if ReserveEntry in refused {
        r := Failure(InsufficientResources);
      } else {
        if pid !in processes {
          processes := processes[pid := info];
        }
        r := Success(());
      }
      processesLock.Release(me);
    }

    /**
      * `remove_process`: afterwards the pid is not cached, no cached entry names it as parent, and every other
      * entry and link is as it was.
      */
    method RemoveProcess(me: Tid, pid: Pid)
      requires Lockable(me)
      modifies this, processesLock, processes.Values
      ensures processesLock.lock == old(processesLock.lock)
      ensures processes == old(processes) - {pid}
      ensures forall info | info in old(processes.Values) ::
                info.ppid == if info in processes.Values && old(info.ppid) == Some(pid) then None else old(info.ppid)
    {
      processesLock.AcquireExclusive(me);
      processes := processes - {pid};
      ghost var before := processes;
      assert before.Values <= old(processes.Values);
      var todo := processes.Values;
      while todo != {}
        invariant processes == before && todo <= before.Values
        invariant processesLock.lock == old(processesLock.lock).AcquireExclusive(me)
        invariant forall info | info in before.Values && info !in todo ::
                    info.ppid == if old(info.ppid) == Some(pid) then None else old(info.ppid)
        invariant forall info | info in old(processes.Values) && (info in todo || info !in before.Values) ::
                    info.ppid == old(info.ppid)
        decreases todo
      {
        var info :| info in todo;
        if info.ppid == Some(pid) {
          info.ppid := None;
        }
        todo := todo - {info};
      }
      processesLock.Release(me);
    }

    /** `get_or_add_process_info`: the cached entry, or a new one made from what the system reports. */
    method GetOrAddProcessInfo(me: Tid, pid: Pid, system: Processes,
                               refused: set<CacheSite>) returns (r: Result<ProcessInfo>)
      requires Lockable(me)
      modifies this, processesLock
      ensures processesLock.lock == old(processesLock.lock)
      ensures r.Success? <==> pid in old(processes) || (pid in system && AllGranted(refused))
      ensures r.Failure? ==> processes == old(processes)
      ensures pid in old(processes) ==> processes == old(processes) && r.value == old(processes)[pid]
      ensures r.Success? && pid !in old(processes) ==>
                && fresh(r.value) && processes == old(processes)[pid := r.value]
                && r.value.name == system[pid].name && r.value.ppid == system[pid].ppid
    {
      var cached := Lookup(me, pid);
      if cached.Some? {
        return Success(cached.value);
      }
      if pid !in system {
        return Failure(InvalidParameter);
      }
      if AllocateInfo in refused {
        return Failure(InsufficientResources);
      }
      var info := new ProcessInfo(system[pid].name, system[pid].ppid);
      var added := AddProcess(me, pid, info, refused);
      if added.Failure? {
        return Failure(added.error);
      }
      return Success(info);
    }

    /**
      * `get_or_add_parent_process_info`: under the exclusive lock, which it nests, the entry of the parent that
      * the child records, if that parent is cached or can still be looked up.
      */
    method GetOrAddParentProcessInfo(me: Tid, child: ProcessInfo, system: Processes, refused: set<CacheSite>)
      returns (r: Option<ProcessInfo>)
      requires Lockable(me)
      modifies this, processesLock
      ensures processesLock.lock == old(processesLock.lock)
      ensures r.Some? <==> child.ppid.Some?
                           && (child.ppid.value in old(processes)
                                || (child.ppid.value in system && AllGranted(refused)))
      ensures r.None? ==> processes == old(processes)
      ensures r.Some? ==> child.ppid.value in processes && r.value == processes[child.ppid.value]
                          && (forall p | p in old(processes) :: p in processes && processes[p] == old(processes)[p])
                          && processes.Keys == old(processes).Keys + {child.ppid.value}
    {
      processesLock.AcquireExclusive(me);
      r := None;
      if child.ppid.Some? {
        var parent := GetOrAddProcessInfo(me, child.ppid.value, system, refused);
        if parent.Success? {
          r := Some(parent.value);
        }
      }
      processesLock.Release(me);
    }
  }
}
