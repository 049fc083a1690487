/** The reentrant reader/writer resource (src/kernel_objects/flt_resource.rs). */
module FltResources {
  import opened Wrappers

  type Tid = nat

  /**
    * An ERESOURCE: the exclusive owner with its nesting depth (which counts its nested shared acquisitions
    * too), or the threads that share it.
    */
  datatype Lock = Lock(owner: Option<Tid>, depth: nat, sharers: multiset<Tid>) {

    predicate CanAcquireExclusive(t: Tid) {
      owner == Some(t) || (owner == None && sharers == multiset{})
    }

    predicate CanAcquireShared(t: Tid) {
      owner == Some(t) || owner == None
    }

    function AcquireExclusive(t: Tid): Lock
      requires CanAcquireExclusive(t)
    {
      if owner == Some(t) then this.(depth := depth + 1) else Lock(Some(t), 1, sharers)
    }

    function AcquireShared(t: Tid): Lock
      requires CanAcquireShared(t)
    {
      if owner == Some(t) then this.(depth := depth + 1) else this.(sharers := sharers + multiset{t})
    }

    function Release(t: Tid): Lock {
      if owner == Some(t) then
        if depth <= 1 then Lock(None, 0, sharers) else this.(depth := depth - 1)
      else this.(sharers := sharers - multiset{t})
    }

    /** Is the lock in use as ERESOURCE allows it? */
    ghost predicate WellFormed() {
      && (owner.Some? ==> depth > 0 && sharers == multiset{})
      && (owner.None? ==> depth == 0)
    }
  }

  const FREE := Lock(None, 0, multiset{})

  /** Who is let in: to share, everybody unless another thread owns; to own, everybody unless another thread holds. */
  lemma AdmitsExactly(lock: Lock, t: Tid)
    requires lock.WellFormed()
    ensures lock.CanAcquireShared(t) <==> forall u: Tid | u != t :: lock.owner != Some(u)
    ensures lock.CanAcquireExclusive(t)
       <==> (forall u: Tid | u != t :: lock.owner != Some(u)) && lock.sharers == multiset{}
  {
    if lock.owner.Some? && lock.owner.value != t {
      assert lock.owner == Some(lock.owner.value);
    }
  }

  class FltResource {
    var lock: Lock

    constructor ()
      ensures lock == FREE
    {
      lock := FREE;
    }

    /** `acquire_exclusive`; a thread that would have to wait does not get past this call. */
    method AcquireExclusive(t: Tid)
      requires lock.CanAcquireExclusive(t) && lock.WellFormed()
      modifies this
      ensures lock == old(lock).AcquireExclusive(t) && lock.WellFormed()
      ensures lock.Release(t) == old(lock)
    {
      lock := lock.AcquireExclusive(t);
    }

    /** `acquire_shared`. */
    method AcquireShared(t: Tid)
      requires lock.CanAcquireShared(t) && lock.WellFormed()
      modifies this
      ensures lock == old(lock).AcquireShared(t) && lock.WellFormed()
      ensures lock.Release(t) == old(lock)
    {
      lock := lock.AcquireShared(t);
    }

    /** The drop of either guard. */
    method Release(t: Tid)
      requires lock.owner == Some(t) || t in lock.sharers
      modifies this
      ensures lock == old(lock).Release(t)
    {
      lock := lock.Release(t);
    }
  }
}
