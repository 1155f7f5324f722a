/** comm/mtaf_thread.h: the reference-counted control block of a Thread and the critical sections
    that change it. The functions give each section's effect; the methods carry it out on the
    object, with the spinlock guard the source uses. */
module ThreadControl {
  import opened Bytes
  import opened Conditions
  import opened Locks

  /** The fields of RunnableReference, plus condtime's sticky flag and whether the block was freed. */
  datatype Ctl = Ctl(
    count: int, tid: nat, isjoined: bool, isended: bool, cancelled: bool, sticky: bool,
    inthread: bool, killsig: int, target: Option<nat>, deleted: bool)

  datatype StartKind = Plain | Replacing(op: nat) | After | Periodic

  /** A new Thread: one reference, held by the handle. */
  function Created(target: Option<nat>): Ctl {
    Ctl(1, 0, false, true, false, false, false, 0, target, false)
  }

  function RemovedRef(c: Ctl): Ctl {
    c.(count := c.count - 1, deleted := c.count == 1)
  }

  function Prepared(c: Ctl, kind: StartKind): Ctl {
    match kind
    case Plain => c
    case Replacing(op) => c.(target := Some(op))
    case After => c.(sticky := false, cancelled := false)
    case Periodic => c.(sticky := false, cancelled := false)
  }

  /** start, start<T>, start_after, start_periodic: nothing while a routine is outstanding. A failed
      pthread_create takes its reference back. */
  function Started(c: Ctl, kind: StartKind, created: bool, tid: nat): Ctl {
    if !c.isended then c
    else
      var prepared := Prepared(c, kind);
      if created then prepared.(isended := false, count := c.count + 1, tid := tid)
      else RemovedRef(prepared.(count := c.count + 1))
  }

  /** cancel_after and cancel_periodic, first store and second store. */
  function CancelFlagged(c: Ctl): Ctl { if c.isended then c else c.(cancelled := true) }

  function CancelPosted(c: Ctl): Ctl { if c.isended then c else c.(sticky := true) }

  /** The section of join before its unlock; the caller goes on to pthread_join iff a routine runs. */
  function JoinEntered(c: Ctl): Ctl { if c.isended then c else c.(isjoined := true) }

  datatype KillReply = NoSuchThread | Recorded | SendNow

  function KillAnswer(c: Ctl): KillReply {
    if c.isended then NoSuchThread else if !c.inthread then Recorded else SendNow
  }

  function Killed(c: Ctl, sig: int): Ctl {
    if KillAnswer(c) == Recorded then c.(killsig := sig) else c
  }

  predicate Deliverable(sig: int) { 0 < sig <= 32 }

  function InThread(c: Ctl): Ctl { c.(inthread := true) }

  /** cleanup: the routine detaches itself unless somebody joined, then drops its reference. */
  function CleanedUp(c: Ctl): Ctl {
    RemovedRef(c.(inthread := false, killsig := 0, isended := true, isjoined := false))
  }

  class RunnableReference {
    var count: int
    var tid: nat
    var isjoined: bool
    var isended: bool
    var iscanceldelaystart: bool
    var isinthread: bool
    var killsig: int
    var target: Option<nat>
    var deleted: bool
    const condtime: Condition
    const splock: Mutex

    function C(): Ctl
      reads this, condtime
    {
      Ctl(count, tid, isjoined, isended, iscanceldelaystart, condtime.anywayNotify, isinthread, killsig, target, deleted)
    }

    /** Nobody is inside a section and the block, lock included, still exists. */
    ghost predicate Idle()
      reads this, splock
    {
      splock.alive && !splock.held && !deleted && count > 0
    }

    /** After a section: the lock is free, and it is gone exactly if the block is. */
    ghost predicate Left()
      reads this, splock
    {
      !splock.held && splock.alive == !deleted
    }

    /** Constructor of the block and AddRef by the Thread constructor. */
    constructor (t: Option<nat>)
      ensures Idle() && C() == Created(t) && fresh(splock) && fresh(condtime)
    {
      count, tid, isjoined, isended, iscanceldelaystart := 1, 0, false, true, false;
      isinthread, killsig, target, deleted := false, 0, t, false;
      condtime := new Condition();
      splock := new Mutex();
    }

    /** Drops a reference inside the section: unlock first, free the block after. */
    method RemoveRef(lock: ScopedLock)
      requires lock.Valid() && lock.mutex == splock && lock.islocked && count > 0 && !deleted
      modifies this, splock, lock
      ensures !lock.islocked && lock.Valid() && Left() && C() == RemovedRef(old(C()))
    {
      count := count - 1;
      var willdel := count == 0;
      lock.Unlock();
      if willdel {
        deleted := true;
        splock.Free();
      }
    }

    method Prepare(kind: StartKind)
      modifies this, condtime
      ensures C() == Prepared(old(C()), kind)
    {
      match kind {
        case Plain =>
        case Replacing(op) => target := Some(op);
        case After =>
          condtime.CancelAnyWayNotify();
          iscanceldelaystart := false;
        case Periodic =>
          condtime.CancelAnyWayNotify();
          iscanceldelaystart := false;
      }
    }

    method Start(kind: StartKind, createOk: bool, newTid: nat) returns (newone: bool)
      requires Idle() && (kind.Replacing? || target.Some?)
      modifies this, splock, condtime
      ensures Left() && C() == Started(old(C()), kind, createOk, newTid) && newone == old(isended)
    {
      var lock := new ScopedLock(splock);
      newone := false;
      if !isended {
        lock.Destroy();
        return;
      }
      Prepare(kind);
      Create(lock, createOk, newTid);
      newone := true;
      lock.Destroy();
    }

    /** From the store to isended to the end of the section: pthread_create and what its failure undoes. */
    method Create(lock: ScopedLock, createOk: bool, newTid: nat)
      requires lock.Valid() && lock.mutex == splock && lock.islocked && count > 0 && !deleted && isended
      modifies this, splock, lock
      ensures lock.Valid() && lock.islocked == createOk && !deleted
      ensures splock.alive && splock.held == createOk
      ensures C() == if createOk then old(C()).(isended := false, count := old(count) + 1, tid := newTid)
                     else RemovedRef(old(C()).(count := old(count) + 1))
    {
      isended := false;
      count := count + 1;
      if createOk {
        tid := newTid;
      } else {
        isended := true;
        RemoveRef(lock);
      }
    }

    method Cancel()
      requires Idle()
      modifies this, splock, condtime
      ensures Left() && C() == CancelPosted(CancelFlagged(old(C())))
    {
      var lock := new ScopedLock(splock);
      if !isended {
        iscanceldelaystart := true;
        condtime.PostNotify(true);
      }
      lock.Destroy();
    }

    /** join up to its unlock: wait tells whether pthread_join follows; EDEADLK if called by the
        routine itself. */
    method Join(self: nat) returns (wait: bool, deadlk: bool)
      requires Idle() && !isjoined
      modifies this, splock
      ensures Left() && deadlk == (old(tid) == self) && wait == (!deadlk && !old(isended))
      ensures C() == if deadlk then old(C()) else JoinEntered(old(C()))
    {
      var lock := new ScopedLock(splock);
      wait, deadlk := false, tid == self;
      if deadlk {
        lock.Destroy();
        return;
      }
      if !isended {
        isjoined := true;
        lock.Unlock();
        wait := true;
      }
      lock.Destroy();
    }

    method Kill(sig: int) returns (reply: KillReply)
      requires Idle()
      modifies this, splock
      ensures Left() && reply == KillAnswer(old(C())) && C() == Killed(old(C()), sig)
    {
      var lock := new ScopedLock(splock);
      if isended {
        lock.Destroy();
        return NoSuchThread;
      }
      if !isinthread {
        killsig := sig;
        lock.Destroy();
        return Recorded;
      }
      lock.Unlock();
      lock.Destroy();
      reply := SendNow;
    }

    /** init: from here on signals go to the thread directly; one recorded earlier is delivered now. */
    method Init() returns (deliver: Option<int>)
      requires Idle() && !isinthread
      modifies this, splock
      ensures Left() && C() == InThread(old(C()))
      ensures deliver == if Deliverable(old(killsig)) then Some(old(killsig)) else None
    {
      var lock := new ScopedLock(splock);
      isinthread := true;
      if !(0 < killsig && killsig <= 32) {
        lock.Destroy();
        return None;
      }
      lock.Unlock();
      deliver := Some(killsig);
      lock.Destroy();
    }

    /** cleanup at the end of every routine: detach tells whether the thread detached itself. */
    method Cleanup() returns (detach: bool)
      requires Idle() && isinthread && tid != 0
      modifies this, splock
      ensures Left() && C() == CleanedUp(old(C())) && detach == !old(isjoined)
    {
      var lock := new ScopedLock(splock);
      isinthread := false;
      killsig := 0;
      isended := true;
      detach := !isjoined;
      isjoined := false;
      RemoveRef(lock);
      lock.Destroy();
    }

    /** ~Thread: drop the handle's reference. */
    method DropHandle()
      requires Idle()
      modifies this, splock
      ensures Left() && C() == RemovedRef(old(C()))
    {
      var lock := new ScopedLock(splock);
      RemoveRef(lock);
      lock.Destroy();
    }
  }
}
