/** comm/mtaf_lock.h and the two lock classes under it. A lock object can be freed while a guard for
    it is still on somebody's stack, so every use of a lock checks that it is alive. */
module Locks {

  /** Mutex and SpinLock, seen from one thread: Lock is entered when the lock is free. */
  class Mutex {
    var held: bool
    var alive: bool

    constructor ()
      ensures !held && alive
    {
      held, alive := false, true;
    }

    method Lock()
      requires alive && !held
      modifies this
      ensures held && alive
    {
      held := true;
    }

    method Unlock()
      requires alive && held
      modifies this
      ensures !held && alive
    {
      held := false;
    }

    method TryLock() returns (ok: bool)
      requires alive
      modifies this
      ensures alive && held && ok == !old(held)
    {
      ok := !held;
      held := true;
    }

    /** The memory of the lock is given back. */
    method Free()
      requires alive && !held
      modifies this
      ensures !alive && !held
    {
      alive := false;
    }
  }

  class ScopedLock {
    const mutex: Mutex
    var islocked: bool

    /** The guard's flag says whether this guard owes an unlock, and then the lock still exists. */
    ghost predicate Valid()
      reads this, mutex
    {
      islocked ==> mutex.held && mutex.alive
    }

    constructor (m: Mutex)
      requires m.alive && !m.held
      modifies m
      ensures Valid() && mutex == m && islocked && m.held && m.alive
    {
      mutex := m;
      islocked := false;
      new;
      Lock();
    }

    method Lock()
      requires Valid() && !islocked && mutex.alive && !mutex.held
      modifies this, mutex
      ensures Valid() && islocked && mutex.held && mutex.alive
    {
      mutex.Lock();
      islocked := true;
    }

    method Unlock()
      requires Valid()
      modifies this, mutex
      ensures Valid() && !islocked
      ensures mutex.held == (old(mutex.held) && !old(islocked)) && mutex.alive == old(mutex.alive)
    {
      if islocked {
        mutex.Unlock();
        islocked := false;
      }
    }

    /** The destructor: unlocks once if nobody did before, and otherwise does not touch the lock,
        which may be gone by then. */
    method Destroy()
      requires Valid()
      modifies this, if islocked then {mutex} else {}
      ensures !islocked
      ensures mutex.held == (old(mutex.held) && !old(islocked)) && mutex.alive == old(mutex.alive)
    {
      if islocked {
        Unlock();
      }
    }

    method TryLock() returns (ok: bool)
      requires Valid() && mutex.alive
      modifies this, mutex
      ensures Valid() && mutex.alive && ok == (!old(islocked) && !old(mutex.held))
      ensures islocked == (old(islocked) || ok) && (islocked || old(mutex.held) ==> mutex.held)
    {
      if islocked {
        return false;
      }
      islocked := mutex.TryLock();
      ok := islocked;
    }

    /** The polling timedlock. The i-th poll finds the clock at tick(i) and the lock taken by somebody
        else iff busy(i); the clock passes the deadline at the latest at the horizon. */
    method TimedLock(millisecond: nat, tick: nat -> nat, busy: nat -> bool, ghost horizon: nat) returns (ok: bool)
      requires Valid() && !islocked && mutex.alive
      requires tick(horizon) > tick(0) + millisecond
      modifies this, mutex
      ensures Valid() && ok == islocked
      ensures ok <==> exists i :: 0 <= i < horizon && Polled(tick, millisecond, i) && !busy(i)
    {
      var start := tick(0);
      var cur := start;
      var i := 0;
      while cur <= start + millisecond
        invariant i <= horizon && cur == tick(i) && !islocked && mutex.alive
        invariant forall j :: 0 <= j < i ==> busy(j) && tick(j) <= start + millisecond
        decreases horizon - i
      {
        mutex.held := busy(i); // what the other threads left at this moment
        var got := TryLock();
        if got {
          assert Polled(tick, millisecond, i);
          return true;
        }
        i := i + 1;
        cur := tick(i);
      }
      forall k: nat | k >= i ensures !Polled(tick, millisecond, k) {
        assert tick(i) > start + millisecond;
      }
      ok := islocked;
    }
  }

  /** The i-th poll happens: the clock has not passed the deadline at any poll up to it. */
  ghost predicate Polled(tick: nat -> nat, millisecond: nat, i: nat) {
    forall j :: 0 <= j <= i ==> tick(j) <= tick(0) + millisecond
  }
}
