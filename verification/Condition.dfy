/** comm/mtaf_condition.h: a condition variable with a sticky notification, and the absolute
    deadline computed for a timed wait. */
module Conditions {

  class Condition {
    /** anyway_notify_: a notification that waits for its waiter. */
    var anywayNotify: bool

    constructor ()
      ensures !anywayNotify
    {
      anywayNotify := false;
    }

    /** The compare-and-swap at the head of a wait: it consumes a sticky notification and tells
        whether the wait is to block. */
    method EnterWait() returns (blocks: bool)
      modifies this
      ensures blocks == !old(anywayNotify) && !anywayNotify
    {
      blocks := !anywayNotify;
      anywayNotify := false;
    }

    /** The store at the end of every wait. */
    method LeaveWait()
      modifies this
      ensures !anywayNotify
    {
      anywayNotify := false;
    }

    method PostNotify(anyway: bool)
      modifies this
      ensures anywayNotify == (old(anywayNotify) || anyway)
    {
      if anyway {
        anywayNotify := true;
      }
    }

    method CancelAnyWayNotify()
      modifies this
      ensures !anywayNotify
    {
      anywayNotify := false;
    }
  }

  // ---- makeTimeout, with C's division

  const GIGA: int := 1000000000

  function TruncDiv(a: int, b: int): int
    requires b > 0
  {
    if a >= 0 then a / b else -((-a) / b)
  }

  function TruncMod(a: int, b: int): int
    requires b > 0
  {
    a - b * TruncDiv(a, b)
  }

  lemma TruncModRange(a: int, b: int)
    requires b > 0
    ensures -b < TruncMod(a, b) < b && (a >= 0 ==> TruncMod(a, b) >= 0) && (a <= 0 ==> TruncMod(a, b) <= 0)
  {
    var m := if a >= 0 then a else -a;
    assert m == b * (m / b) + m % b;
  }

  function TimeoutSec(millisecond: int, sec: int, usec: int): int {
    TruncDiv(millisecond, 1000) + sec + TruncDiv(TruncMod(millisecond, 1000) * 1000000 + usec * 1000, GIGA)
  }

  function TimeoutNsec(millisecond: int, usec: int): int {
    TruncMod(TruncMod(millisecond, 1000) * 1000000 + usec * 1000, GIGA)
  }

  method MakeTimeout(millisecond: int, sec: int, usec: int) returns (tvSec: int, tvNsec: int)
    requires 0 <= usec < 1000000
    ensures tvSec == TimeoutSec(millisecond, sec, usec) && tvNsec == TimeoutNsec(millisecond, usec)
    ensures tvSec * GIGA + tvNsec == sec * GIGA + usec * 1000 + millisecond * 1000000
  {
    tvSec := TruncDiv(millisecond, 1000) + sec;
    tvNsec := TruncMod(millisecond, 1000) * 1000 * 1000 + usec * 1000;
    tvSec := tvSec + TruncDiv(tvNsec, 1000 * 1000 * 1000);
    tvNsec := TruncMod(tvNsec, 1000 * 1000 * 1000);
  }

  /** The deadline is a well-formed timespec at every clock reading exactly when the requested time
      has no negative fraction of a second; for any other request some clock reading breaks it. */
  lemma TimeoutWellFormedIff(millisecond: int)
    ensures (forall usec :: 0 <= usec < 1000000 ==> 0 <= TimeoutNsec(millisecond, usec) < GIGA)
            <==> millisecond >= 0 || TruncMod(millisecond, 1000) == 0
  {
    TruncModRange(millisecond, 1000);
    var fraction := TruncMod(millisecond, 1000);
    if fraction >= 0 {
      forall usec | 0 <= usec < 1000000 ensures 0 <= TimeoutNsec(millisecond, usec) < GIGA {
        TruncModRange(fraction * 1000000 + usec * 1000, GIGA);
      }
    } else {
      assert TimeoutNsec(millisecond, 0) == fraction * 1000000 < 0;
    }
  }
}
