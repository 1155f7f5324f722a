/** What each way of starting a Thread amounts to, in calls of its target and returns from waits, over
    every run from the start on. */
module ThreadStarts {
  import opened Bytes
  import opened ThreadControl
  import opened ThreadProtocol
  import opened ThreadCancel

  /** Waits of thread t that have returned along es. */
  function Waits(s: State, es: seq<Event>, t: nat): nat
    decreases |es|
  {
    if es == [] || !Enabled(s, es[0]) then 0
    else (if Returns(s, es[0], t) then 1 else 0) + Waits(Step(s, es[0]), es[1..], t)
  }

  predicate Returns(s: State, e: Event, t: nat) {
    e == Go(t) && t in s.os && s.os[t].pc.AfterWait?
  }

  /** Steps of a routine, created or not: the target it calls never changes. */
  lemma OpStays(s: State, e: Event, t: nat)
    requires Inv(s) && Enabled(s, e) && t in s.os
    ensures t in Step(s, e).os && Step(s, e).os[t].op == s.os[t].op
  {
    hide Advance;
  }

  // ---- start and start<T>

  /** A routine without waits that has called its target once when it is through. */
  predicate Straight(s: State, t: nat, op: nat) {
    && t in s.os && s.os[t].op == op
    && var o := s.os[t];
       && (o.pc.Created? || o.pc.Signalling? || o.pc.Ready? || o.pc.Running? || o.pc.Exiting? || o.pc.Done?)
       && o.kind.RunOnce? && o.calls == CallsBy(o.pc)
  }

  lemma StraightStep(s: State, e: Event, t: nat, op: nat)
    requires Inv(s) && Enabled(s, e) && Straight(s, t, op)
    ensures Straight(Step(s, e), t, op) && !Returns(s, e, t)
  {
    OpStays(s, e, t);
    if e == Go(t) {
      OwnStep(s, t);
      hide GoStep;
    } else {
      OthersLeaveRoutine(s, t, e);
      hide Step;
    }
  }

  lemma {:induction false} StraightRun(s: State, es: seq<Event>, u: State, t: nat, op: nat)
    requires Inv(s) && Straight(s, t, op) && Runs(s, es, u)
    ensures Inv(u) && Straight(u, t, op) && Waits(s, es, t) == 0
    decreases |es|
  {
    if es != [] {
      StepKeeps(s, es[0]);
      StraightStep(s, es[0], t, op);
      hide Inv, Step, Straight, Returns;
      StraightRun(Step(s, es[0]), es[1..], u, t, op);
    }
  }

  predicate InWait(pc: Pc) { pc.BeforeCas? || pc.BeforeBlock? || pc.Blocked? || pc.AfterWait? }

  /** start, and start<T> with its own target: whatever else happens, cancels included, the new thread
      calls that target, never waits, and has called it exactly once when it is through. */
  lemma PlainStartCallsOnce(s: State, kind: StartKind, es: seq<Event>, u: State)
    requires Inv(s) && Enabled(s, Start(kind, true)) && s.c.isended && (kind.Plain? || kind.Replacing?)
    requires Runs(Step(s, Start(kind, true)), es, u)
    ensures var t, op := s.next, if kind.Replacing? then kind.op else s.c.target.value;
            && t in u.os && u.os[t].op == op && (Outstanding(u, t) ==> u.c.target == Some(op))
            && !InWait(u.os[t].pc) && Waits(Step(s, Start(kind, true)), es, t) == 0
            && u.os[t].calls <= 1 && (u.os[t].pc.Done? ==> u.os[t].calls == 1)
  {
    StepKeeps(s, Start(kind, true));
    var op := if kind.Replacing? then kind.op else s.c.target.value;
    var m := Step(s, Start(kind, true));
    assert Straight(m, s.next, op);
    hide Straight, Step;
    StraightRun(m, es, u, s.next, op);
    assert Straight(u, s.next, op) by { hide Inv; }
    StraightMeans(u, s.next, op);
  }

  lemma StraightMeans(s: State, t: nat, op: nat)
    requires Inv(s) && Straight(s, t, op)
    ensures t in s.os && s.os[t].op == op && (Outstanding(s, t) ==> s.c.target == Some(op))
    ensures !InWait(s.os[t].pc) && s.os[t].calls <= 1 && (s.os[t].pc.Done? ==> s.os[t].calls == 1)
  {
    assert Outstanding(s, t) ==> t == s.c.tid;
  }

  // ---- start_after

  predicate PastWait(pc: Pc) { pc.Check2? || pc.Ready? || pc.Running? || pc.Exiting? || pc.Done? }

  /** An uncancelled delayed routine: one wait, then one call. */
  predicate Delayed(s: State, t: nat, op: nat, waits: nat) {
    && Undisturbed(s, t) && s.os[t].op == op && !s.os[t].pc.AfterRun?
    && waits == (if PastWait(s.os[t].pc) then 1 else 0)
  }

  lemma DelayedStep(s: State, e: Event, t: nat, op: nat, waits: nat)
    requires Inv(s) && Enabled(s, e) && Delayed(s, t, op, waits) && e != CancelFlag
    ensures Delayed(Step(s, e), t, op, waits + if Returns(s, e, t) then 1 else 0)
  {
    OpStays(s, e, t);
    UndisturbedStep(s, t, e);
    hide Undisturbed;
    if e == Go(t) {
      assert !s.c.cancelled by { UncancelledNow(s, t); }
      OwnStep(s, t);
      hide GoStep;
    } else {
      OthersLeaveRoutine(s, t, e);
      hide Step;
    }
  }

  lemma UncancelledNow(s: State, t: nat)
    requires Undisturbed(s, t) && Outstanding(s, t)
    ensures !s.c.cancelled && s.os[t].kind.RunAfter?
  {
  }

  lemma {:induction false} DelayedRun(s: State, es: seq<Event>, u: State, t: nat, op: nat, waits: nat)
    requires Inv(s) && Delayed(s, t, op, waits) && Runs(s, es, u) && CancelFlag !in es
    ensures Inv(u) && Delayed(u, t, op, waits + Waits(s, es, t))
    decreases |es|
  {
    if es != [] {
      StepKeeps(s, es[0]);
      DelayedStep(s, es[0], t, op, waits);
      hide Inv, Step, Enabled, Delayed, Returns;
      DelayedRun(Step(s, es[0]), es[1..], u, t, op, waits + if Returns(s, es[0], t) then 1 else 0);
    }
  }

  /** start_after, while nobody cancels: the new thread returns from at most one wait, calls the target
      after it and not before, and has done each exactly once when it is through. */
  lemma DelayedStartWaitsOnce(s: State, es: seq<Event>, u: State)
    requires Inv(s) && Enabled(s, Start(After, true)) && s.c.isended
    requires Runs(Step(s, Start(After, true)), es, u) && CancelFlag !in es
    ensures var t, waits := s.next, Waits(Step(s, Start(After, true)), es, s.next);
            && t in u.os && u.os[t].op == s.c.target.value
            && u.os[t].calls <= waits <= 1 && (u.os[t].pc.Done? ==> u.os[t].calls == waits == 1)
  {
    FreshStartIsUndisturbed(s, true);
    StepKeeps(s, Start(After, true));
    var m := Step(s, Start(After, true));
    assert Delayed(m, s.next, s.c.target.value, 0) by { hide Undisturbed, Inv; }
    hide Step, Inv, Undisturbed;
    DelayedRun(m, es, u, s.next, s.c.target.value, 0);
    CallsOfUndisturbed(u, s.next);
  }

  lemma CallsOfUndisturbed(s: State, t: nat)
    requires Undisturbed(s, t)
    ensures s.os[t].calls == CallsBy(s.os[t].pc)
  {
  }

  // ---- start_periodic

  /** Own steps since the last call began, at most. */
  function Since(pc: Pc): nat {
    match pc
    case Created => 0
    case Signalling => 1
    case Check1 => 2
    case Running => 1
    case AfterRun => 2
    case BeforeCas => 3
    case BeforeBlock => 4
    case Blocked => 5
    case AfterWait => 6
    case Check2 => 7
    case Ready => 8
    case _ => 8
  }

  /** An uncancelled periodic routine that has returned from `waits` waits and taken `steps` steps. */
  predicate Ticking(s: State, t: nat, op: nat, waits: nat, steps: nat) {
    && Outstanding(s, t) && s.os[t].op == op && s.os[t].kind.RunPeriodic? && !s.os[t].pc.Exiting?
    && !s.c.cancelled && s.lock.Free?
    && waits == s.os[t].calls + (if s.os[t].pc.Check2? || s.os[t].pc.Ready? then 1 else 0)
    && steps <= 8 * s.os[t].calls + Since(s.os[t].pc)
  }

  lemma TickingStep(s: State, e: Event, t: nat, op: nat, waits: nat, steps: nat)
    requires Inv(s) && Enabled(s, e) && Ticking(s, t, op, waits, steps) && e != CancelFlag
    ensures Ticking(Step(s, e), t, op, waits + (if Returns(s, e, t) then 1 else 0), steps + if e == Go(t) then 1 else 0)
  {
    OpStays(s, e, t);
    FlagStaysDown(s, e, t);
    if e == Go(t) {
      OwnStep(s, t);
      hide GoStep;
    } else {
      OthersLeaveRoutine(s, t, e);
      hide Step;
    }
  }

  lemma FlagStaysDown(s: State, e: Event, t: nat)
    requires Inv(s) && Enabled(s, e) && Outstanding(s, t) && !s.c.cancelled && s.lock.Free? && e != CancelFlag
    ensures !Step(s, e).c.cancelled && Step(s, e).lock.Free?
  {
    hide Advance;
  }

  lemma {:induction false} TickingRun(s: State, es: seq<Event>, u: State, t: nat, op: nat, waits: nat, steps: nat)
    requires Inv(s) && Ticking(s, t, op, waits, steps) && Runs(s, es, u) && CancelFlag !in es
    ensures Inv(u) && Ticking(u, t, op, waits + Waits(s, es, t), steps + OwnSteps(es, t))
    decreases |es|
  {
    if es != [] {
      StepKeeps(s, es[0]);
      TickingStep(s, es[0], t, op, waits, steps);
      hide Inv, Step, Enabled, Ticking, Returns;
      TickingRun(Step(s, es[0]), es[1..], u, t, op, waits + (if Returns(s, es[0], t) then 1 else 0),
                 steps + if es[0] == Go(t) then 1 else 0);
    }
  }

  /** start_periodic, while nobody cancels: an earlier cancel is wiped out, the new thread is never
      through, calls the target once after each wait it returns from, and keeps calling, at least
      once in every eight steps of its own after the first eight. */
  lemma PeriodicStartKeepsCalling(s: State, es: seq<Event>, u: State)
    requires Inv(s) && Enabled(s, Start(Periodic, true)) && s.c.isended
    requires Runs(Step(s, Start(Periodic, true)), es, u) && CancelFlag !in es
    ensures var t, m := s.next, Step(s, Start(Periodic, true));
            && !m.c.sticky && !m.c.cancelled
            && Outstanding(u, t) && u.os[t].op == s.c.target.value
            && u.os[t].calls <= Waits(m, es, t) <= u.os[t].calls + 1
            && (!u.os[t].pc.Check2? && !u.os[t].pc.Ready? ==> u.os[t].calls == Waits(m, es, t))
            && OwnSteps(es, t) <= 8 * u.os[t].calls + 8
  {
    StepKeeps(s, Start(Periodic, true));
    var m := Step(s, Start(Periodic, true));
    assert s.lock.Free?;
    assert Ticking(m, s.next, s.c.target.value, 0, 0);
    hide Step, Inv;
    TickingRun(m, es, u, s.next, s.c.target.value, 0, 0);
  }
}
