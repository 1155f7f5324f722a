/** The loops of the two background threads: when they end, and when they do not. */
module Loops {
  import opened LockOrder
  import opened Progress

  // ---- a closed appender's own thread ends

  /** The head or the test of p's loop, with only the cleanup behind it. */
  predicate AtTest(p: Private, act: Act) {
    act == PrivateHead(p) || act == PrivateTest(p)
  }

  /** Where an appender's own thread can be: in its cleanup, or on the way to one of its two tests. */
  predicate InRoutine(p: Private, acts: seq<Act>) {
    var n := |acts|;
    if n <= 3 then Plain(acts)
    else
      && acts[n - 3..] == ThreadSection(p.thread) && AtTest(p, acts[n - 4]) && Plain(acts[..n - 4])
      && n - 4 <= (if acts[n - 4].PrivateHead? then 5 else 6)
  }

  /** Actions left once the close flag is up, at most: the head of the loop stands for one more task
      and its test. */
  function Remaining(acts: seq<Act>): nat {
    |acts| + if |acts| > 3 && acts[|acts| - 4].PrivateHead? then 7 else 0
  }

  const ROUND: nat := 16

  lemma RoutineRemaining(p: Private, acts: seq<Act>)
    requires InRoutine(p, acts)
    ensures Remaining(acts) <= ROUND
    ensures acts != [] ==> !acts[0].LowerClose? && !acts[0].Join? && acts[0] != Acquire(Registry)
  {
    if |acts| > 4 {
      assert acts[0] == acts[..|acts| - 4][0];
    }
  }

  lemma OnTheWay(p: Private, before: seq<Act>, test: Act)
    requires Plain(before) && AtTest(p, test) && |before| <= if test.PrivateHead? then 5 else 6
    ensures var acts := before + [test] + ThreadSection(p.thread);
            InRoutine(p, acts) && Remaining(acts) == |before| + 4 + if test.PrivateHead? then 7 else 0
  {
    var acts := before + [test] + ThreadSection(p.thread);
    PlainParts(p, false);
    assert acts[|acts| - 3..] == ThreadSection(p.thread) && acts[..|acts| - 4] == before;
  }

  lemma RoutineBegins(p: Private)
    ensures InRoutine(p, Routine(Own(p)))
  {
    PlainParts(p, false);
    OnTheWay(p, ThreadSection(p.thread), PrivateHead(p));
  }

  /** An own step stays in the routine; with the close flag up it brings the end nearer. */
  lemma RoutineStep(p: Private, acts: seq<Act>, m: Memory, hasBlock: bool)
    requires InRoutine(p, acts) && acts != []
    ensures var next := Expand(acts[0], m, hasBlock) + acts[1..];
            InRoutine(p, next) && (p.appender !in m.accepting ==> Remaining(next) < Remaining(acts))
  {
    var n := |acts|;
    var next := Expand(acts[0], m, hasBlock) + acts[1..];
    PlainParts(p, hasBlock);
    hide Task, Wait, ThreadSection;
    if n == 4 {
      assert acts[1..] == ThreadSection(p.thread);
      if acts[0].PrivateHead? && p.appender in m.attached {
        OnTheWay(p, Task(p.appender, hasBlock), PrivateTest(p));
        assert next == Task(p.appender, hasBlock) + [PrivateTest(p)] + ThreadSection(p.thread);
      } else if acts[0].PrivateTest? && p.appender in m.accepting {
        OnTheWay(p, Wait(p.condition), PrivateHead(p));
        assert next == Wait(p.condition) + [PrivateHead(p)] + ThreadSection(p.thread);
      } else {
        assert next == ThreadSection(p.thread);
      }
    } else if n < 4 {
      assert next == acts[1..];
    } else {
      assert acts[0] == acts[..n - 4][0];
      assert next == acts[1..];
      assert next[..n - 5] == acts[..n - 4][1..] && next[n - 4..] == acts[n - 3..];
    }
  }

  /** Every private background thread is somewhere in its routine. */
  predicate InRoutines(s: System) {
    forall w :: 0 <= w < |s.threads| && s.threads[w].role.Own? ==> InRoutine(s.threads[w].role.p, s.threads[w].rest)
  }

  lemma RoutinesStep(s: System, e: Event)
    requires InRoutines(s) && Enabled(s, e)
    ensures InRoutines(Step(s, e))
  {
    hide InRoutine, Expand, Routine, Program;
    match e {
      case Spawn(role) => if role.Own? { RoutineBegins(role.p); }
      case Go(i, hasBlock) =>
        if s.threads[i].role.Own? {
          RoutineStep(s.threads[i].role.p, s.threads[i].rest, s.memory, hasBlock);
        }
      case _ =>
    }
  }

  lemma {:induction false} RunRoutines(s: System, es: seq<Event>, u: System)
    requires InRoutines(s) && Runs(s, es, u)
    ensures InRoutines(u)
    decreases |es|
  {
    hide InRoutines, Step, Enabled;
    if es != [] {
      RoutinesStep(s, es[0]);
      RunRoutines(Step(s, es[0]), es[1..], u);
    }
  }

  /** No state of the run has the appender's close flag down. */
  predicate StaysClosed(s: System, es: seq<Event>, appender: nat)
    decreases |es|
  {
    appender !in s.memory.accepting && (es == [] || (Enabled(s, es[0]) && StaysClosed(Step(s, es[0]), es[1..], appender)))
  }

  function OwnSteps(es: seq<Event>, w: nat): nat {
    if es == [] then 0 else (if es[0].Go? && es[0].i == w then 1 else 0) + OwnSteps(es[1..], w)
  }

  lemma WorkerStep(s: System, e: Event, w: nat)
    requires InRoutines(s) && Enabled(s, e) && w < |s.threads| && s.threads[w].role.Own?
    requires s.threads[w].role.p.appender !in s.memory.accepting
    ensures var u := Step(s, e); w < |u.threads| && u.threads[w].role == s.threads[w].role
    ensures Remaining(Step(s, e).threads[w].rest) + OwnSteps([e], w) <= Remaining(s.threads[w].rest)
  {
    hide InRoutine, Expand, Routine, Program, Remaining;
    assert [e][1..] == [];
    if e.Go? && e.i == w {
      RoutineStep(s.threads[w].role.p, s.threads[w].rest, s.memory, e.hasBlock);
    }
  }

  lemma {:induction false} WorkerBound(s: System, es: seq<Event>, u: System, w: nat)
    requires InRoutines(s) && w < |s.threads| && s.threads[w].role.Own? && Runs(s, es, u)
    requires StaysClosed(s, es, s.threads[w].role.p.appender)
    ensures w < |u.threads| && Remaining(u.threads[w].rest) + OwnSteps(es, w) <= Remaining(s.threads[w].rest)
    decreases |es|
  {
    if es != [] {
      RoutinesStep(s, es[0]);
      WorkerStep(s, es[0], w);
      assert [es[0]][1..] == [];
      hide InRoutines, Step, Enabled, Remaining;
      WorkerBound(Step(s, es[0]), es[1..], u, w);
    }
  }

  /** From any reachable state: once the close flag of its appender is up, and while it stays up, a
      private background thread takes at most sixteen more steps in all, that is the rest of its
      round, one more task, its cleanup. */
  lemma ClosedWorkerEnds(before: seq<Event>, s: System, es: seq<Event>, u: System, w: nat)
    requires Runs(EMPTY, before, s) && w < |s.threads| && s.threads[w].role.Own?
    requires Runs(s, es, u) && StaysClosed(s, es, s.threads[w].role.p.appender)
    ensures w < |u.threads| && Remaining(u.threads[w].rest) + OwnSteps(es, w) <= ROUND
    ensures OwnSteps(es, w) >= ROUND ==> u.threads[w].rest == []
  {
    RunRoutines(EMPTY, before, s);
    RoutineRemaining(s.threads[w].role.p, s.threads[w].rest);
    WorkerBound(s, es, u, w);
  }

  /** The appender accepts and has its buffer in every state of the run. */
  predicate StaysOpen(s: System, es: seq<Event>, appender: nat)
    decreases |es|
  {
    && appender in s.memory.accepting && appender in s.memory.attached
    && (es == [] || (Enabled(s, es[0]) && StaysOpen(Step(s, es[0]), es[1..], appender)))
  }

  predicate HasOwnTest(p: Private, acts: seq<Act>) {
    PrivateHead(p) in acts || PrivateTest(p) in acts
  }

  lemma OpenKeepsTest(s: System, e: Event, w: nat)
    requires Enabled(s, e) && w < |s.threads| && s.threads[w].role.Own?
    requires HasOwnTest(s.threads[w].role.p, s.threads[w].rest)
    requires s.threads[w].role.p.appender in s.memory.accepting && s.threads[w].role.p.appender in s.memory.attached
    ensures var u := Step(s, e);
            && w < |u.threads| && u.threads[w].role == s.threads[w].role
            && HasOwnTest(u.threads[w].role.p, u.threads[w].rest)
  {
    hide Routine, Program, Task, Wait;
    if e.Go? && e.i == w {
      var acts := s.threads[w].rest;
      assert acts == [acts[0]] + acts[1..];
    }
  }

  /** While its appender stays open, its own thread never leaves its loop. */
  lemma {:induction false} OpenWorkerGoesOn(s: System, es: seq<Event>, u: System, w: nat)
    requires w < |s.threads| && s.threads[w].role.Own? && HasOwnTest(s.threads[w].role.p, s.threads[w].rest)
    requires Runs(s, es, u) && StaysOpen(s, es, s.threads[w].role.p.appender)
    ensures w < |u.threads| && u.threads[w].role == s.threads[w].role && u.threads[w].rest != []
    ensures HasOwnTest(u.threads[w].role.p, u.threads[w].rest)
    decreases |es|
  {
    if es != [] {
      OpenKeepsTest(s, es[0], w);
      hide Step, Enabled, HasOwnTest;
      OpenWorkerGoesOn(Step(s, es[0]), es[1..], u, w);
    }
  }

  /** In particular from its start on. */
  lemma OpenWorkerLives(s: System, p: Private, es: seq<Event>, u: System)
    requires Runs(Step(s, Spawn(Own(p))), es, u) && StaysOpen(Step(s, Spawn(Own(p))), es, p.appender)
    ensures |s.threads| < |u.threads| && u.threads[|s.threads|].rest != []
  {
    assert Routine(Own(p))[3] == PrivateHead(p);
    hide Routine;
    OpenWorkerGoesOn(Step(s, Spawn(Own(p))), es, u, |s.threads|);
  }

  // ---- the shared loop

  predicate HasTest(acts: seq<Act>) {
    exists k :: 0 <= k < |acts| && acts[k].SharedTest?
  }

  /** The vector of shared appenders is empty, or is not, in every state of the run. */
  predicate RegistryIs(s: System, es: seq<Event>, empty: bool)
    decreases |es|
  {
    (s.memory.registry == [] <==> empty)
    && (es == [] || (Enabled(s, es[0]) && RegistryIs(Step(s, es[0]), es[1..], empty)))
  }

  lemma SharedKeepsTest(s: System, e: Event, w: nat)
    requires Enabled(s, e) && w < |s.threads| && s.threads[w].role.Shared? && HasTest(s.threads[w].rest)
    requires s.memory.registry != []
    ensures w < |Step(s, e).threads| && Step(s, e).threads[w].role.Shared? && HasTest(Step(s, e).threads[w].rest)
  {
    hide Routine, Program;
    if e.Go? && e.i == w {
      var acts := s.threads[w].rest;
      var more := Expand(acts[0], s.memory, e.hasBlock);
      var next := Step(s, e).threads[w].rest;
      assert next == more + acts[1..];
      var k :| 0 <= k < |acts| && acts[k].SharedTest?;
      if k == 0 {
        assert more[|more| - 1].SharedTest? && next[|more| - 1] == more[|more| - 1];
      } else {
        assert next[|more| + k - 1] == acts[k];
      }
    }
  }

  /** While some appender stays registered the shared thread never leaves its loop. */
  lemma {:induction false} SharedLoopGoesOn(s: System, es: seq<Event>, u: System, w: nat)
    requires w < |s.threads| && s.threads[w].role.Shared? && HasTest(s.threads[w].rest)
    requires Runs(s, es, u) && RegistryIs(s, es, false)
    ensures w < |u.threads| && u.threads[w].rest != [] && HasTest(u.threads[w].rest)
    decreases |es|
  {
    if es != [] {
      SharedKeepsTest(s, es[0], w);
      hide Step, Enabled, HasTest;
      SharedLoopGoesOn(Step(s, es[0]), es[1..], u, w);
    }
  }

  /** In particular from its start on. */
  lemma SharedThreadLives(s: System, es: seq<Event>, u: System)
    requires Runs(Step(s, Spawn(Shared)), es, u) && RegistryIs(Step(s, Spawn(Shared)), es, false)
    ensures |s.threads| < |u.threads| && u.threads[|s.threads|].rest != []
  {
    var acts := Routine(Shared);
    assert acts[4] == SharedTest && HasTest(acts);
    hide Routine;
    SharedLoopGoesOn(Step(s, Spawn(Shared)), es, u, |s.threads|);
  }

  /** Actions left once nothing is registered, at most: a visit stands for one task, the test for one
      unlock. */
  function Weight(act: Act): nat {
    if act.Visit? then 7 else if act.SharedTest? then 2 else 1
  }

  function Work(acts: seq<Act>): nat { if acts == [] then 0 else Weight(acts[0]) + Work(acts[1..]) }

  lemma {:induction false} PlainWork(a: seq<Act>, b: seq<Act>)
    requires Plain(a)
    ensures Work(a + b) == |a| + Work(b)
    decreases |a|
  {
    if a == [] {
      assert a + b == b;
    } else {
      assert (a + b)[1..] == a[1..] + b;
      PlainWork(a[1..], b);
    }
  }

  lemma SharedPerforms(t: Thr, m: Memory, hasBlock: bool)
    requires ThreadOk(t) && t.role.Shared? && t.rest != [] && m.registry == []
    ensures Work(Performed(t, m, hasBlock).rest) < Work(t.rest)
  {
    var act, rest := t.rest[0], t.rest[1..];
    assert Fits(t.role, t.held, act);
    assert [] + rest == rest;
    match act {
      case Visit(appender) =>
        PlainParts(Private(appender, 0, 0), hasBlock);
        hide Task;
        PlainWork(Expand(act, m, hasBlock), rest);
      case SharedTest => assert ([Release(Registry)] + rest)[1..] == rest;
      case _ =>
    }
  }

  lemma SharedStep(s: System, e: Event, w: nat)
    requires Inv(s) && Enabled(s, e) && w < |s.threads| && s.threads[w].role.Shared? && s.memory.registry == []
    ensures var u := Step(s, e); w < |u.threads| && u.threads[w].role.Shared?
    ensures Work(Step(s, e).threads[w].rest) + OwnSteps([e], w) <= Work(s.threads[w].rest)
  {
    assert [e][1..] == [];
    assert ThreadOk(s.threads[w]);
    hide Routine, Program, Expand, ThreadOk, Work;
    if e.Go? && e.i == w {
      SharedPerforms(s.threads[w], s.memory, e.hasBlock);
    }
  }

  lemma {:induction false} SharedBound(s: System, es: seq<Event>, u: System, w: nat)
    requires Inv(s) && w < |s.threads| && s.threads[w].role.Shared? && Runs(s, es, u) && RegistryIs(s, es, true)
    ensures w < |u.threads| && Work(u.threads[w].rest) + OwnSteps(es, w) <= Work(s.threads[w].rest)
    decreases |es|
  {
    if es != [] {
      StepKeeps(s, es[0]);
      SharedStep(s, es[0], w);
      assert [es[0]][1..] == [];
      hide Step, Enabled, Inv;
      SharedBound(Step(s, es[0]), es[1..], u, w);
    }
  }

  /** From any reachable state, once nothing is registered and while that stays so, a shared thread ends
      after a number of own steps that the rest of its round bounds. */
  lemma SharedLoopEnds(before: seq<Event>, s: System, es: seq<Event>, u: System, w: nat)
    requires Runs(EMPTY, before, s) && w < |s.threads| && s.threads[w].role.Shared?
    requires Runs(s, es, u) && RegistryIs(s, es, true)
    ensures w < |u.threads| && Work(u.threads[w].rest) + OwnSteps(es, w) <= Work(s.threads[w].rest)
    ensures OwnSteps(es, w) >= Work(s.threads[w].rest) ==> u.threads[w].rest == []
  {
    RunKeeps(EMPTY, before, s);
    SharedBound(s, es, u, w);
  }
}
