/** Calls return: what the other threads have under way suffices to bring any call to its end, a close
    with its join included. */
module Returns {
  import opened LockOrder
  import opened Progress
  import opened Loops

  predicate Good(s: System) { Inv(s) && InRoutines(s) }

  lemma ReachedIsGood(before: seq<Event>, s: System)
    requires Runs(EMPTY, before, s)
    ensures Good(s)
  {
    RunKeeps(EMPTY, before, s);
    RunRoutines(EMPTY, before, s);
  }

  // ---- threads that a join waits for

  /** Nobody is about to open the appender again. */
  predicate NobodyReopens(s: System, appender: nat) {
    forall i :: 0 <= i < |s.threads| ==> LowerClose(appender) !in s.threads[i].rest
  }

  predicate Closing(s: System, appender: nat) {
    appender !in s.memory.accepting && NobodyReopens(s, appender)
  }

  /** Every unfinished OS thread of the Thread object belongs to an appender that is closing. */
  predicate ThreadClosing(s: System, thread: nat) {
    forall w :: 0 <= w < |s.threads| && OfThread(s.threads[w], thread) && s.threads[w].rest != [] ==>
      Closing(s, s.threads[w].role.p.appender)
  }

  lemma ExpandOpensNothing(act: Act, m: Memory, hasBlock: bool, appender: nat)
    ensures LowerClose(appender) !in Expand(act, m, hasBlock)
  {
  }

  lemma ClosingStep(s: System, e: Event, appender: nat)
    requires e.Go? && Enabled(s, e) && Closing(s, appender)
    ensures Closing(Step(s, e), appender)
  {
    var act := s.threads[e.i].rest[0];
    ExpandOpensNothing(act, s.memory, e.hasBlock, appender);
    hide Expand, CanStep;
    assert act != LowerClose(appender);
  }

  // ---- runs of what is already under way

  /** The same threads in the same roles; whoever had ended still has, and whatever was closing is. */
  ghost predicate Onwards(s: System, u: System) {
    && |u.threads| == |s.threads|
    && (forall i :: 0 <= i < |s.threads| ==>
          u.threads[i].role == s.threads[i].role && (s.threads[i].rest == [] ==> u.threads[i].rest == []))
    && forall appender :: Closing(s, appender) ==> Closing(u, appender)
  }

  lemma GoStepOnwards(s: System, e: Event)
    requires Good(s) && e.Go? && Enabled(s, e)
    ensures Good(Step(s, e)) && Onwards(s, Step(s, e))
  {
    StepKeeps(s, e);
    RoutinesStep(s, e);
    forall appender | Closing(s, appender) ensures Closing(Step(s, e), appender) {
      ClosingStep(s, e, appender);
    }
    hide Inv, InRoutines, Closing, Expand;
  }

  lemma {:induction false} GoRun(s: System, es: seq<Event>, u: System)
    requires Good(s) && OnlyGo(es) && Runs(s, es, u)
    ensures Good(u) && Onwards(s, u)
    decreases |es|
  {
    if es != [] {
      GoStepOnwards(s, es[0]);
      hide Good, Step, Enabled, Closing;
      GoRun(Step(s, es[0]), es[1..], u);
    }
  }

  lemma OnwardsClosing(s: System, u: System, thread: nat)
    requires Onwards(s, u) && ThreadClosing(s, thread)
    ensures ThreadClosing(u, thread)
  {
    hide Closing;
  }

  predicate AtJoin(s: System, i: nat, thread: nat) {
    i < |s.threads| && s.threads[i].rest != [] && s.threads[i].rest[0] == Join(thread)
  }

  /** While one OS thread of the Thread object is unfinished, a thread in the join for it stays there. */
  lemma {:induction false} JoinerWaits(s: System, es: seq<Event>, u: System, i: nat, thread: nat, w: nat)
    requires Good(s) && OnlyGo(es) && Runs(s, es, u) && AtJoin(s, i, thread)
    requires w < |s.threads| && OfThread(s.threads[w], thread) && w < |u.threads| && u.threads[w].rest != []
    ensures i < |u.threads| && u.threads[i] == s.threads[i]
    decreases |es|
  {
    if es != [] {
      hide Good, Runs, Closing, Enabled, Step, AtJoin;
      GoRun(s, es, u);
      RunsTail(s, es, u);
      GoStepOnwards(s, es[0]);
      JoinerStays(s, es[0], i, thread, w);
      assert OnlyGo(es[1..]);
      JoinerWaits(Step(s, es[0]), es[1..], u, i, thread, w);
    }
  }

  lemma JoinerStays(s: System, e: Event, i: nat, thread: nat, w: nat)
    requires e.Go? && Enabled(s, e) && AtJoin(s, i, thread)
    requires w < |s.threads| && OfThread(s.threads[w], thread) && s.threads[w].rest != []
    ensures AtJoin(Step(s, e), i, thread) && Step(s, e).threads[i] == s.threads[i]
  {
    hide Expand;
    assert e.i != i;
  }

  lemma RunsTail(s: System, es: seq<Event>, u: System)
    requires es != [] && Runs(s, es, u)
    ensures Enabled(s, es[0]) && Runs(Step(s, es[0]), es[1..], u)
  {
  }

  /** One more step: a thread that is not in a join is let on and takes its next action. */
  lemma Advances(s: System, i: nat) returns (es: seq<Event>, m: System, u: System)
    requires Good(s) && i < |s.threads| && s.threads[i].rest != [] && !s.threads[i].rest[0].Join?
    ensures Runs(s, es, m) && OnlyGo(es) && Good(m) && Onwards(s, m) && m.threads[i] == s.threads[i]
    ensures CanStep(m, i) && u == Step(m, Go(i, false))
    ensures Runs(s, es + [Go(i, false)], u) && OnlyGo(es + [Go(i, false)]) && Good(u) && Onwards(s, u)
  {
    es, m := GetsOn(s, i);
    GoRun(s, es, m);
    u := Step(m, Go(i, false));
    assert [Go(i, false)][1..] == [];
    assert Runs(m, [Go(i, false)], u);
    RunsJoin(s, es, m, [Go(i, false)], u);
    hide Good, Runs, Onwards, CanStep, Step;
    GoRun(s, es + [Go(i, false)], u);
  }

  lemma Nothing(s: System)
    requires Good(s)
    ensures Runs(s, [], s) && OnlyGo([]) && Onwards(s, s)
  {
    hide Good, Closing;
  }

  /** One run of what is under way after another. */
  lemma Then(s: System, a: seq<Event>, m: System, b: seq<Event>, u: System)
    requires Good(s) && Runs(s, a, m) && OnlyGo(a) && Runs(m, b, u) && OnlyGo(b)
    ensures Runs(s, a + b, u) && OnlyGo(a + b) && Good(u) && Onwards(s, u)
  {
    hide Good, Runs, Onwards;
    RunsJoin(s, a, m, b, u);
    GoRun(s, a + b, u);
  }

  // ---- the worker, and the join for it

  /** Whoever waits in the join for this Thread object has not moved. */
  ghost predicate JoinersStay(s: System, u: System, thread: nat) {
    |u.threads| == |s.threads| && forall i: nat :: AtJoin(s, i, thread) ==> u.threads[i] == s.threads[i]
  }

  /** One step of an unfinished worker whose appender is closing. */
  lemma WorkerAdvances(s: System, w: nat) returns (es: seq<Event>, u: System)
    requires Good(s) && w < |s.threads| && s.threads[w].role.Own? && s.threads[w].rest != []
    requires Closing(s, s.threads[w].role.p.appender)
    ensures Runs(s, es, u) && OnlyGo(es) && Good(u) && Onwards(s, u)
    ensures Remaining(u.threads[w].rest) < Remaining(s.threads[w].rest)
    ensures JoinersStay(s, u, s.threads[w].role.p.thread)
  {
    var thread := s.threads[w].role.p.thread;
    RoutineRemaining(s.threads[w].role.p, s.threads[w].rest);
    var a, m;
    a, m, u := Advances(s, w);
    es := a + [Go(w, false)];
    RoutineStep(s.threads[w].role.p, m.threads[w].rest, m.memory, false);
    hide Inv, InRoutines, Runs, Remaining, Expand, InRoutine, CanStep, NobodyReopens;
    forall i: nat | AtJoin(s, i, thread) ensures u.threads[i] == s.threads[i] {
      JoinerWaits(s, a, m, i, thread, w);
    }
  }

  lemma {:induction false} WorkerCanEnd(s: System, w: nat) returns (es: seq<Event>, u: System)
    requires Good(s) && w < |s.threads| && s.threads[w].role.Own?
    requires s.threads[w].rest != [] ==> Closing(s, s.threads[w].role.p.appender)
    ensures Runs(s, es, u) && OnlyGo(es) && Good(u) && Onwards(s, u) && u.threads[w].rest == []
    ensures JoinersStay(s, u, s.threads[w].role.p.thread)
    decreases Remaining(s.threads[w].rest)
  {
    hide Good, Runs, Closing, Remaining;
    if s.threads[w].rest == [] {
      es, u := [], s;
      Nothing(s);
    } else {
      var a, m := WorkerAdvances(s, w);
      var b;
      b, u := WorkerCanEnd(m, w);
      es := a + b;
      Then(s, a, m, b, u);
    }
  }

  predicate Ended(s: System, thread: nat, n: nat) {
    forall w :: 0 <= w < n && w < |s.threads| && OfThread(s.threads[w], thread) ==> s.threads[w].rest == []
  }

  lemma {:induction false} ThreadCanEnd(s: System, thread: nat, n: nat) returns (es: seq<Event>, u: System)
    requires Good(s) && ThreadClosing(s, thread) && n <= |s.threads| && Ended(s, thread, n)
    ensures Runs(s, es, u) && OnlyGo(es) && Good(u) && Onwards(s, u)
    ensures Ended(u, thread, |u.threads|) && JoinersStay(s, u, thread)
    decreases |s.threads| - n
  {
    hide Good, Runs, Closing;
    if n == |s.threads| {
      es, u := [], s;
      Nothing(s);
    } else {
      var a, m := [], s;
      Nothing(s);
      if OfThread(s.threads[n], thread) {
        a, m := WorkerCanEnd(s, n);
      }
      OnwardsClosing(s, m, thread);
      var b;
      b, u := ThreadCanEnd(m, thread, n + 1);
      es := a + b;
      Then(s, a, m, b, u);
    }
  }

  /** From every reachable state: if the OS threads of a Thread object that are not through belong to
      appenders with the close flag up that nobody is reopening, what is under way brings them to
      their end, and whoever waits in the join for that object can go on. */
  lemma JoinCanReturn(before: seq<Event>, s: System, thread: nat) returns (es: seq<Event>, u: System)
    requires Runs(EMPTY, before, s) && ThreadClosing(s, thread)
    ensures Runs(s, es, u) && OnlyGo(es) && Ended(u, thread, |u.threads|)
    ensures forall i: nat :: AtJoin(s, i, thread) ==> i < |u.threads| && u.threads[i] == s.threads[i] && CanStep(u, i)
  {
    ReachedIsGood(before, s);
    es, u := ThreadCanEnd(s, thread, 0);
  }

  // ---- calls

  /** Every join the call still has in front of it is for a closing thread. */
  predicate JoinsClosing(s: System, acts: seq<Act>) {
    forall k :: 0 <= k < |acts| && acts[k].Join? ==> ThreadClosing(s, acts[k].thread)
  }

  /** A caller's next action, let on by the others, joined threads brought to their end first. */
  lemma CallAdvances(s: System, i: nat) returns (es: seq<Event>, u: System)
    requires Good(s) && i < |s.threads| && s.threads[i].role.Caller? && s.threads[i].rest != []
    requires JoinsClosing(s, s.threads[i].rest)
    ensures Runs(s, es, u) && OnlyGo(es) && Good(u) && Onwards(s, u) && u.threads[i].rest == s.threads[i].rest[1..]
  {
    var act := s.threads[i].rest[0];
    assert ThreadOk(s.threads[i]) && Fits(Caller, s.threads[i].held, act);
    assert [] + s.threads[i].rest[1..] == s.threads[i].rest[1..];
    hide Good, Runs, Closing, Onwards, ThreadClosing;
    if act.Join? {
      var a, m := ThreadCanEnd(s, act.thread, 0);
      assert AtJoin(s, i, act.thread);
      u := Step(m, Go(i, false));
      es := a + [Go(i, false)];
      Nothing(u) by { GoStepOnwards(m, Go(i, false)); }
      GoOnward(m, i, [], u);
      assert [Go(i, false)] + [] == [Go(i, false)];
      Then(s, a, m, [Go(i, false)], u);
    } else {
      var a, m;
      a, m, u := Advances(s, i);
      es := a + [Go(i, false)];
    }
  }

  lemma {:induction false} CallCanEnd(s: System, i: nat) returns (es: seq<Event>, u: System)
    requires Good(s) && i < |s.threads| && s.threads[i].role.Caller? && JoinsClosing(s, s.threads[i].rest)
    ensures Runs(s, es, u) && OnlyGo(es) && Good(u) && Onwards(s, u) && u.threads[i].rest == []
    decreases |s.threads[i].rest|
  {
    hide Good, Runs, Closing, ThreadClosing;
    if s.threads[i].rest == [] {
      es, u := [], s;
      Nothing(s);
    } else {
      var a, m := CallAdvances(s, i);
      forall k | 0 <= k < |m.threads[i].rest| && m.threads[i].rest[k].Join?
        ensures ThreadClosing(m, m.threads[i].rest[k].thread)
      {
        assert m.threads[i].rest[k] == s.threads[i].rest[k + 1];
        OnwardsClosing(s, m, s.threads[i].rest[k + 1].thread);
      }
      var b;
      b, u := CallCanEnd(m, i);
      es := a + b;
      Then(s, a, m, b, u);
    }
  }

  /** From every reachable state: a call without a join in front of it, and one whose joins are for
      closing threads, is brought to its end by itself and what else is under way. */
  lemma CallReturns(before: seq<Event>, s: System, i: nat) returns (es: seq<Event>, u: System)
    requires Runs(EMPTY, before, s) && i < |s.threads| && s.threads[i].role.Caller?
    requires JoinsClosing(s, s.threads[i].rest)
    ensures Runs(s, es, u) && OnlyGo(es) && i < |u.threads| && u.threads[i].rest == []
  {
    ReachedIsGood(before, s);
    es, u := CallCanEnd(s, i);
  }

  // ---- close from its first action on

  lemma {:induction false} SectionsJoinNobody(threads: seq<nat>)
    ensures forall act :: act in ThreadSections(threads) ==> !act.Join?
    decreases |threads|
  {
    if threads != [] {
      SectionsJoinNobody(threads[1..]);
    }
  }

  lemma CloseJoins(call: Call)
    requires call.Close?
    ensures Program(call) != [] && Program(call)[0] == RaiseClose(call.appender)
    ensures forall act :: act in Program(call) && act.Join? ==> act == Join(call.thread)
  {
    SectionsJoinNobody(call.threads);
    hide ThreadSections;
  }

  /** A close just entered, of an appender that alone uses its Thread object and that nobody is
      opening: it raises the flag, and is brought to its end, its join included. */
  lemma CloseReturns(before: seq<Event>, s: System, i: nat, call: Call) returns (es: seq<Event>, u: System)
    requires Runs(EMPTY, before, s) && i < |s.threads| && s.threads[i].role.Caller?
    requires call.Close? && s.threads[i].rest == Program(call) && NobodyReopens(s, call.appender)
    requires forall w :: 0 <= w < |s.threads| && OfThread(s.threads[w], call.thread) ==>
               s.threads[w].role.p.appender == call.appender
    ensures Runs(s, es, u) && OnlyGo(es) && i < |u.threads| && u.threads[i].rest == []
  {
    ReachedIsGood(before, s);
    CloseJoins(call);
    hide Program, Good, Runs;
    var e := Go(i, false);
    var m := Step(s, e);
    GoStepOnwards(s, e);
    FlagRaised(s, i, call);
    var b;
    b, u := CallCanEnd(m, i);
    es := [e] + b;
    GoOnward(s, i, b, u);
  }

  lemma FlagRaised(s: System, i: nat, call: Call)
    requires CanStep(s, i) && call.Close? && s.threads[i].rest[0] == RaiseClose(call.appender)
    requires NobodyReopens(s, call.appender)
    requires forall act :: act in s.threads[i].rest && act.Join? ==> act == Join(call.thread)
    requires forall w :: 0 <= w < |s.threads| && OfThread(s.threads[w], call.thread) ==>
               s.threads[w].role.p.appender == call.appender
    ensures var m := Step(s, Go(i, false)); JoinsClosing(m, m.threads[i].rest)
  {
    var m := Step(s, Go(i, false));
    assert m.threads[i].rest == s.threads[i].rest[1..];
    assert Closing(m, call.appender);
    forall k | 0 <= k < |m.threads[i].rest| && m.threads[i].rest[k].Join?
      ensures ThreadClosing(m, m.threads[i].rest[k].thread)
    {
      assert m.threads[i].rest[k] in s.threads[i].rest;
    }
  }
}
