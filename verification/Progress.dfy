/** Threads running the calls and loops of LockOrder. No reachable state is deadlocked: whoever is not
    waiting in a join can be let on by the others. */
module Progress {
  import opened LockOrder

  datatype Thr = Thr(role: Role, held: set<Lock>, rest: seq<Act>)

  datatype System = System(threads: seq<Thr>, memory: Memory)

  const EMPTY := System([], Memory({}, {}, []))

  datatype Event =
    | Begin(i: nat, call: Call)       // an idle caller thread enters a call
    | Arrive(call: Call)              // a new caller thread in its first call
    | Spawn(role: Role)               // a new background thread in its routine
    | Go(i: nat, hasBlock: bool)      // thread i performs its next action; a flush finds a block or none

  /** t is an OS thread of the Thread object. */
  predicate OfThread(t: Thr, thread: nat) { t.role.Own? && t.role.p.thread == thread }

  predicate CanStep(s: System, i: nat) {
    && i < |s.threads| && s.threads[i].rest != []
    && match s.threads[i].rest[0]
       case Acquire(l) => forall j :: 0 <= j < |s.threads| ==> l !in s.threads[j].held
       case Join(thread) => forall w :: 0 <= w < |s.threads| && OfThread(s.threads[w], thread) ==> s.threads[w].rest == []
       case _ => true
  }

  predicate Enabled(s: System, e: Event) {
    match e
    case Begin(i, call) => i < |s.threads| && s.threads[i].role.Caller? && s.threads[i].rest == []
    case Arrive(call) => true
    case Spawn(role) => !role.Caller?
    case Go(i, _) => CanStep(s, i)
  }

  function Performed(t: Thr, m: Memory, hasBlock: bool): Thr
    requires t.rest != []
  {
    t.(held := After(t.held, t.rest[0]), rest := Expand(t.rest[0], m, hasBlock) + t.rest[1..])
  }

  function Step(s: System, e: Event): System
    requires Enabled(s, e)
  {
    match e
    case Begin(i, call) => s.(threads := s.threads[i := s.threads[i].(rest := Program(call))])
    case Arrive(call) => s.(threads := s.threads + [Thr(Caller, {}, Program(call))])
    case Spawn(role) => s.(threads := s.threads + [Thr(role, {}, Routine(role))])
    case Go(i, hasBlock) =>
      System(s.threads[i := Performed(s.threads[i], s.memory, hasBlock)], Touched(s.threads[i].rest[0], s.memory))
  }

  // ---- what every interleaving keeps

  predicate ThreadOk(t: Thr) { Ordered(t.role, t.held, t.rest, {}) }

  predicate Exclusive(threads: seq<Thr>) {
    forall i, j, l :: 0 <= i < |threads| && 0 <= j < |threads| && l in threads[i].held && l in threads[j].held ==> i == j
  }

  predicate Inv(s: System) {
    (forall i :: 0 <= i < |s.threads| ==> ThreadOk(s.threads[i])) && Exclusive(s.threads)
  }

  lemma PerformedOk(t: Thr, m: Memory, hasBlock: bool)
    requires ThreadOk(t) && t.rest != []
    ensures ThreadOk(Performed(t, m, hasBlock))
  {
    var act, rest := t.rest[0], t.rest[1..];
    ExpandOrdered(t.role, t.held, act, m, hasBlock);
    Compose(t.role, After(t.held, act), Expand(act, m, hasBlock), Behind(t.held, act), rest, {});
    hide Expand, Fits, After, Behind;
  }

  /** One thread replaced or added that is in order and shares no lock with the others. */
  lemma PutKeeps(threads: seq<Thr>, i: nat, t: Thr, more: seq<Thr>)
    requires forall k :: 0 <= k < |threads| ==> ThreadOk(threads[k])
    requires Exclusive(threads) && i <= |threads|
    requires more == if i < |threads| then threads[i := t] else threads + [t]
    requires ThreadOk(t)
    requires forall l, j :: 0 <= j < |threads| && j != i && l in t.held ==> l !in threads[j].held
    ensures (forall k :: 0 <= k < |more| ==> ThreadOk(more[k])) && Exclusive(more)
  {
    hide ThreadOk;
  }

  lemma StepKeeps(s: System, e: Event)
    requires Inv(s) && Enabled(s, e)
    ensures Inv(Step(s, e))
  {
    hide Program, Routine, Expand, ThreadOk;
    match e {
      case Begin(i, call) =>
        CallOk(call);
        IdleHoldsNothing(s.threads[i]);
        PutKeeps(s.threads, i, s.threads[i].(rest := Program(call)), Step(s, e).threads);
      case Arrive(call) =>
        CallOk(call);
        PutKeeps(s.threads, |s.threads|, Thr(Caller, {}, Program(call)), Step(s, e).threads);
      case Spawn(role) =>
        RoutineOk(role);
        PutKeeps(s.threads, |s.threads|, Thr(role, {}, Routine(role)), Step(s, e).threads);
      case Go(i, hasBlock) =>
        PerformedOk(s.threads[i], s.memory, hasBlock);
        PutKeeps(s.threads, i, Performed(s.threads[i], s.memory, hasBlock), Step(s, e).threads);
    }
  }

  lemma CallOk(call: Call)
    ensures ThreadOk(Thr(Caller, {}, Program(call)))
  {
    ProgramsAreOrdered(call);
  }

  lemma IdleHoldsNothing(t: Thr)
    requires ThreadOk(t) && t.rest == []
    ensures t.held == {}
  {
  }

  lemma RoutineOk(role: Role)
    ensures ThreadOk(Thr(role, {}, Routine(role)))
  {
    RoutinesAreOrdered(role);
  }

  predicate Runs(s: System, es: seq<Event>, u: System)
    decreases |es|
  {
    if es == [] then s == u
    else Enabled(s, es[0]) && Runs(Step(s, es[0]), es[1..], u)
  }

  lemma {:induction false} RunKeeps(s: System, es: seq<Event>, u: System)
    requires Inv(s) && Runs(s, es, u)
    ensures Inv(u)
    decreases |es|
  {
    hide Inv, Step, Enabled;
    if es != [] {
      StepKeeps(s, es[0]);
      RunKeeps(Step(s, es[0]), es[1..], u);
    }
  }

  lemma {:induction false} RunsJoin(s: System, a: seq<Event>, m: System, b: seq<Event>, u: System)
    requires Runs(s, a, m) && Runs(m, b, u)
    ensures Runs(s, a + b, u)
    decreases |a|
  {
    hide Step, Enabled;
    if a == [] {
      assert a + b == b;
    } else {
      assert (a + b)[1..] == a[1..] + b;
      RunsJoin(Step(s, a[0]), a[1..], m, b, u);
    }
  }

  predicate OnlyGo(es: seq<Event>) { forall k :: 0 <= k < |es| ==> es[k].Go? }

  lemma GoOnward(s: System, k: nat, rest: seq<Event>, u: System)
    requires CanStep(s, k) && Runs(Step(s, Go(k, false)), rest, u) && OnlyGo(rest)
    ensures Runs(s, [Go(k, false)] + rest, u) && OnlyGo([Go(k, false)] + rest)
  {
    hide Step, CanStep;
    assert ([Go(k, false)] + rest)[1..] == rest;
  }

  // ---- who waits for whom

  /** How far along the chain of waiting a thread is: joiners first, then by the rank waited for. */
  function Distance(s: System, i: nat): nat
    requires i < |s.threads| && s.threads[i].rest != []
  {
    match s.threads[i].rest[0]
    case Join(_) => 6
    case Acquire(l) => 5 - Rank(l)
    case _ => 0
  }

  /** Thread k holds a lock other than the registry's. */
  predicate HoldsInner(s: System, k: nat) {
    k < |s.threads| && !(s.threads[k].held <= {Registry})
  }

  /** Follow who waits for whom: each link waits for a lock of higher rank, so the chain ends, and it
      ends at a thread that can step. Begun at a lock other than the registry's, it ends where it
      began or at a thread that holds such a lock. */
  lemma {:induction false} ChainEnds(s: System, i: nat) returns (k: nat)
    requires Inv(s) && i < |s.threads| && s.threads[i].rest != []
    ensures CanStep(s, k)
    ensures !s.threads[i].rest[0].Join? && s.threads[i].rest[0] != Acquire(Registry) ==> k == i || HoldsInner(s, k)
    decreases Distance(s, i)
  {
    assert ThreadOk(s.threads[i]);
    if CanStep(s, i) {
      return i;
    }
    match s.threads[i].rest[0] {
      case Join(thread) =>
        var w :| 0 <= w < |s.threads| && OfThread(s.threads[w], thread) && s.threads[w].rest != [];
        assert ThreadOk(s.threads[w]) && Fits(s.threads[w].role, s.threads[w].held, s.threads[w].rest[0]);
        k := ChainEnds(s, w);
      case Acquire(l) =>
        var j :| 0 <= j < |s.threads| && l in s.threads[j].held;
        assert ThreadOk(s.threads[j]) && s.threads[j].rest != [];
        assert Fits(s.threads[j].role, s.threads[j].held, s.threads[j].rest[0]);
        k := ChainEnds(s, j);
    }
  }

  /** While any thread is unfinished, some thread can step. */
  lemma SomebodyCanStep(es: seq<Event>, s: System)
    requires Runs(EMPTY, es, s)
    ensures (exists i :: 0 <= i < |s.threads| && s.threads[i].rest != []) ==> exists k :: CanStep(s, k)
  {
    RunKeeps(EMPTY, es, s);
    if i :| 0 <= i < |s.threads| && s.threads[i].rest != [] {
      var k := ChainEnds(s, i);
    }
  }

  // ---- work in front of the threads that hold locks

  /** Neither a test nor a join nor a step on the flags, the vector or the registry's lock. */
  predicate Plain(acts: seq<Act>) {
    forall k :: 0 <= k < |acts| ==>
      || ((acts[k].Acquire? || acts[k].Release?) && acts[k].lock != Registry)
      || acts[k].TimedWait? || acts[k].UseBuffer? || acts[k].UseFile? || acts[k].UseThread?
  }

  lemma PlainParts(p: Private, hasBlock: bool)
    ensures Plain(Task(p.appender, hasBlock)) && |Task(p.appender, hasBlock)| <= 6
    ensures Plain(Wait(p.condition)) && |Wait(p.condition)| == 5
    ensures Plain(ThreadSection(p.thread)) && |ThreadSection(p.thread)| == 3
  {
  }

  /** Actions until nothing but the registry's lock is held. */
  function Busy(held: set<Lock>, acts: seq<Act>): nat
    decreases |acts|
  {
    if held <= {Registry} || acts == [] then 0 else 1 + Busy(After(held, acts[0]), acts[1..])
  }

  function TotalBusy(threads: seq<Thr>): nat {
    if threads == [] then 0
    else TotalBusy(threads[..|threads| - 1]) + Busy(threads[|threads| - 1].held, threads[|threads| - 1].rest)
  }

  lemma BusyStep(t: Thr, m: Memory, hasBlock: bool)
    requires ThreadOk(t) && !(t.held <= {Registry})
    ensures t.rest != []
    ensures var u := Performed(t, m, hasBlock); Busy(u.held, u.rest) == Busy(t.held, t.rest) - 1
  {
    assert Fits(t.role, t.held, t.rest[0]);
    var l :| l in t.held && l != Registry;
    assert !t.rest[0].Visit?;
    assert Expand(t.rest[0], m, hasBlock) == [];
    assert [] + t.rest[1..] == t.rest[1..];
  }

  lemma {:induction false} TotalAfter(threads: seq<Thr>, i: nat, t: Thr)
    requires i < |threads| && Busy(t.held, t.rest) == Busy(threads[i].held, threads[i].rest) - 1
    ensures TotalBusy(threads[i := t]) == TotalBusy(threads) - 1
    decreases |threads|
  {
    var n := |threads| - 1;
    if i == n {
      assert threads[i := t][..n] == threads[..n];
    } else {
      assert threads[i := t][..n] == threads[..n][i := t];
      TotalAfter(threads[..n], i, t);
    }
  }

  /** Tests of the vector in front of the next unlock of the registry. */
  function Tests(acts: seq<Act>): nat {
    if acts == [] || acts[0] == Release(Registry) then 0
    else (if acts[0].SharedTest? then 1 else 0) + Tests(acts[1..])
  }

  /** Other actions in front of it; a visit stands for one task. */
  function Effort(acts: seq<Act>): nat {
    if acts == [] || acts[0] == Release(Registry) then 0
    else (if acts[0].Visit? then 7 else 1) + Effort(acts[1..])
  }

  lemma {:induction false} PlainEffort(a: seq<Act>, b: seq<Act>)
    requires Plain(a)
    ensures Tests(a + b) == Tests(b) && Effort(a + b) == |a| + Effort(b)
    decreases |a|
  {
    if a == [] {
      assert a + b == b;
    } else {
      assert (a + b)[1..] == a[1..] + b;
      PlainEffort(a[1..], b);
    }
  }

  lemma {:induction false} VisitsTestNothing(registry: seq<nat>, b: seq<Act>)
    ensures Tests(Visits(registry) + ([Release(Registry)] + b)) == 0
    decreases |registry|
  {
    var rest := [Release(Registry)] + b;
    if registry == [] {
      assert Visits(registry) + rest == rest;
    } else {
      assert (Visits(registry) + rest)[1..] == Visits(registry[1..]) + rest;
      VisitsTestNothing(registry[1..], b);
    }
  }

  /** A step of the thread that holds the registry's lock, other than its unlock, brings that unlock
      nearer. */
  lemma RegistryStep(t: Thr, m: Memory, hasBlock: bool)
    requires ThreadOk(t) && Registry in t.held && t.rest != [] && t.rest[0] != Release(Registry)
    ensures var u := Performed(t, m, hasBlock);
            && Registry in u.held
            && (Tests(u.rest) < Tests(t.rest) || (Tests(u.rest) == Tests(t.rest) && Effort(u.rest) < Effort(t.rest)))
  {
    var act, rest := t.rest[0], t.rest[1..];
    assert Fits(t.role, t.held, act);
    assert [] + rest == rest;
    match act {
      case Visit(appender) =>
        PlainParts(Private(appender, 0, 0), hasBlock);
        hide Task;
        PlainEffort(Expand(act, m, hasBlock), rest);
      case SharedTest =>
        var more := Wait(SHARED_CONDITION) + [Acquire(Registry), SharedTest];
        hide Wait;
        VisitsTestNothing(m.registry, more + rest);
        assert Visits(m.registry) + [Release(Registry)] + Wait(SHARED_CONDITION) + [Acquire(Registry), SharedTest] + rest
               == Visits(m.registry) + ([Release(Registry)] + (more + rest));
      case _ =>
    }
  }

  // ---- deadlock

  /** A step by another thread, at the end of the chain that begins at j. */
  lemma InnerHelps(s: System, j: nat) returns (k: nat)
    requires Inv(s) && j < |s.threads| && s.threads[j].rest != [] && !CanStep(s, j)
    requires !s.threads[j].rest[0].Join? && s.threads[j].rest[0] != Acquire(Registry)
    ensures CanStep(s, k) && k != j
    ensures var u := Step(s, Go(k, false));
            Inv(u) && |u.threads| == |s.threads| && TotalBusy(u.threads) < TotalBusy(s.threads)
            && forall i :: 0 <= i < |s.threads| && i != k ==> u.threads[i] == s.threads[i]
  {
    hide TotalBusy, Busy, Expand;
    k := ChainEnds(s, j);
    StepKeeps(s, Go(k, false));
    assert ThreadOk(s.threads[k]);
    hide ThreadOk, CanStep;
    BusyStep(s.threads[k], s.memory, false);
    TotalAfter(s.threads, k, Performed(s.threads[k], s.memory, false));
  }

  /** Thread i waits for a lock other than the registry's: those who hold such locks let it on. */
  lemma {:induction false} InnerGetsOn(s: System, i: nat) returns (es: seq<Event>, u: System)
    requires Inv(s) && i < |s.threads| && s.threads[i].rest != []
    requires !s.threads[i].rest[0].Join? && s.threads[i].rest[0] != Acquire(Registry)
    ensures Runs(s, es, u) && OnlyGo(es) && i < |u.threads| && u.threads[i] == s.threads[i] && CanStep(u, i)
    decreases TotalBusy(s.threads)
  {
    if CanStep(s, i) {
      es, u := [], s;
    } else {
      var k := InnerHelps(s, i);
      hide Inv, Step, CanStep, Runs, OnlyGo, TotalBusy;
      var rest;
      rest, u := InnerGetsOn(Step(s, Go(k, false)), i);
      es := [Go(k, false)] + rest;
      GoOnward(s, k, rest, u);
    }
  }

  /** Thread i waits for the registry's lock and j holds it: j, and those j waits for, bring j to its
      unlock. */
  lemma {:induction false} RegistryGetsOn(s: System, i: nat, j: nat) returns (es: seq<Event>, u: System)
    requires Inv(s) && i < |s.threads| && s.threads[i].rest != [] && s.threads[i].rest[0] == Acquire(Registry)
    requires j < |s.threads| && Registry in s.threads[j].held
    ensures Runs(s, es, u) && OnlyGo(es) && i < |u.threads| && u.threads[i] == s.threads[i] && CanStep(u, i)
    decreases Tests(s.threads[j].rest), Effort(s.threads[j].rest), TotalBusy(s.threads)
  {
    var k := RegistryHelps(s, i, j);
    var m := Step(s, Go(k, false));
    hide Inv, Step, TotalBusy, Tests, Effort, Runs, OnlyGo;
    var rest := [];
    u := m;
    if !CanStep(m, i) {
      hide CanStep;
      rest, u := RegistryGetsOn(m, i, j);
    } else {
      NoRun(m);
    }
    hide CanStep;
    es := [Go(k, false)] + rest;
    GoOnward(s, k, rest, u);
  }

  lemma NoRun(s: System)
    ensures Runs(s, [], s) && OnlyGo([])
  {
  }

  lemma RegistryHelps(s: System, i: nat, j: nat) returns (k: nat)
    requires Inv(s) && i < |s.threads| && s.threads[i].rest != [] && s.threads[i].rest[0] == Acquire(Registry)
    requires j < |s.threads| && Registry in s.threads[j].held
    ensures CanStep(s, k) && k != i
    ensures var u := Step(s, Go(k, false));
            && Inv(u) && |u.threads| == |s.threads| && u.threads[i] == s.threads[i]
            && (CanStep(u, i) || (
                  && Registry in u.threads[j].held
                  && (k == j ==> Tests(u.threads[j].rest) < Tests(s.threads[j].rest)
                                 || (Tests(u.threads[j].rest) == Tests(s.threads[j].rest)
                                     && Effort(u.threads[j].rest) < Effort(s.threads[j].rest)))
                  && (k != j ==> u.threads[j] == s.threads[j] && TotalBusy(u.threads) < TotalBusy(s.threads))))
  {
    assert ThreadOk(s.threads[i]) && ThreadOk(s.threads[j]);
    assert s.threads[j].rest != [] && Fits(s.threads[j].role, s.threads[j].held, s.threads[j].rest[0]);
    assert Fits(s.threads[i].role, s.threads[i].held, Acquire(Registry));
    hide Tests, Effort, TotalBusy, Expand, Ordered;
    if CanStep(s, j) {
      k := j;
      StepKeeps(s, Go(j, false));
      if s.threads[j].rest[0] != Release(Registry) {
        RegistryStep(s.threads[j], s.memory, false);
      }
    } else {
      k := InnerHelps(s, j);
    }
  }

  /** No deadlock: in every reachable state, any thread that is not waiting in a join can be let on. By
      steps of other threads that are under way, and without a step of its own, a state is reached in
      which it can take its next step. */
  lemma DeadlockFree(before: seq<Event>, s: System, i: nat) returns (es: seq<Event>, u: System)
    requires Runs(EMPTY, before, s) && i < |s.threads| && s.threads[i].rest != [] && !s.threads[i].rest[0].Join?
    ensures Runs(s, es, u) && OnlyGo(es) && i < |u.threads| && u.threads[i] == s.threads[i] && CanStep(u, i)
  {
    RunKeeps(EMPTY, before, s);
    es, u := GetsOn(s, i);
  }

  lemma GetsOn(s: System, i: nat) returns (es: seq<Event>, u: System)
    requires Inv(s) && i < |s.threads| && s.threads[i].rest != [] && !s.threads[i].rest[0].Join?
    ensures Runs(s, es, u) && OnlyGo(es) && i < |u.threads| && u.threads[i] == s.threads[i] && CanStep(u, i)
  {
    hide Inv, OnlyGo, ThreadOk;
    if CanStep(s, i) {
      es, u := [], s;
      NoRun(s);
    } else if s.threads[i].rest[0] == Acquire(Registry) {
      var j :| 0 <= j < |s.threads| && Registry in s.threads[j].held;
      es, u := RegistryGetsOn(s, i, j);
    } else {
      es, u := InnerGetsOn(s, i);
    }
  }
}
