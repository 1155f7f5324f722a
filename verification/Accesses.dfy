/** What the calls do under their locks: which buffers, files, control blocks and flags a call touches,
    in which order, that it has touched them when it returns, and that nobody else is there then. */
module Accesses {
  import opened LockOrder
  import opened Progress
  import opened Loops
  import Vectors = Registry

  predicate IsLocking(act: Act) { act.Acquire? || act.Release? }

  /** The actions other than locking and unlocking. */
  function Touches(acts: seq<Act>): seq<Act> {
    if acts == [] then [] else (if IsLocking(acts[0]) then [] else [acts[0]]) + Touches(acts[1..])
  }

  function ThreadUses(threads: seq<nat>): (r: seq<Act>)
    ensures |r| == |threads| && forall k :: 0 <= k < |r| ==> r[k] == UseThread(threads[k])
  {
    seq(|threads|, k requires 0 <= k < |threads| => UseThread(threads[k]))
  }

  function BlockOutline(appender: nat, hasBlock: bool): seq<Act> {
    [UseBuffer(appender)] + if hasBlock then [UseFile(appender)] else []
  }

  /** mtaf_log_appender_close without its locks: the flag, the notified threads' shared Thread, the join
      of a private worker or the shared-thread flush, then the wipe and the file. */
  function CloseOutline(call: Call): seq<Act>
    requires call.Close? || call.Destroy?
  {
    [RaiseClose(call.appender)] + ThreadUses(call.threads)
    + (if call.worker.Nobody? then []
       else if call.worker.Ended? then [UseThread(call.thread)]
       else [UseThread(call.thread), Join(call.thread)])
    + (if call.shared then BlockOutline(call.appender, call.hasBlock) else [])
    + [Detach(call.appender)] + [UseFile(call.appender)]
  }

  /** The calls as a caller reads them, without their locks. */
  function Outline(call: Call): seq<Act> {
    match call
    case Create(appender, threads, shared) => ThreadUses(threads) + if shared then [Enlist(appender)] else []
    case Open(appender, threads, hasBlock) =>
      [Attach(appender)] + ([LowerClose(appender)] + ThreadUses(threads)) + if hasBlock then [UseFile(appender)] else []
    case Append(appender, threads) => [UseBuffer(appender)] + ThreadUses(threads)
    case AppendSync(appender) => [UseFile(appender)]
    case SetMode(threads) => ThreadUses(threads)
    case FlushSync(appender, hasBlock) => BlockOutline(appender, hasBlock)
    case Close(_, _, _, _, _, _) => CloseOutline(call)
    case Destroy(appender, wasOpen, threads, thread, _, shared, _) =>
      (if wasOpen then CloseOutline(call) else ThreadUses(threads))
      + (if shared then [] else [UseThread(thread)]) + [Delist(appender)]
  }

  lemma {:induction false} TouchesConcat(a: seq<Act>, b: seq<Act>)
    ensures Touches(a + b) == Touches(a) + Touches(b)
    decreases |a|
  {
    if a == [] {
      assert a + b == b;
    } else {
      assert (a + b)[1..] == a[1..] + b;
      TouchesConcat(a[1..], b);
    }
  }

  lemma TouchesOne(act: Act)
    ensures Touches([act]) == if IsLocking(act) then [] else [act]
  {
    assert [act][1..] == [];
  }

  lemma SectionTouches(l: Lock, inner: seq<Act>)
    ensures Touches(Section(l, inner)) == Touches(inner)
  {
    TouchesConcat([Acquire(l)], inner);
    TouchesConcat([Acquire(l)] + inner, [Release(l)]);
    TouchesOne(Acquire(l));
    TouchesOne(Release(l));
  }

  lemma UseTouches(l: Lock, act: Act)
    ensures !IsLocking(act) ==> Touches(Section(l, [act])) == [act]
  {
    SectionTouches(l, [act]);
    TouchesOne(act);
  }

  lemma PartsTouch(appender: nat, thread: nat, hasBlock: bool)
    ensures Touches(Task(appender, hasBlock)) == BlockOutline(appender, hasBlock)
    ensures Touches(FileSection(appender)) == [UseFile(appender)]
    ensures Touches(ThreadSection(thread)) == [UseThread(thread)]
    ensures Touches([]) == []
  {
    UseTouches(BufferMutex(appender), UseBuffer(appender));
    UseTouches(FileMutex(appender), UseFile(appender));
    UseTouches(ThreadLock(thread), UseThread(thread));
    hide Section;
    TouchesConcat(Section(BufferMutex(appender), [UseBuffer(appender)]), if hasBlock then FileSection(appender) else []);
  }

  lemma {:induction false} SectionsTouch(threads: seq<nat>)
    ensures Touches(ThreadSections(threads)) == ThreadUses(threads)
    decreases |threads|
  {
    if threads != [] {
      PartsTouch(0, threads[0], false);
      SectionsTouch(threads[1..]);
      TouchesConcat(ThreadSection(threads[0]), ThreadSections(threads[1..]));
    }
  }

  lemma CloseTouches(call: Call)
    requires call.Close? || call.Destroy?
    ensures Touches(CloseActs(call.appender, call.threads, call.thread, call.worker, call.shared, call.hasBlock))
            == CloseOutline(call)
  {
    hide Section, Task, ThreadSections, FileSection, ThreadSection, Touches, BlockOutline;
    var appender, thread := call.appender, call.thread;
    var flag, own := [RaiseClose(appender)], ThreadSections(call.threads);
    var join := match call.worker
      case Nobody => []
      case Ended => ThreadSection(thread)
      case Running => ThreadSection(thread) + [Join(thread)];
    var task := if call.shared then Task(appender, call.hasBlock) else [];
    var wipe := Section(BufferMutex(appender), [Detach(appender)]);
    PartsTouch(appender, thread, call.hasBlock);
    SectionsTouch(call.threads);
    TouchesOne(RaiseClose(appender));
    TouchesOne(Join(thread));
    UseTouches(BufferMutex(appender), Detach(appender));
    TouchesConcat(ThreadSection(thread), [Join(thread)]);
    assert [UseThread(thread)] + [Join(thread)] == [UseThread(thread), Join(thread)];
    TouchesConcat(flag, own);
    TouchesConcat(flag + own, join);
    TouchesConcat(flag + own + join, task);
    TouchesConcat(flag + own + join + task, wipe);
    TouchesConcat(flag + own + join + task + wipe, FileSection(appender));
  }

  /** Every call touches exactly what its outline says, in that order. */
  lemma ProgramTouches(call: Call)
    ensures Touches(Program(call)) == Outline(call)
  {
    hide Section, Task, CloseActs, ThreadSections, FileSection, ThreadSection, Touches, CloseOutline;
    match call {
      case Create(appender, threads, shared) =>
        SectionsTouch(threads);
        PartsTouch(appender, 0, false);
        UseTouches(Registry, Enlist(appender));
        TouchesConcat(ThreadSections(threads), if shared then Section(Registry, [Enlist(appender)]) else []);
      case Open(appender, threads, hasBlock) => OpenTouches(appender, threads, hasBlock);
      case Append(appender, threads) =>
        SectionsTouch(threads);
        TouchesOne(UseBuffer(appender));
        TouchesConcat([UseBuffer(appender)], ThreadSections(threads));
        SectionTouches(BufferMutex(appender), [UseBuffer(appender)] + ThreadSections(threads));
      case AppendSync(appender) => PartsTouch(appender, 0, false);
      case SetMode(threads) => SectionsTouch(threads);
      case FlushSync(appender, hasBlock) => PartsTouch(appender, 0, hasBlock);
      case Close(_, _, _, _, _, _) => CloseTouches(call);
      case Destroy(appender, wasOpen, threads, thread, worker, shared, hasBlock) =>
        CloseTouches(call);
        SectionsTouch(threads);
        PartsTouch(appender, thread, hasBlock);
        UseTouches(Registry, Delist(appender));
        var close := if wasOpen then CloseActs(appender, threads, thread, worker, shared, hasBlock)
                     else ThreadSections(threads);
        var delete := if shared then [] else ThreadSection(thread);
        TouchesConcat(close, delete);
        TouchesConcat(close + delete, Section(Registry, [Delist(appender)]));
    }
  }

  lemma OpenTouches(appender: nat, threads: seq<nat>, hasBlock: bool)
    ensures Touches(Program(Open(appender, threads, hasBlock))) == Outline(Open(appender, threads, hasBlock))
  {
    hide Section, ThreadSections, FileSection, Touches;
    var inner := [LowerClose(appender)] + ThreadSections(threads);
    SectionsTouch(threads);
    PartsTouch(appender, 0, hasBlock);
    TouchesOne(Attach(appender));
    TouchesOne(LowerClose(appender));
    TouchesConcat([LowerClose(appender)], ThreadSections(threads));
    SectionTouches(FileMutex(appender), inner);
    TouchesConcat([Attach(appender)], Section(FileMutex(appender), inner));
    TouchesConcat([Attach(appender)] + Section(FileMutex(appender), inner), if hasBlock then FileSection(appender) else []);
  }

  lemma UsesOnly(threads: seq<nat>, appender: nat, hasBlock: bool)
    ensures forall act :: act in ThreadUses(threads) ==> act.UseThread?
    ensures forall act :: act in BlockOutline(appender, hasBlock) <==>
              act == UseBuffer(appender) || (hasBlock && act == UseFile(appender))
  {
  }

  /** In particular: the log calls and the flush reach the buffer or the file, and nothing else of the
      kind ... */
  lemma LogCallsReach(appender: nat, threads: seq<nat>, hasBlock: bool)
    ensures UseBuffer(appender) in Outline(Append(appender, threads)) && UseFile(appender) in Outline(AppendSync(appender))
    ensures UseBuffer(appender) in Outline(FlushSync(appender, hasBlock))
    ensures UseFile(appender) in Outline(FlushSync(appender, hasBlock)) <==> hasBlock
  {
    UsesOnly(threads, appender, hasBlock);
    hide ThreadUses, BlockOutline;
  }

  /** ... an open raises no flag but lowers it, and writes the recovered block if there is one ... */
  lemma OpenReaches(appender: nat, threads: seq<nat>, hasBlock: bool, shared: bool)
    ensures var open := Outline(Open(appender, threads, hasBlock));
            Attach(appender) in open && LowerClose(appender) in open && (UseFile(appender) in open <==> hasBlock)
    ensures Enlist(appender) in Outline(Create(appender, threads, shared)) <==> shared
  {
    UsesOnly(threads, appender, hasBlock);
    hide ThreadUses;
  }

  /** ... and a close raises the flag, joins exactly a running worker, flushes exactly for the shared
      thread, drops the buffer and closes the file. */
  lemma CloseReaches(call: Call)
    requires call.Close? || call.Destroy?
    ensures var close := CloseOutline(call);
            && RaiseClose(call.appender) in close && Detach(call.appender) in close && UseFile(call.appender) in close
            && (Join(call.thread) in close <==> call.worker.Running?) && (UseBuffer(call.appender) in close <==> call.shared)
    ensures call.Close? ==> Outline(call) == CloseOutline(call)
  {
    UsesOnly(call.threads, call.appender, call.hasBlock);
    hide ThreadUses, BlockOutline;
    var close := CloseOutline(call);
    assert close[|close| - 2] == Detach(call.appender) && close[|close| - 1] == UseFile(call.appender);
  }

  /** Destroy closes what is still open and then takes the appender out of the registry. */
  lemma DestroyReaches(call: Call)
    requires call.Destroy?
    ensures Outline(call)[|Outline(call)| - 1] == Delist(call.appender)
    ensures call.wasOpen ==> CloseOutline(call) <= Outline(call)
  {
    hide CloseOutline, ThreadUses;
  }

  // ---- the loops and the flags

  /** What the background threads do: they touch everything registered and open, or their own appender,
      once a round, wait on their condition, and test again as long as the loop goes on. */
  lemma ExpandTouches(act: Act, m: Memory, hasBlock: bool)
    ensures Touches(Expand(act, m, hasBlock)) ==
            match act
            case PrivateHead(p) =>
              if p.appender in m.attached then BlockOutline(p.appender, hasBlock) + [PrivateTest(p)] else []
            case PrivateTest(p) => if p.appender in m.accepting then [TimedWait(p.condition)] + [PrivateHead(p)] else []
            case SharedTest =>
              if m.registry == [] then [] else Visits(m.registry) + [TimedWait(SHARED_CONDITION)] + [SharedTest]
            case Visit(appender) => if appender in m.accepting then BlockOutline(appender, hasBlock) else []
            case _ => []
  {
    hide Task, Wait, Touches, BlockOutline;
    PartsTouch(0, 0, false);
    match act {
      case PrivateHead(p) =>
        PartsTouch(p.appender, 0, hasBlock);
        TouchesOne(PrivateTest(p));
        TouchesConcat(Task(p.appender, hasBlock), [PrivateTest(p)]);
      case PrivateTest(p) =>
        WaitTouches(p.condition);
        TouchesOne(PrivateHead(p));
        TouchesConcat(Wait(p.condition), [PrivateHead(p)]);
      case SharedTest =>
        TouchesOne(Release(Registry));
        RoundTouches(m.registry);
      case Visit(appender) => PartsTouch(appender, 0, hasBlock);
      case _ =>
    }
  }

  lemma WaitTouches(condition: nat)
    ensures Touches(Wait(condition)) == [TimedWait(condition)]
  {
    var s := Section(ConditionMutex(condition), []);
    SectionTouches(ConditionMutex(condition), []);
    TouchesOne(TimedWait(condition));
    TouchesConcat(s, [TimedWait(condition)]);
    TouchesConcat(s + [TimedWait(condition)], s);
  }

  lemma {:induction false} VisitsTouch(registry: seq<nat>)
    ensures Touches(Visits(registry)) == Visits(registry)
    decreases |registry|
  {
    if registry != [] {
      assert Visits(registry)[1..] == Visits(registry[1..]);
      VisitsTouch(registry[1..]);
    }
  }

  lemma HeadTouches()
    ensures Touches([Acquire(Registry), SharedTest]) == [SharedTest]
  {
    TouchesOne(Acquire(Registry));
    TouchesOne(SharedTest);
    TouchesConcat([Acquire(Registry)], [SharedTest]);
    assert [Acquire(Registry)] + [SharedTest] == [Acquire(Registry), SharedTest];
  }

  lemma RoundTouches(registry: seq<nat>)
    ensures Touches(Visits(registry) + [Release(Registry)] + Wait(SHARED_CONDITION) + [Acquire(Registry), SharedTest])
            == Visits(registry) + [TimedWait(SHARED_CONDITION)] + [SharedTest]
  {
    VisitsTouch(registry);
    WaitTouches(SHARED_CONDITION);
    TouchesOne(Release(Registry));
    HeadTouches();
    hide Touches, Visits, Wait;
    assert Visits(registry) + [] == Visits(registry);
    TouchesConcat(Visits(registry), [Release(Registry)]);
    TouchesConcat(Visits(registry) + [Release(Registry)], Wait(SHARED_CONDITION));
    TouchesConcat(Visits(registry) + [Release(Registry)] + Wait(SHARED_CONDITION), [Acquire(Registry), SharedTest]);
  }

  /** A routine: its init, its loop, its cleanup. */
  lemma RoutineTouches(role: Role)
    ensures Touches(Routine(role)) ==
            match role
            case Caller => []
            case Shared => [UseThread(SHARED_THREAD), SharedTest, UseThread(SHARED_THREAD)]
            case Own(p) => [UseThread(p.thread), PrivateHead(p), UseThread(p.thread)]
  {
    hide Touches;
    match role {
      case Caller => PartsTouch(0, 0, false);
      case Shared =>
        var ends, head := ThreadSection(SHARED_THREAD), [Acquire(Registry), SharedTest];
        PartsTouch(0, SHARED_THREAD, false);
        HeadTouches();
        TouchesConcat(ends, head);
        TouchesConcat(ends + head, ends);
      case Own(p) =>
        var ends := ThreadSection(p.thread);
        PartsTouch(0, p.thread, false);
        TouchesOne(PrivateHead(p));
        TouchesConcat(ends, [PrivateHead(p)]);
        TouchesConcat(ends + [PrivateHead(p)], ends);
    }
  }

  predicate At(s: System, i: nat, act: Act) {
    i < |s.threads| && s.threads[i].rest != [] && s.threads[i].rest[0] == act
  }

  predicate AtBuffer(s: System, i: nat, appender: nat) { At(s, i, UseBuffer(appender)) || At(s, i, Detach(appender)) }

  predicate AtFile(s: System, i: nat, appender: nat) { At(s, i, UseFile(appender)) || At(s, i, LowerClose(appender)) }

  predicate AtVector(s: System, i: nat) {
    && i < |s.threads| && s.threads[i].rest != []
    && (s.threads[i].rest[0].Enlist? || s.threads[i].rest[0].Delist? || s.threads[i].rest[0].SharedTest?)
  }

  predicate Does(s: System, e: Event, act: Act) { e.Go? && At(s, e.i, act) }

  predicate DoneBy(s: System, e: Event, i: nat, act: Act) { e.Go? && e.i == i && At(s, i, act) }

  lemma TouchedFollows(act: Act, m: Memory, appender: nat)
    ensures var u := Touched(act, m);
            && (appender in u.accepting <==> act == LowerClose(appender) || (appender in m.accepting && act != RaiseClose(appender)))
            && (appender in u.attached <==> act == Attach(appender) || (appender in m.attached && act != Detach(appender)))
            && (act == Enlist(appender) ==> u.registry == m.registry + [appender])
            && (act == Delist(appender) ==> multiset(u.registry) == multiset(m.registry) - multiset{appender})
            && (u.registry != m.registry ==> act.Enlist? || act.Delist?)
  {
  }

  /** Who changes the shared flags: an appender accepts from its open to its close, has a buffer from its
      attach to its detach, and the vector grows and shrinks by one entry. */
  lemma MemoryFollows(s: System, e: Event, appender: nat)
    requires Enabled(s, e)
    ensures var m, u := s.memory, Step(s, e).memory;
            && (appender in u.accepting <==>
                  Does(s, e, LowerClose(appender)) || (appender in m.accepting && !Does(s, e, RaiseClose(appender))))
            && (appender in u.attached <==>
                  Does(s, e, Attach(appender)) || (appender in m.attached && !Does(s, e, Detach(appender))))
            && (Does(s, e, Enlist(appender)) ==> u.registry == m.registry + [appender])
            && (Does(s, e, Delist(appender)) ==> multiset(u.registry) == multiset(m.registry) - multiset{appender})
            && (u.registry != m.registry ==> e.Go? && AtVector(s, e.i))
  {
    hide Expand, Program, Routine, Touched;
    if e.Go? {
      TouchedFollows(s.threads[e.i].rest[0], s.memory, appender);
      assert Step(s, e).memory == Touched(s.threads[e.i].rest[0], s.memory);
    }
  }

  /** Nobody else is at a buffer, file, control block or at the vector if thread i is there. */
  ghost predicate Alone(s: System, i: nat) {
    && (forall j: nat, appender :: j != i && AtBuffer(s, i, appender) ==> !AtBuffer(s, j, appender))
    && (forall j: nat, appender :: j != i && AtFile(s, i, appender) ==> !AtFile(s, j, appender))
    && (forall j: nat, thread :: j != i && At(s, i, UseThread(thread)) ==> !At(s, j, UseThread(thread)))
    && (forall j: nat :: j != i && AtVector(s, i) ==> !AtVector(s, j))
  }

  lemma Apart(s: System, i: nat, j: nat)
    requires Inv(s) && i != j
    ensures forall appender :: AtBuffer(s, i, appender) ==> !AtBuffer(s, j, appender)
    ensures forall appender :: AtFile(s, i, appender) ==> !AtFile(s, j, appender)
    ensures forall thread :: At(s, i, UseThread(thread)) ==> !At(s, j, UseThread(thread))
    ensures AtVector(s, i) ==> !AtVector(s, j)
  {
    if i < |s.threads| && s.threads[i].rest != [] && j < |s.threads| && s.threads[j].rest != [] {
      assert ThreadOk(s.threads[i]) && Fits(s.threads[i].role, s.threads[i].held, s.threads[i].rest[0]);
      assert ThreadOk(s.threads[j]) && Fits(s.threads[j].role, s.threads[j].held, s.threads[j].rest[0]);
      hide ThreadOk;
    }
  }

  /** In every reachable state at most one thread is at an appender's buffer, at its file, at a control
      block, at the vector. */
  lemma AccessIsExclusive(before: seq<Event>, s: System, i: nat)
    requires Runs(EMPTY, before, s)
    ensures Alone(s, i)
  {
    RunKeeps(EMPTY, before, s);
    hide Inv, AtBuffer, AtFile, AtVector, At, Runs;
    forall j: nat, appender: nat | j != i && AtBuffer(s, i, appender) ensures !AtBuffer(s, j, appender) { Apart(s, i, j); }
    forall j: nat, appender: nat | j != i && AtFile(s, i, appender) ensures !AtFile(s, j, appender) { Apart(s, i, j); }
    forall j: nat, thread: nat | j != i && At(s, i, UseThread(thread)) ensures !At(s, j, UseThread(thread)) { Apart(s, i, j); }
    forall j: nat | j != i && AtVector(s, i) ensures !AtVector(s, j) { Apart(s, i, j); }
  }

  // ---- what a call has done when it returns

  /** Caller i, with act in front of it and later not any more, has come to act and done it. */
  lemma {:induction false} CallerComesTo(s: System, es: seq<Event>, u: System, i: nat, act: Act) returns (n: nat, m: System)
    requires Inv(s) && Runs(s, es, u) && i < |s.threads| && s.threads[i].role.Caller? && act in s.threads[i].rest
    requires i < |u.threads| && act !in u.threads[i].rest
    ensures n < |es| && Runs(s, es[..n], m) && Runs(m, es[n..], u) && Enabled(m, es[n]) && DoneBy(m, es[n], i, act)
    decreases |es|
  {
    hide Inv, Step, Enabled, DoneBy;
    assert es != [];
    NextEvent(s, es, u);
    if DoneBy(s, es[0], i, act) {
      n, m := 0, s;
      NoRun(s);
      assert es[..0] == [] && es[0..] == es;
    } else {
      StepKeeps(s, es[0]);
      CallerWaits(s, es[0], i, act);
      n, m := CallerComesTo(Step(s, es[0]), es[1..], u, i, act);
      assert es[..n + 1][1..] == es[1..][..n] && es[n + 1..] == es[1..][n..];
      ThatRuns(s, es[..n + 1], m);
      n := n + 1;
    }
  }

  lemma NextEvent(s: System, es: seq<Event>, u: System)
    requires es != [] && Runs(s, es, u)
    ensures Enabled(s, es[0]) && Runs(Step(s, es[0]), es[1..], u)
  {
  }

  lemma ThatRuns(s: System, es: seq<Event>, u: System)
    requires es != [] && Enabled(s, es[0]) && Runs(Step(s, es[0]), es[1..], u)
    ensures Runs(s, es, u)
  {
  }

  /** What a caller has in front of it shrinks from the front, by its own steps only. */
  lemma CallerStep(s: System, e: Event, i: nat)
    requires Inv(s) && Enabled(s, e) && i < |s.threads| && s.threads[i].role.Caller?
    ensures var u := Step(s, e);
            && i < |u.threads| && u.threads[i].role.Caller?
            && (s.threads[i].rest != [] ==>
                  u.threads[i].rest == if e.Go? && e.i == i then s.threads[i].rest[1..] else s.threads[i].rest)
  {
    hide Program, Routine;
    if e.Go? && e.i == i {
      var t := s.threads[i];
      assert ThreadOk(t) && Fits(t.role, t.held, t.rest[0]);
      assert [] + t.rest[1..] == t.rest[1..];
    }
  }

  lemma CallerWaits(s: System, e: Event, i: nat, act: Act)
    requires Inv(s) && Enabled(s, e) && i < |s.threads| && s.threads[i].role.Caller? && act in s.threads[i].rest
    requires !DoneBy(s, e, i, act)
    ensures var u := Step(s, e); i < |u.threads| && u.threads[i].role.Caller? && act in u.threads[i].rest
  {
    CallerStep(s, e, i);
    hide Step, Inv, Enabled;
    var rest := s.threads[i].rest;
    assert rest[1..] == rest[1..] && (rest[0] != act ==> act in rest[1..]);
  }

  lemma {:induction false} TouchesAll(acts: seq<Act>, act: Act)
    requires !IsLocking(act)
    ensures act in acts <==> act in Touches(acts)
    decreases |acts|
  {
    if acts != [] {
      TouchesAll(acts[1..], act);
      assert acts == [acts[0]] + acts[1..];
    }
  }

  /** In every run: a call that has been entered and has returned has done each action of its outline on
      the way, at a moment when nobody else was at that buffer, file, control block or at the vector. */
  lemma ReturnedCallDid(before: seq<Event>, s: System, i: nat, call: Call, es: seq<Event>, u: System, act: Act)
    returns (n: nat, m: System)
    requires Runs(EMPTY, before, s) && Enabled(s, Begin(i, call)) && act in Outline(call) && !IsLocking(act)
    requires Runs(Step(s, Begin(i, call)), es, u) && i < |u.threads| && u.threads[i].rest == []
    ensures n < |es| && Runs(Step(s, Begin(i, call)), es[..n], m) && Runs(m, es[n..], u)
    ensures Enabled(m, es[n]) && DoneBy(m, es[n], i, act) && Alone(m, i)
  {
    RunKeeps(EMPTY, before, s);
    ProgramTouches(call);
    TouchesAll(Program(call), act);
    hide Program, Outline, Runs, Inv, Alone, DoneBy, Touches;
    var b := Step(s, Begin(i, call));
    StepKeeps(s, Begin(i, call));
    n, m := CallerComesTo(b, es, u, i, act);
    RunsOn(before, s, Begin(i, call), es[..n], m);
    AccessIsExclusive(before + [Begin(i, call)] + es[..n], m, i);
  }

  lemma RunsOn(before: seq<Event>, s: System, e: Event, es: seq<Event>, u: System)
    requires Runs(EMPTY, before, s) && Enabled(s, e) && Runs(Step(s, e), es, u)
    ensures Runs(EMPTY, before + [e] + es, u)
  {
    assert [e][1..] == [];
    assert Runs(s, [e], Step(s, e));
    hide Enabled, Step;
    RunsJoin(EMPTY, before, s, [e], Step(s, e));
    RunsJoin(EMPTY, before + [e], Step(s, e), es, u);
  }

  // ---- close joins before it wipes

  /** Caller i is still in the same call: what it has in front of it is the end of what it had. */
  predicate StillIn(acts: seq<Act>, rest: seq<Act>) {
    |rest| <= |acts| && rest == acts[|acts| - |rest|..]
  }

  lemma {:induction false} CallerStaysIn(s: System, es: seq<Event>, u: System, i: nat, acts: seq<Act>)
    requires Inv(s) && Runs(s, es, u) && i < |s.threads| && s.threads[i].role.Caller?
    requires StillIn(acts, s.threads[i].rest) && forall k :: 0 <= k < |es| && es[k].Begin? ==> es[k].i != i
    ensures i < |u.threads| && StillIn(acts, u.threads[i].rest)
    decreases |es|
  {
    hide Inv, Step, Enabled;
    if es != [] {
      StepKeeps(s, es[0]);
      StaysInStep(s, es[0], i, acts);
      CallerStaysIn(Step(s, es[0]), es[1..], u, i, acts);
    }
  }

  lemma StaysInStep(s: System, e: Event, i: nat, acts: seq<Act>)
    requires Inv(s) && Enabled(s, e) && i < |s.threads| && s.threads[i].role.Caller?
    requires StillIn(acts, s.threads[i].rest) && (e.Begin? ==> e.i != i)
    ensures var u := Step(s, e); i < |u.threads| && u.threads[i].role.Caller? && StillIn(acts, u.threads[i].rest)
  {
    CallerStep(s, e, i);
    hide Program, Routine, Expand, Inv;
    if s.threads[i].rest == [] {
      assert Step(s, e).threads[i] == s.threads[i];
    }
  }

  /** Behind the wipe of a close there is no join. */
  lemma NoJoinBehindDetach(call: Call, rest: seq<Act>)
    requires call.Close? && StillIn(Program(call), rest) && rest != [] && rest[0] == Detach(call.appender)
    ensures Join(call.thread) !in rest
  {
    var acts := Program(call);
    var front := acts[..|acts| - |rest|];
    assert acts == front + rest;
    TouchesConcat(front, rest);
    ProgramTouches(call);
    TouchesAll(rest, Join(call.thread));
    assert Touches(rest) != [] && Touches(rest)[0] == Detach(call.appender);
    hide Program, Touches, Outline, StillIn;
    NothingBehind(call, Touches(front), Touches(rest));
  }

  lemma NothingBehind(call: Call, front: seq<Act>, back: seq<Act>)
    requires call.Close? && Outline(call) == front + back && back != [] && back[0] == Detach(call.appender)
    ensures Join(call.thread) !in back
  {
    hide Outline;
    assert (front + back)[|front|] == back[0];
    DetachIsNearlyLast(call, |front|);
    assert (front + back)[|front| + 1] == back[1];
  }

  lemma DetachIsNearlyLast(call: Call, k: nat)
    requires call.Close? && k < |Outline(call)| && Outline(call)[k] == Detach(call.appender)
    ensures k == |Outline(call)| - 2 && Outline(call)[k + 1] == UseFile(call.appender)
  {
  }

  lemma RunningIsJoined(call: Call)
    requires call.Close? && call.worker.Running?
    ensures Join(call.thread) in Program(call)
  {
    ProgramTouches(call);
    TouchesAll(Program(call), Join(call.thread));
    hide Program, Touches, BlockOutline, ThreadUses;
    assert Join(call.thread) in [UseThread(call.thread), Join(call.thread)];
  }

  /** When a close that met a running worker comes to drop the buffer, it has been through its join: no
      OS thread of the Thread object that was there at that moment is unfinished. */
  lemma DetachAfterJoin(before: seq<Event>, s: System, i: nat, call: Call, es: seq<Event>, u: System)
    returns (n: nat, m: System)
    requires Runs(EMPTY, before, s) && Enabled(s, Begin(i, call)) && call.Close? && call.worker.Running?
    requires Runs(Step(s, Begin(i, call)), es, u) && forall k :: 0 <= k < |es| && es[k].Begin? ==> es[k].i != i
    requires At(u, i, Detach(call.appender))
    ensures n < |es| && Runs(Step(s, Begin(i, call)), es[..n], m) && Runs(m, es[n..], u)
    ensures At(m, i, Join(call.thread))
    ensures forall w :: 0 <= w < |m.threads| && OfThread(m.threads[w], call.thread) ==>
              w < |u.threads| && OfThread(u.threads[w], call.thread) && u.threads[w].rest == []
  {
    RunKeeps(EMPTY, before, s);
    StepKeeps(s, Begin(i, call));
    var b := Step(s, Begin(i, call));
    CallerStaysIn(b, es, u, i, Program(call));
    NoJoinBehindDetach(call, u.threads[i].rest);
    RunningIsJoined(call);
    hide Program, Runs, Inv, StillIn;
    n, m := CallerComesTo(b, es, u, i, Join(call.thread));
    hide Step, Enabled;
    forall w | 0 <= w < |m.threads| && OfThread(m.threads[w], call.thread)
      ensures w < |u.threads| && OfThread(u.threads[w], call.thread) && u.threads[w].rest == []
    {
      EndedStays(m, es[n..], u, w);
    }
  }

  /** A background thread that has ended stays so. */
  lemma {:induction false} EndedStays(s: System, es: seq<Event>, u: System, w: nat)
    requires Runs(s, es, u) && w < |s.threads| && s.threads[w].role.Own? && s.threads[w].rest == []
    ensures w < |u.threads| && u.threads[w] == s.threads[w]
    decreases |es|
  {
    hide Program, Routine, Expand;
    if es != [] {
      EndedStays(Step(s, es[0]), es[1..], u, w);
    }
  }
}
