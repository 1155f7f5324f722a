/** Deadlock freedom of the appender: which locks each call takes, in which order, and what that
    order buys. Threads are lists of pending actions. Branches that look at local data are parameters
    of the calls; the loops of the two background threads are not: each of their tests is an action
    that reads the shared flag at that moment and decides what the thread does next. */
module LockOrder {
  import Vectors = Registry

  /** The locks, by kind: the registry's shared spinlock, the buffer and file mutex of each appender,
      the spinlock inside each Thread, the mutex inside each Condition. */
  datatype Lock =
    | Registry
    | BufferMutex(appender: nat)
    | FileMutex(appender: nat)
    | ThreadLock(thread: nat)
    | ConditionMutex(condition: nat)

  function Rank(l: Lock): nat {
    match l
    case Registry => 0
    case BufferMutex(_) => 1
    case FileMutex(_) => 2
    case ThreadLock(_) => 3
    case ConditionMutex(_) => 4
  }

  /** A private background thread: its appender, its Thread object, its condition. */
  datatype Private = Private(appender: nat, thread: nat, condition: nat)

  datatype Act =
    | Acquire(lock: Lock) | Release(lock: Lock)
    | TimedWait(condition: nat)                              // its mutex released; the timeout ends it
    | Join(thread: nat)                                      // for the OS thread of this Thread object
    | RaiseClose(appender: nat) | LowerClose(appender: nat)  // sg_log_close
    | Attach(appender: nat) | Detach(appender: nat)          // sg_log_buff
    | Enlist(appender: nat) | Delist(appender: nat)          // the vector of shared appenders
    | UseBuffer(appender: nat)                               // read or write the log buffer
    | UseFile(appender: nat)                                 // open, write or close the log file
    | UseThread(thread: nat)                                 // change the control block of a Thread
    | PrivateHead(p: Private)                                // is the buffer NULL?
    | PrivateTest(p: Private)                                // is the close flag up?
    | SharedTest                                             // is the vector empty?
    | Visit(appender: nat)                                   // is this appender closed?

  /** What the threads share besides the locks: appenders with the close flag down, appenders with a
      buffer, and the vector. */
  datatype Memory = Memory(accepting: set<nat>, attached: set<nat>, registry: seq<nat>)

  // ---- the calls of the source

  function Section(l: Lock, inner: seq<Act>): seq<Act> {
    [Acquire(l)] + inner + [Release(l)]
  }

  /** __log_thread_task and flush_sync: the buffer section, then, if there is a block, the file one. */
  function Task(appender: nat, hasBlock: bool): seq<Act> {
    Section(BufferMutex(appender), [UseBuffer(appender)]) + if hasBlock then FileSection(appender) else []
  }

  /** __log2file, and the end of close. */
  function FileSection(appender: nat): seq<Act> { Section(FileMutex(appender), [UseFile(appender)]) }

  /** Condition::wait(ms). */
  function Wait(condition: nat): seq<Act> {
    Section(ConditionMutex(condition), []) + [TimedWait(condition)] + Section(ConditionMutex(condition), [])
  }

  /** Thread's constructor, start, join up to its unlock, init, cleanup or destructor. */
  function ThreadSection(thread: nat): seq<Act> { Section(ThreadLock(thread), [UseThread(thread)]) }

  /** Such sections one after the other: none, a start, or the construction of the shared Thread on
      its first use and then its start. */
  function ThreadSections(threads: seq<nat>): seq<Act> {
    if threads == [] then [] else ThreadSection(threads[0]) + ThreadSections(threads[1..])
  }

  const SHARED_THREAD: nat := 0
  const SHARED_CONDITION: nat := 0

  /** What close meets: no running thread, one that has ended by the time of the join section, or one
      to wait for. Which OS thread that is, is read only then. */
  datatype Joined = Nobody | Ended | Running

  datatype Call =
    | Create(appender: nat, threads: seq<nat>, shared: bool)
    | Open(appender: nat, threads: seq<nat>, hasBlock: bool)
    | Append(appender: nat, threads: seq<nat>)
    | AppendSync(appender: nat)
    | SetMode(threads: seq<nat>)
    | FlushSync(appender: nat, hasBlock: bool)
    | Close(appender: nat, threads: seq<nat>, thread: nat, worker: Joined, shared: bool, hasBlock: bool)
    | Destroy(appender: nat, wasOpen: bool, threads: seq<nat>, thread: nat, worker: Joined, shared: bool, hasBlock: bool)

  function CloseActs(appender: nat, threads: seq<nat>, thread: nat, worker: Joined, shared: bool, hasBlock: bool): seq<Act> {
    [RaiseClose(appender)] + ThreadSections(threads)
    + (match worker
       case Nobody => []
       case Ended => ThreadSection(thread)
       case Running => ThreadSection(thread) + [Join(thread)])
    + (if shared then Task(appender, hasBlock) else [])
    + Section(BufferMutex(appender), [Detach(appender)]) + FileSection(appender)
  }

  function Program(call: Call): seq<Act> {
    match call
    case Create(appender, threads, shared) =>
      ThreadSections(threads) + if shared then Section(Registry, [Enlist(appender)]) else []
    case Open(appender, threads, hasBlock) =>
      [Attach(appender)] + Section(FileMutex(appender), [LowerClose(appender)] + ThreadSections(threads))
      + if hasBlock then FileSection(appender) else []
    case Append(appender, threads) => Section(BufferMutex(appender), [UseBuffer(appender)] + ThreadSections(threads))
    case AppendSync(appender) => FileSection(appender)
    case SetMode(threads) => ThreadSections(threads)
    case FlushSync(appender, hasBlock) => Task(appender, hasBlock)
    case Close(appender, threads, thread, worker, shared, hasBlock) =>
      CloseActs(appender, threads, thread, worker, shared, hasBlock)
    case Destroy(appender, wasOpen, threads, thread, worker, shared, hasBlock) =>
      (if wasOpen then CloseActs(appender, threads, thread, worker, shared, hasBlock) else ThreadSections(threads))
      + (if shared then [] else ThreadSection(thread)) + Section(Registry, [Delist(appender)])
  }

  // ---- the background threads

  datatype Role = Caller | Shared | Own(p: Private)

  /** init, the loop, cleanup. */
  function Routine(role: Role): seq<Act> {
    match role
    case Caller => []
    case Shared => ThreadSection(SHARED_THREAD) + [Acquire(Registry), SharedTest] + ThreadSection(SHARED_THREAD)
    case Own(p) => ThreadSection(p.thread) + [PrivateHead(p)] + ThreadSection(p.thread)
  }

  function Visits(registry: seq<nat>): (r: seq<Act>)
    ensures |r| == |registry| && forall k :: 0 <= k < |r| ==> r[k] == Visit(registry[k])
  {
    seq(|registry|, i requires 0 <= i < |registry| => Visit(registry[i]))
  }

  /** What a test puts in front of the rest of its thread. Leaving the loop puts nothing. */
  function Expand(act: Act, m: Memory, hasBlock: bool): seq<Act> {
    match act
    case PrivateHead(p) =>
      if p.appender !in m.attached then [] else Task(p.appender, hasBlock) + [PrivateTest(p)]
    case PrivateTest(p) =>
      if p.appender !in m.accepting then [] else Wait(p.condition) + [PrivateHead(p)]
    case SharedTest =>
      if m.registry == [] then [Release(Registry)]
      else Visits(m.registry) + [Release(Registry)] + Wait(SHARED_CONDITION) + [Acquire(Registry), SharedTest]
    case Visit(appender) => if appender !in m.accepting then [] else Task(appender, hasBlock)
    case _ => []
  }

  function Touched(act: Act, m: Memory): Memory {
    match act
    case RaiseClose(appender) => m.(accepting := m.accepting - {appender})
    case LowerClose(appender) => m.(accepting := m.accepting + {appender})
    case Attach(appender) => m.(attached := m.attached + {appender})
    case Detach(appender) => m.(attached := m.attached - {appender})
    case Enlist(appender) => m.(registry := m.registry + [appender])
    case Delist(appender) => m.(registry := Vectors.Without(m.registry, appender))
    case _ => m
  }

  // ---- the order

  predicate Above(l: Lock, held: set<Lock>) {
    forall h :: h in held ==> Rank(h) < Rank(l)
  }

  /** What a thread of this role ever has in front of it: calls test nothing, and background threads
      join nobody and open nothing. */
  predicate Suits(role: Role, act: Act) {
    match role
    case Caller => !act.PrivateHead? && !act.PrivateTest? && !act.SharedTest? && !act.Visit?
    case Shared => !act.Join? && !act.LowerClose? && !act.PrivateHead? && !act.PrivateTest?
    case Own(_) => !act.Join? && !act.LowerClose? && !act.SharedTest? && !act.Visit?
  }

  /** The rule for one action of a thread that holds `held`: locks in strictly increasing rank, joins
      and waits hold nothing, and the vector, a buffer, a file and a control block are touched under
      their own lock only. */
  predicate Fits(role: Role, held: set<Lock>, act: Act) {
    Suits(role, act) &&
    match act
    case Acquire(l) => Above(l, held)
    case Release(l) => l in held
    case TimedWait(_) => held == {}
    case Join(_) => held == {}
    case Enlist(_) => Registry in held
    case Delist(_) => Registry in held
    case UseBuffer(appender) => BufferMutex(appender) in held
    case Detach(appender) => BufferMutex(appender) in held
    case UseFile(appender) => FileMutex(appender) in held
    case LowerClose(appender) => FileMutex(appender) in held
    case UseThread(thread) => ThreadLock(thread) in held
    case PrivateHead(_) => held == {}
    case PrivateTest(_) => held == {}
    case SharedTest => held == {Registry}
    case Visit(appender) => Above(BufferMutex(appender), held)
    case _ => true
  }

  function After(held: set<Lock>, act: Act): set<Lock> {
    match act
    case Acquire(l) => held + {l}
    case Release(l) => held - {l}
    case _ => held
  }

  /** ... and what is held once the expansion of act is through, too. */
  function Behind(held: set<Lock>, act: Act): set<Lock> {
    if act.SharedTest? then {} else After(held, act)
  }

  /** acts, begun holding `held`, fit one after the other and end holding `after`. */
  predicate Ordered(role: Role, held: set<Lock>, acts: seq<Act>, after: set<Lock>)
    decreases |acts|
  {
    if acts == [] then held == after
    else Fits(role, held, acts[0]) && Ordered(role, Behind(held, acts[0]), acts[1..], after)
  }

  lemma {:induction false} Compose(role: Role, held: set<Lock>, a: seq<Act>, middle: set<Lock>, b: seq<Act>, after: set<Lock>)
    requires Ordered(role, held, a, middle) && Ordered(role, middle, b, after)
    ensures Ordered(role, held, a + b, after)
    decreases |a|
  {
    hide Fits, Behind;
    if a == [] {
      assert a + b == b;
    } else {
      assert (a + b)[1..] == a[1..] + b;
      Compose(role, Behind(held, a[0]), a[1..], middle, b, after);
    }
  }

  lemma OneOrdered(role: Role, held: set<Lock>, act: Act)
    requires Fits(role, held, act)
    ensures Ordered(role, held, [act], Behind(held, act))
  {
    assert [act][1..] == [];
  }

  lemma SectionOrdered(role: Role, held: set<Lock>, l: Lock, inner: seq<Act>)
    requires Above(l, held) && Ordered(role, held + {l}, inner, held + {l})
    ensures Ordered(role, held, Section(l, inner), held)
  {
    OneOrdered(role, held + {l}, Release(l));
    assert (held + {l}) - {l} == held;
    Compose(role, held + {l}, inner, held + {l}, [Release(l)], held);
    assert Section(l, inner)[1..] == inner + [Release(l)];
  }

  /** A section that does nothing but the one thing its lock is for. */
  lemma UseOrdered(role: Role, held: set<Lock>, l: Lock, act: Act)
    requires Above(l, held) && Fits(role, held + {l}, act) && Behind(held + {l}, act) == held + {l}
    ensures Ordered(role, held, Section(l, [act]), held)
  {
    OneOrdered(role, held + {l}, act);
    SectionOrdered(role, held, l, [act]);
  }

  lemma TaskOrdered(role: Role, held: set<Lock>, appender: nat, hasBlock: bool)
    requires Above(BufferMutex(appender), held)
    ensures Ordered(role, held, Task(appender, hasBlock), held)
  {
    UseOrdered(role, held, BufferMutex(appender), UseBuffer(appender));
    UseOrdered(role, held, FileMutex(appender), UseFile(appender));
    hide Section;
    Compose(role, held, Section(BufferMutex(appender), [UseBuffer(appender)]), held,
            if hasBlock then FileSection(appender) else [], held);
  }

  lemma WaitOrdered(role: Role, condition: nat)
    ensures Ordered(role, {}, Wait(condition), {})
  {
    var s := Section(ConditionMutex(condition), []);
    SectionOrdered(role, {}, ConditionMutex(condition), []);
    OneOrdered(role, {}, TimedWait(condition));
    Compose(role, {}, s, {}, [TimedWait(condition)], {});
    Compose(role, {}, s + [TimedWait(condition)], {}, s, {});
  }

  lemma {:induction false} ThreadsOrdered(role: Role, held: set<Lock>, threads: seq<nat>)
    requires forall h :: h in held ==> Rank(h) < 3
    ensures Ordered(role, held, ThreadSections(threads), held)
    decreases |threads|
  {
    if threads != [] {
      UseOrdered(role, held, ThreadLock(threads[0]), UseThread(threads[0]));
      ThreadsOrdered(role, held, threads[1..]);
      Compose(role, held, ThreadSection(threads[0]), held, ThreadSections(threads[1..]), held);
    }
  }

  lemma {:induction false} VisitsOrdered(registry: seq<nat>)
    ensures Ordered(Shared, {Registry}, Visits(registry), {Registry})
    decreases |registry|
  {
    if registry != [] {
      assert Visits(registry)[1..] == Visits(registry[1..]);
      VisitsOrdered(registry[1..]);
    }
  }

  lemma RoundOrdered(registry: seq<nat>)
    ensures Ordered(Shared, {Registry}, Visits(registry) + [Release(Registry)] + Wait(SHARED_CONDITION) + [Acquire(Registry), SharedTest], {})
  {
    VisitsOrdered(registry);
    OneOrdered(Shared, {Registry}, Release(Registry));
    assert {Registry} - {Registry} == {};
    WaitOrdered(Shared, SHARED_CONDITION);
    HeadOrdered();
    Compose(Shared, {Registry}, Visits(registry), {Registry}, [Release(Registry)], {});
    Compose(Shared, {Registry}, Visits(registry) + [Release(Registry)], {}, Wait(SHARED_CONDITION), {});
    Compose(Shared, {Registry}, Visits(registry) + [Release(Registry)] + Wait(SHARED_CONDITION), {}, [Acquire(Registry), SharedTest], {});
  }

  lemma HeadOrdered()
    ensures Ordered(Shared, {}, [Acquire(Registry), SharedTest], {})
  {
    assert {} + {Registry} == {Registry};
    OneOrdered(Shared, {Registry}, SharedTest);
    assert [Acquire(Registry), SharedTest][1..] == [SharedTest];
  }

  /** Whatever a test decides keeps the order. */
  lemma ExpandOrdered(role: Role, held: set<Lock>, act: Act, m: Memory, hasBlock: bool)
    requires Fits(role, held, act)
    ensures Ordered(role, After(held, act), Expand(act, m, hasBlock), Behind(held, act))
  {
    hide Task, Wait, Visits;
    match act {
      case PrivateHead(p) =>
        TaskOrdered(role, {}, p.appender, hasBlock);
        OneOrdered(role, {}, PrivateTest(p));
        Compose(role, {}, Task(p.appender, hasBlock), {}, [PrivateTest(p)], {});
      case PrivateTest(p) =>
        WaitOrdered(role, p.condition);
        OneOrdered(role, {}, PrivateHead(p));
        Compose(role, {}, Wait(p.condition), {}, [PrivateHead(p)], {});
      case SharedTest =>
        RoundOrdered(m.registry);
        OneOrdered(role, {Registry}, Release(Registry));
        assert {Registry} - {Registry} == {};
      case Visit(appender) => TaskOrdered(role, held, appender, hasBlock);
      case _ =>
    }
  }

  lemma CloseOrdered(appender: nat, threads: seq<nat>, thread: nat, worker: Joined, shared: bool, hasBlock: bool)
    ensures Ordered(Caller, {}, CloseActs(appender, threads, thread, worker, shared, hasBlock), {})
  {
    hide Section, Task, ThreadSections;
    var flag, own := [RaiseClose(appender)], ThreadSections(threads);
    var join := match worker
      case Nobody => []
      case Ended => ThreadSection(thread)
      case Running => ThreadSection(thread) + [Join(thread)];
    var task := if shared then Task(appender, hasBlock) else [];
    var wipe, file := Section(BufferMutex(appender), [Detach(appender)]), FileSection(appender);
    OneOrdered(Caller, {}, RaiseClose(appender));
    ThreadsOrdered(Caller, {}, threads);
    UseOrdered(Caller, {}, ThreadLock(thread), UseThread(thread));
    OneOrdered(Caller, {}, Join(thread));
    Compose(Caller, {}, ThreadSection(thread), {}, [Join(thread)], {});
    TaskOrdered(Caller, {}, appender, hasBlock);
    UseOrdered(Caller, {}, BufferMutex(appender), Detach(appender));
    UseOrdered(Caller, {}, FileMutex(appender), UseFile(appender));
    Compose(Caller, {}, flag, {}, own, {});
    Compose(Caller, {}, flag + own, {}, join, {});
    Compose(Caller, {}, flag + own + join, {}, task, {});
    Compose(Caller, {}, flag + own + join + task, {}, wipe, {});
    Compose(Caller, {}, flag + own + join + task + wipe, {}, file, {});
  }

  lemma OpenOrdered(appender: nat, threads: seq<nat>, hasBlock: bool)
    ensures Ordered(Caller, {}, Program(Open(appender, threads, hasBlock)), {})
  {
    hide Section, ThreadSections;
    var file := {} + {FileMutex(appender)};
    var inner := [LowerClose(appender)] + ThreadSections(threads);
    OneOrdered(Caller, {}, Attach(appender));
    OneOrdered(Caller, file, LowerClose(appender));
    ThreadsOrdered(Caller, file, threads);
    Compose(Caller, file, [LowerClose(appender)], file, ThreadSections(threads), file);
    SectionOrdered(Caller, {}, FileMutex(appender), inner);
    UseOrdered(Caller, {}, FileMutex(appender), UseFile(appender));
    Compose(Caller, {}, [Attach(appender)], {}, Section(FileMutex(appender), inner), {});
    Compose(Caller, {}, [Attach(appender)] + Section(FileMutex(appender), inner), {},
            if hasBlock then FileSection(appender) else [], {});
  }

  /** Every call of the source, on every branch, takes its locks in increasing rank and joins or waits
      holding none. */
  lemma ProgramsAreOrdered(call: Call)
    ensures Ordered(Caller, {}, Program(call), {})
  {
    hide Section, Task, CloseActs, ThreadSections;
    match call {
      case Create(appender, threads, shared) =>
        ThreadsOrdered(Caller, {}, threads);
        UseOrdered(Caller, {}, Registry, Enlist(appender));
        Compose(Caller, {}, ThreadSections(threads), {}, if shared then Section(Registry, [Enlist(appender)]) else [], {});
      case Open(appender, threads, hasBlock) => OpenOrdered(appender, threads, hasBlock);
      case Append(appender, threads) =>
        var held := {} + {BufferMutex(appender)};
        ThreadsOrdered(Caller, held, threads);
        OneOrdered(Caller, held, UseBuffer(appender));
        Compose(Caller, held, [UseBuffer(appender)], held, ThreadSections(threads), held);
        SectionOrdered(Caller, {}, BufferMutex(appender), [UseBuffer(appender)] + ThreadSections(threads));
      case AppendSync(appender) => UseOrdered(Caller, {}, FileMutex(appender), UseFile(appender));
      case SetMode(threads) => ThreadsOrdered(Caller, {}, threads);
      case FlushSync(appender, hasBlock) => TaskOrdered(Caller, {}, appender, hasBlock);
      case Close(appender, threads, thread, worker, shared, hasBlock) =>
        CloseOrdered(appender, threads, thread, worker, shared, hasBlock);
      case Destroy(appender, wasOpen, threads, thread, worker, shared, hasBlock) =>
        CloseOrdered(appender, threads, thread, worker, shared, hasBlock);
        ThreadsOrdered(Caller, {}, threads);
        UseOrdered(Caller, {}, ThreadLock(thread), UseThread(thread));
        UseOrdered(Caller, {}, Registry, Delist(appender));
        var close := if wasOpen then CloseActs(appender, threads, thread, worker, shared, hasBlock)
                     else ThreadSections(threads);
        var delete := if shared then [] else ThreadSection(thread);
        Compose(Caller, {}, close, {}, delete, {});
        Compose(Caller, {}, close + delete, {}, Section(Registry, [Delist(appender)]), {});
    }
  }

  lemma RoutinesAreOrdered(role: Role)
    ensures Ordered(role, {}, Routine(role), {})
  {
    hide Section;
    match role {
      case Caller =>
      case Shared =>
        var ends, head := ThreadSection(SHARED_THREAD), [Acquire(Registry), SharedTest];
        UseOrdered(role, {}, ThreadLock(SHARED_THREAD), UseThread(SHARED_THREAD));
        HeadOrdered();
        Compose(role, {}, ends, {}, head, {});
        Compose(role, {}, ends + head, {}, ends, {});
      case Own(p) =>
        var ends := ThreadSection(p.thread);
        UseOrdered(role, {}, ThreadLock(p.thread), UseThread(p.thread));
        OneOrdered(role, {}, PrivateHead(p));
        Compose(role, {}, ends, {}, [PrivateHead(p)], {});
        Compose(role, {}, ends + [PrivateHead(p)], {}, ends, {});
    }
  }
}
