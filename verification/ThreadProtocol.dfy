/** The life of a Thread of comm/mtaf_thread.h as a step machine. Each critical section is one
    step; a cancel is three, because the routines read the two flags it sets without the lock.
    Any number of joiners, signal senders and cancellers interleave with the OS threads. */
module ThreadProtocol {
  import opened Bytes
  import opened ThreadControl

  datatype Kind = RunOnce | RunAfter | RunPeriodic

  /** Where an OS thread is in its routine. */
  datatype Pc =
    | Created                                        // before init
    | Signalling                                     // init has unlocked, about to deliver killsig
    | Check1                                         // first test of the cancel flag
    | BeforeCas | BeforeBlock | Blocked | AfterWait  // inside condtime.wait
    | Check2                                         // the test after the wait, or the loop test
    | Ready | Running | AfterRun                     // around target->run
    | Exiting                                        // before cleanup
    | Done

  datatype Os = Os(kind: Kind, pc: Pc, op: nat, detached: bool, joined: bool, calls: nat)

  /** A joiner between its unlock and its read of tid, or inside pthread_join. */
  datatype Join = Pending | Waiting(tid: nat)

  /** Who holds the spinlock between steps: nobody, or a canceller after its first or second store. */
  datatype Lock = Free | Flagged | Posted

  /** A sender between its unlock and its pthread_kill; accepted is the thread it was let through for. */
  datatype Sender = Sender(sig: int, accepted: nat)

  /** A signal sent: to whom, whether behind its init, and for whom it had been accepted. */
  datatype Signal = Signal(tid: nat, sig: int, initialised: bool, accepted: nat)

  datatype State = State(
    c: Ctl, handle: bool, lock: Lock,
    os: map<nat, Os>, next: nat,
    joiners: map<nat, Join>, killers: map<nat, Sender>,
    sent: seq<Signal>, deletions: nat)

  datatype Event =
    | Start(kind: StartKind, ok: bool)
    | CancelFlag | CancelPost | CancelBroadcast
    | JoinEnter(j: nat) | JoinCall(j: nat) | JoinReturn(j: nat)
    | Kill(k: nat, sig: int) | KillSend(k: nat)
    | DestroyHandle
    | Go(t: nat)

  function Initial(target: Option<nat>): State {
    State(ThreadControl.Created(target), true, Free, map[], 1, map[], map[], [], 0)
  }

  // ---- steps

  predicate Enabled(s: State, e: Event) {
    match e
    case Start(kind, _) => s.handle && s.lock.Free? && (kind.Replacing? || s.c.target.Some?)
    case CancelFlag => s.handle && s.lock.Free?
    case CancelPost => s.lock.Flagged?
    case CancelBroadcast => s.lock.Posted?
    case JoinEnter(j) => s.handle && s.lock.Free? && j !in s.joiners && !s.c.isjoined
    case JoinCall(j) => j in s.joiners && s.joiners[j].Pending?
    case JoinReturn(j) =>
      && j in s.joiners && s.joiners[j].Waiting?
      && s.joiners[j].tid in s.os && s.os[s.joiners[j].tid].pc.Done?
    case Kill(k, _) => s.handle && s.lock.Free? && k !in s.killers
    case KillSend(k) => k in s.killers && s.c.tid in s.os
    case DestroyHandle => s.handle && s.lock.Free? && s.joiners == map[] && s.killers == map[]
    case Go(t) =>
      && t in s.os && !s.os[t].pc.Done?
      && (s.os[t].pc.Created? || s.os[t].pc.Exiting? ==> s.lock.Free?)
  }

  function KindOf(kind: StartKind): Kind {
    match kind
    case Plain => RunOnce
    case Replacing(_) => RunOnce
    case After => RunAfter
    case Periodic => RunPeriodic
  }

  predicate Creates(s: State, e: Event) { e.Start? && s.c.isended && e.ok }

  function StartStep(s: State, kind: StartKind, ok: bool): State {
    var c := Started(s.c, kind, ok, s.next);
    if Creates(s, Start(kind, ok)) then
      var op := if c.target.Some? then c.target.value else 0;
      s.(c := c, os := s.os[s.next := Os(KindOf(kind), Pc.Created, op, false, false, 0)], next := s.next + 1)
    else s.(c := c)
  }

  function BroadcastStep(s: State): State {
    s.(lock := Free,
       os := map t | t in s.os :: if s.os[t].pc.Blocked? then s.os[t].(pc := AfterWait) else s.os[t])
  }

  function KillStep(s: State, k: nat, sig: int): State {
    if KillAnswer(s.c) == SendNow then s.(killers := s.killers[k := Sender(sig, s.c.tid)]) else s.(c := Killed(s.c, sig))
  }

  /** The last reference frees the block; deletions counts how often that happened. */
  function DropRef(s: State, c: Ctl): State {
    s.(c := c, deletions := s.deletions + if c.deleted then 1 else 0)
  }

  function FirstPc(kind: Kind): Pc { if kind.RunOnce? then Ready else Check1 }

  datatype Move = Move(pc: Pc, sticky: bool, calls: nat)

  /** One step of a routine between init and cleanup, from what it reads without the lock. */
  function Advance(o: Os, cancelled: bool, sticky: bool): Move {
    match o.pc
    case Signalling => Move(FirstPc(o.kind), sticky, o.calls)
    case Check1 => Move(if cancelled then Exiting else BeforeCas, sticky, o.calls)
    case BeforeCas => Move(if sticky then AfterWait else BeforeBlock, false, o.calls)
    case BeforeBlock => Move(Blocked, sticky, o.calls)
    case Blocked => Move(AfterWait, sticky, o.calls)  // timeout or spurious wakeup
    case AfterWait => Move(Check2, false, o.calls)
    case Check2 => Move(if cancelled then Exiting else Ready, sticky, o.calls)
    case Ready => Move(Running, sticky, o.calls + 1)
    case Running => Move(if o.kind.RunPeriodic? then AfterRun else Exiting, sticky, o.calls)
    case AfterRun => Move(if cancelled then Check2 else BeforeCas, sticky, o.calls)
    case _ => Move(o.pc, sticky, o.calls)
  }

  function GoStep(s: State, t: nat): State
    requires t in s.os
  {
    var o := s.os[t];
    if o.pc.Created? then
      s.(c := InThread(s.c),
         os := s.os[t := o.(pc := if Deliverable(s.c.killsig) then Signalling else FirstPc(o.kind))])
    else if o.pc.Exiting? then
      DropRef(s.(os := s.os[t := o.(pc := Done, detached := !s.c.isjoined)]), CleanedUp(s.c))
    else
      var m := Advance(o, s.c.cancelled, s.c.sticky);
      s.(c := s.c.(sticky := m.sticky),
         os := s.os[t := o.(pc := m.pc, calls := m.calls)],
         sent := if o.pc.Signalling? then s.sent + [Signal(t, s.c.killsig, true, t)] else s.sent)
  }

  function Step(s: State, e: Event): State
    requires Enabled(s, e)
  {
    match e
    case Start(kind, ok) => StartStep(s, kind, ok)
    case CancelFlag => s.(c := CancelFlagged(s.c), lock := if s.c.isended then Free else Flagged)
    case CancelPost => s.(c := CancelPosted(s.c), lock := Posted)
    case CancelBroadcast => BroadcastStep(s)
    case JoinEnter(j) => if s.c.isended then s else s.(c := JoinEntered(s.c), joiners := s.joiners[j := Pending])
    case JoinCall(j) => s.(joiners := s.joiners[j := Waiting(s.c.tid)])
    case JoinReturn(j) =>
      var t := s.joiners[j].tid;
      s.(joiners := s.joiners - {j}, os := s.os[t := s.os[t].(joined := true)])
    case Kill(k, sig) => KillStep(s, k, sig)
    case KillSend(k) =>
      s.(killers := s.killers - {k},
         sent := s.sent + [Signal(s.c.tid, s.killers[k].sig, !s.os[s.c.tid].pc.Created?, s.killers[k].accepted)])
    case DestroyHandle => DropRef(s.(handle := false), RemovedRef(s.c))
    case Go(t) => GoStep(s, t)
  }

  // ---- what every interleaving keeps

  /** Thread t is between its creation and its cleanup. */
  predicate Outstanding(s: State, t: nat) { t in s.os && !s.os[t].pc.Done? }

  predicate OneRoutine(s: State) {
    && (s.c.isended <==> !Outstanding(s, s.c.tid))
    && (forall t :: t in s.os && Outstanding(s, t) ==> t == s.c.tid)
    && (forall t :: t in s.os ==> 0 < t < s.next) && s.next > 0
  }

  predicate Flags(s: State) {
    && (s.c.inthread <==> Outstanding(s, s.c.tid) && !s.os[s.c.tid].pc.Created?)
    && (s.c.isended ==> s.c.killsig == 0 && !s.c.isjoined)
    && (!s.lock.Free? ==> s.handle && !s.c.isended && s.c.cancelled)
    && (Outstanding(s, s.c.tid) ==>
          && s.c.target == Some(s.os[s.c.tid].op)
          && (s.os[s.c.tid].pc.Signalling? ==> Deliverable(s.c.killsig)))
  }

  predicate References(s: State) {
    && s.c.count == (if s.handle then 1 else 0) + (if Outstanding(s, s.c.tid) then 1 else 0)
    && (s.c.deleted <==> s.c.count == 0)
    && s.deletions == (if s.c.deleted then 1 else 0)
    && (s.joiners != map[] || s.killers != map[] ==> s.handle)
    && (s.killers != map[] ==> s.c.tid in s.os)
  }

  predicate Inv(s: State) { OneRoutine(s) && Flags(s) && References(s) }

  lemma StepKeeps(s: State, e: Event)
    requires Inv(s) && Enabled(s, e)
    ensures Inv(Step(s, e))
  {
    match e
    case Start(kind, ok) => StartKeeps(s, kind, ok);
    case Go(t) => GoKeeps(s, t);
    case CancelBroadcast =>
    case _ =>
  }

  lemma StartKeeps(s: State, kind: StartKind, ok: bool)
    requires Inv(s) && Enabled(s, Start(kind, ok))
    ensures Inv(StartStep(s, kind, ok))
  {
  }

  lemma GoKeeps(s: State, t: nat)
    requires Inv(s) && Enabled(s, Go(t))
    ensures Inv(GoStep(s, t))
  {
    hide Flags, References, GoStep;
    assert t == s.c.tid && Outstanding(s, t);
    if s.os[t].pc.Created? {
      InitKeeps(s, t);
    } else if s.os[t].pc.Exiting? {
      CleanupKeeps(s, t);
    } else {
      MoveShape(s, t);
      MoveKeeps(s, t, GoStep(s, t));
    }
  }

  predicate Moves(s: State, t: nat, u: State)
    requires t in s.os
  {
    && t in u.os && u.os == s.os[t := u.os[t]] && u.os[t].op == s.os[t].op
    && !u.os[t].pc.Created? && !u.os[t].pc.Signalling? && !u.os[t].pc.Done?
    && u.c == s.c.(sticky := u.c.sticky)
    && u == s.(c := u.c, os := u.os, sent := u.sent)
  }

  lemma AdvanceStaysInside(o: Os, cancelled: bool, sticky: bool)
    requires !o.pc.Created? && !o.pc.Exiting? && !o.pc.Done?
    ensures var pc := Advance(o, cancelled, sticky).pc; !pc.Created? && !pc.Signalling? && !pc.Done?
  {
  }

  lemma MoveShape(s: State, t: nat)
    requires t in s.os && !s.os[t].pc.Created? && !s.os[t].pc.Exiting? && !s.os[t].pc.Done?
    ensures Moves(s, t, GoStep(s, t))
  {
    hide Advance;
    AdvanceStaysInside(s.os[t], s.c.cancelled, s.c.sticky);
  }

  lemma InitKeeps(s: State, t: nat)
    requires Inv(s) && Outstanding(s, t) && s.os[t].pc.Created? && s.lock.Free?
    ensures Inv(GoStep(s, t))
  {
  }

  lemma CleanupKeeps(s: State, t: nat)
    requires Inv(s) && Outstanding(s, t) && s.os[t].pc.Exiting? && s.lock.Free?
    ensures Inv(GoStep(s, t))
  {
  }

  /** Steps inside the routine change its position and perhaps the sticky flag, nothing else. */
  lemma MoveKeeps(s: State, t: nat, u: State)
    requires Inv(s) && Outstanding(s, t) && !s.os[t].pc.Created?
    requires Moves(s, t, u)
    ensures Inv(u)
  {
  }

  predicate Runs(s: State, es: seq<Event>, u: State)
    decreases |es|
  {
    if es == [] then s == u
    else Enabled(s, es[0]) && Runs(Step(s, es[0]), es[1..], u)
  }

  lemma {:induction false} RunKeeps(s: State, es: seq<Event>, u: State)
    requires Inv(s) && Runs(s, es, u)
    ensures Inv(u)
    decreases |es|
  {
    if es != [] {
      StepKeeps(s, es[0]);
      RunKeeps(Step(s, es[0]), es[1..], u);
    }
  }

  lemma RunsOne(s: State, e: Event)
    requires Enabled(s, e)
    ensures Runs(s, [e], Step(s, e))
  {
    hide Step, Enabled;
    assert [e][1..] == [];
  }

  lemma {:induction false} RunsJoin(s: State, a: seq<Event>, m: State, b: seq<Event>, u: State)
    requires Runs(s, a, m) && Runs(m, b, u)
    ensures Runs(s, a + b, u)
    decreases |a|
  {
    hide Step, Enabled;
    if a == [] {
      assert a + b == b;
    } else {
      assert (a + b)[1..] == a[1..] + b;
      RunsJoin(Step(s, a[0]), a[1..], m, b, u);
    }
  }

  lemma RunsSnoc(s: State, a: seq<Event>, m: State, e: Event)
    requires Runs(s, a, m) && Enabled(m, e)
    ensures Runs(s, a + [e], Step(m, e))
  {
    RunsOne(m, e);
    hide Runs, Step, Enabled;
    RunsJoin(s, a, m, [e], Step(m, e));
  }
}
