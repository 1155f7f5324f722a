/** Delayed and periodic starts: what a cancel achieves, and what the sticky notification is for. */
module ThreadCancel {
  import opened Bytes
  import opened ThreadControl
  import opened ThreadProtocol

  predicate Cancellable(s: State, t: nat) {
    t in s.os && !s.os[t].kind.RunOnce?
  }

  /** The cancel flag is up for t, or t is past caring. */
  predicate CancelledOrDone(s: State, t: nat) {
    Cancellable(s, t) && (Outstanding(s, t) ==> s.c.cancelled)
  }

  /** A cancel is never erased while the routine it was meant for is outstanding. */
  lemma CancelIsNotErased(s: State, t: nat, e: Event)
    requires Inv(s) && Enabled(s, e) && CancelledOrDone(s, t)
    ensures CancelledOrDone(Step(s, e), t)
  {
    hide Advance;
  }

  function NextPc(o: Os, c: Ctl): Pc {
    if o.pc.Created? then (if Deliverable(c.killsig) then Signalling else FirstPc(o.kind))
    else if o.pc.Exiting? then Done
    else Advance(o, c.cancelled, c.sticky).pc
  }

  lemma OwnStep(s: State, t: nat)
    requires Outstanding(s, t)
    ensures var u := GoStep(s, t);
            && t in u.os && u.os[t].kind == s.os[t].kind && u.os[t].pc == NextPc(s.os[t], s.c)
            && u.os[t].calls == s.os[t].calls + (if s.os[t].pc.Ready? then 1 else 0)
  {
    AdvanceCalls(s.os[t], s.c.cancelled, s.c.sticky);
    hide Advance;
    if s.os[t].pc.Created? {
    } else if s.os[t].pc.Exiting? {
    } else {
    }
  }

  lemma AdvanceCalls(o: Os, cancelled: bool, sticky: bool)
    ensures Advance(o, cancelled, sticky).calls == o.calls + (if o.pc.Ready? then 1 else 0)
  {
  }

  // ---- how many more calls

  /** Calls still due: one if the flag test before target->run has already been passed. */
  function Due(pc: Pc): nat { if pc.Ready? then 1 else 0 }

  lemma CallsStep(s: State, t: nat, e: Event)
    requires Inv(s) && Enabled(s, e) && CancelledOrDone(s, t)
    ensures var u := Step(s, e);
            t in u.os && u.os[t].calls + Due(u.os[t].pc) <= s.os[t].calls + Due(s.os[t].pc)
            && s.os[t].calls <= u.os[t].calls
  {
    if e.Go? && e.t == t {
      CallsOwnStep(s, t);
    } else {
      OthersLeaveRoutine(s, t, e);
    }
  }

  lemma CallsOwnStep(s: State, t: nat)
    requires Outstanding(s, t) && CancelledOrDone(s, t)
    ensures var u := GoStep(s, t);
            t in u.os && u.os[t].calls + Due(u.os[t].pc) <= s.os[t].calls + Due(s.os[t].pc)
            && s.os[t].calls <= u.os[t].calls
  {
    OwnStep(s, t);
    hide GoStep;
  }

  /** What the steps of everybody else do to a routine: at most wake it. */
  lemma OthersLeaveRoutine(s: State, t: nat, e: Event)
    requires Inv(s) && Enabled(s, e) && t in s.os && e != Go(t)
    ensures var u := Step(s, e);
            && t in u.os && u.os[t].calls == s.os[t].calls && u.os[t].kind == s.os[t].kind
            && (u.os[t].pc == s.os[t].pc || (s.os[t].pc.Blocked? && u.os[t].pc.AfterWait?))
  {
    hide Advance;
  }

  /** From the moment the flag is up a delayed or periodic routine begins at most one more call, and
      none unless it has already passed the test in front of the call. */
  lemma {:induction false} AtMostOneMoreCall(s: State, t: nat, es: seq<Event>, u: State)
    requires Inv(s) && CancelledOrDone(s, t) && Runs(s, es, u)
    ensures t in u.os && s.os[t].calls <= u.os[t].calls <= s.os[t].calls + Due(s.os[t].pc)
    ensures u.os[t].calls + Due(u.os[t].pc) <= s.os[t].calls + Due(s.os[t].pc)
    ensures Inv(u) && CancelledOrDone(u, t)
    decreases |es|
  {
    if es != [] {
      StepKeeps(s, es[0]);
      CancelIsNotErased(s, t, es[0]);
      CallsStep(s, t, es[0]);
      AtMostOneMoreCall(Step(s, es[0]), t, es[1..], u);
    }
  }

  // ---- without a cancel

  /** Where t stands tells how often it has called its target, as long as nobody cancels it. */
  predicate Undisturbed(s: State, t: nat) {
    && t in s.os && s.os[t].kind.RunAfter?
    && (Outstanding(s, t) ==> !s.c.cancelled && s.lock.Free?)
    && s.os[t].calls == CallsBy(s.os[t].pc)
  }

  function CallsBy(pc: Pc): nat { if pc.Running? || pc.Exiting? || pc.Done? then 1 else 0 }

  /** start_after wipes out whatever an earlier cancel left behind. */
  lemma FreshStartIsUndisturbed(s: State, ok: bool)
    requires Inv(s) && Enabled(s, Start(After, ok)) && Creates(s, Start(After, ok))
    ensures var u := Step(s, Start(After, ok));
            Undisturbed(u, s.next) && Outstanding(u, s.next) && !u.c.sticky
  {
  }

  lemma UndisturbedStep(s: State, t: nat, e: Event)
    requires Inv(s) && Enabled(s, e) && Undisturbed(s, t) && e != CancelFlag
    ensures Undisturbed(Step(s, e), t)
  {
    if e == Go(t) {
      OwnStep(s, t);
    } else {
      OthersLeaveRoutine(s, t, e);
    }
    hide Advance;
  }

  /** A delayed routine that nobody cancels calls its target exactly once before it ends. */
  lemma {:induction false} UncancelledCallsOnce(s: State, t: nat, es: seq<Event>, u: State)
    requires Inv(s) && Undisturbed(s, t) && Runs(s, es, u) && CancelFlag !in es
    ensures Undisturbed(u, t) && (u.os[t].pc.Done? ==> u.os[t].calls == 1)
    decreases |es|
  {
    if es != [] {
      StepKeeps(s, es[0]);
      UndisturbedStep(s, t, es[0]);
      UncancelledCallsOnce(Step(s, es[0]), t, es[1..], u);
    }
  }

  // ---- and then it ends

  /** Steps a cancelled routine still has in front of it, at most. */
  function Rank(pc: Pc): nat {
    match pc
    case Created => 12
    case Signalling => 11
    case Check1 => 10
    case BeforeCas => 9
    case BeforeBlock => 8
    case Blocked => 7
    case AfterWait => 6
    case Ready => 5
    case Running => 4
    case AfterRun => 3
    case Check2 => 2
    case Exiting => 1
    case Done => 0
  }

  function OwnSteps(es: seq<Event>, t: nat): nat {
    if es == [] then 0 else (if es[0] == Go(t) then 1 else 0) + OwnSteps(es[1..], t)
  }

  /** Where a cancelled routine may stand: past a wait that has returned it must meet a flag test. */
  lemma RankOwnStep(s: State, t: nat)
    requires Outstanding(s, t) && CancelledOrDone(s, t)
    ensures t in GoStep(s, t).os && Rank(GoStep(s, t).os[t].pc) < Rank(s.os[t].pc)
  {
    OwnStep(s, t);
    hide GoStep;
  }

  lemma RankStep(s: State, t: nat, e: Event)
    requires Inv(s) && Enabled(s, e) && CancelledOrDone(s, t)
    ensures var u := Step(s, e);
            t in u.os && Rank(u.os[t].pc) + (if e == Go(t) then 1 else 0) <= Rank(s.os[t].pc)
  {
    if e == Go(t) {
      RankOwnStep(s, t);
    } else {
      OthersLeaveRoutine(s, t, e);
      hide Step;
    }
  }

  /** A cancelled routine is done after at most 12 steps of its own, whatever else happens and even if
      the wakeup was missed. */
  lemma {:induction false} CancelledRoutineEnds(s: State, t: nat, es: seq<Event>, u: State)
    requires Inv(s) && CancelledOrDone(s, t) && Runs(s, es, u)
    ensures t in u.os && Rank(u.os[t].pc) + OwnSteps(es, t) <= Rank(s.os[t].pc)
    ensures OwnSteps(es, t) >= 12 ==> !Outstanding(u, t)
    decreases |es|
  {
    if es != [] {
      StepKeeps(s, es[0]);
      CancelIsNotErased(s, t, es[0]);
      RankStep(s, t, es[0]);
      hide Step, Inv, CancelledOrDone;
      CancelledRoutineEnds(Step(s, es[0]), t, es[1..], u);
    }
  }

  /** ... and it can always take its next step, or the canceller that holds the spinlock can. */
  lemma NeverStuck(s: State, t: nat) returns (e: Event)
    requires Inv(s) && Outstanding(s, t)
    ensures Enabled(s, e) && (e == Go(t) || e == CancelPost || e == CancelBroadcast)
    ensures e != Go(t) ==> Enabled(s, e) && (Step(s, e).lock.Free? || Enabled(Step(s, e), CancelBroadcast))
  {
    e := if s.lock.Flagged? then CancelPost else if s.lock.Posted? then CancelBroadcast else Go(t);
  }

  // ---- the sticky notification

  /** A wait takes the notification with it, at its compare-and-swap and again at its end. */
  lemma WaitConsumes(s: State, t: nat)
    requires Outstanding(s, t) && (s.os[t].pc.BeforeCas? || s.os[t].pc.AfterWait?)
    ensures !GoStep(s, t).c.sticky
  {
  }

  /** Ahead of the next compare-and-swap, with the notification posted; or beyond all waiting. */
  predicate WillNotBlock(s: State, t: nat) {
    && CancelledOrDone(s, t)
    && match s.os[t].pc
       case BeforeBlock => false
       case Blocked => false
       case BeforeCas => s.c.sticky
       case _ => true
  }

  /** Once the flag is up and the notification posted, a routine that has not yet passed the
      compare-and-swap of its wait never blocks: only its own wait could consume the notification. */
  lemma {:induction false} StickyNotifyPreventsBlocking(s: State, t: nat, es: seq<Event>, u: State)
    requires Inv(s) && WillNotBlock(s, t) && Runs(s, es, u)
    ensures WillNotBlock(u, t)
    decreases |es|
  {
    if es != [] {
      StepKeeps(s, es[0]);
      CancelIsNotErased(s, t, es[0]);
      if es[0] == Go(t) {
        StickyOwnStep(s, t);
      } else {
        OthersLeaveRoutine(s, t, es[0]);
        if Outstanding(s, t) {
          OthersKeepSticky(s, t, es[0]);
        }
      }
      StickyNotifyPreventsBlocking(Step(s, es[0]), t, es[1..], u);
    }
  }

  lemma StickyOwnStep(s: State, t: nat)
    requires Outstanding(s, t) && WillNotBlock(s, t)
    ensures var u := GoStep(s, t);
            t in u.os && !u.os[t].pc.BeforeBlock? && !u.os[t].pc.Blocked? && !u.os[t].pc.BeforeCas?
  {
    OwnStep(s, t);
    hide GoStep;
  }

  lemma OthersKeepSticky(s: State, t: nat, e: Event)
    requires Inv(s) && Enabled(s, e) && Outstanding(s, t) && e != Go(t)
    ensures s.c.sticky ==> Step(s, e).c.sticky
  {
    hide Advance;
    assert t == s.c.tid;
  }

  // ---- when a cancel wakes its routine

  /** A notification posted but not yet broadcast is still there for a routine in front of the
      compare-and-swap. */
  predicate PostedIsSticky(s: State) {
    s.lock.Posted? && Outstanding(s, s.c.tid) && s.os[s.c.tid].pc.BeforeCas? ==> s.c.sticky
  }

  lemma PostedStaysSticky(s: State, e: Event)
    requires Inv(s) && Enabled(s, e) && PostedIsSticky(s)
    ensures PostedIsSticky(Step(s, e))
  {
    match e
    case Go(t) =>
      OwnStep(s, t);
      hide GoStep;
    case Start(_, _) => assert s.lock.Free?;
    case _ =>
  }

  lemma {:induction false} RunPostsSticky(s: State, es: seq<Event>, u: State)
    requires Inv(s) && PostedIsSticky(s) && Runs(s, es, u)
    ensures Inv(u) && PostedIsSticky(u)
    decreases |es|
  {
    if es != [] {
      StepKeeps(s, es[0]);
      PostedStaysSticky(s, es[0]);
      hide Inv, PostedIsSticky;
      RunPostsSticky(Step(s, es[0]), es[1..], u);
    }
  }

  /** The broadcast that ends a cancel leaves its routine safe from blocking unless the routine stands
      between its compare-and-swap and its enqueueing. */
  lemma BroadcastReachesIff(s: State, t: nat)
    requires Inv(s) && PostedIsSticky(s) && s.lock.Posted? && Cancellable(s, t)
    ensures WillNotBlock(Step(s, CancelBroadcast), t) <==> !s.os[t].pc.BeforeBlock?
  {
  }

  /** No run from s ever has t blocked. */
  ghost predicate NeverBlocks(s: State, t: nat) {
    forall es, u :: Runs(s, es, u) ==> !(t in u.os && u.os[t].pc.Blocked?)
  }

  /** In every run: after a cancel its routine never blocks again if and only if the broadcast did not
      fall between the routine's compare-and-swap and its enqueueing. */
  lemma CancelWakesIff(target: Option<nat>, es: seq<Event>, s: State, t: nat)
    requires Runs(Initial(target), es, s) && s.lock.Posted? && Cancellable(s, t)
    ensures NeverBlocks(Step(s, CancelBroadcast), t) <==> !s.os[t].pc.BeforeBlock?
  {
    RunPostsSticky(Initial(target), es, s);
    BroadcastReachesIff(s, t);
    StepKeeps(s, CancelBroadcast);
    var b := Step(s, CancelBroadcast);
    if s.os[t].pc.BeforeBlock? {
      RunsOne(b, Go(t));
      assert Step(b, Go(t)).os[t].pc.Blocked?;
    } else {
      hide Inv;
      forall es, u | Runs(b, es, u) ensures !(t in u.os && u.os[t].pc.Blocked?) {
        StickyNotifyPreventsBlocking(b, t, es, u);
      }
    }
  }

  /** Such a cancel, whether its first store comes before or after the compare-and-swap: the routine
      blocks although cancelled, and only the timeout ends its wait. */
  lemma CancelCanBeMissed(s: State, t: nat, flagFirst: bool) returns (u: State)
    requires Inv(s) && Cancellable(s, t) && Outstanding(s, t)
    requires s.os[t].pc.BeforeCas? && !s.c.sticky && s.handle && s.lock.Free?
    ensures Runs(s, (if flagFirst then [CancelFlag, Go(t)] else [Go(t), CancelFlag]) + [CancelPost, CancelBroadcast, Go(t)], u)
    ensures t in u.os && u.os[t].pc.Blocked? && u.c.cancelled && u.lock.Free?
  {
    var m := FlagAndCas(s, t, flagFirst);
    u := PostAndBlock(m, t);
    RunsJoin(s, if flagFirst then [CancelFlag, Go(t)] else [Go(t), CancelFlag], m, [CancelPost, CancelBroadcast, Go(t)], u);
  }

  lemma FlagAndCas(s: State, t: nat, flagFirst: bool) returns (u: State)
    requires Inv(s) && Cancellable(s, t) && Outstanding(s, t)
    requires s.os[t].pc.BeforeCas? && !s.c.sticky && s.handle && s.lock.Free?
    ensures Runs(s, if flagFirst then [CancelFlag, Go(t)] else [Go(t), CancelFlag], u)
    ensures u.lock.Flagged? && t in u.os && u.os[t].pc.BeforeBlock? && u.c.cancelled && !u.c.isended
  {
    var a, b := if flagFirst then CancelFlag else Go(t), if flagFirst then Go(t) else CancelFlag;
    RunsOne(s, a);
    RunsSnoc(s, [a], Step(s, a), b);
    u := Step(Step(s, a), b);
    assert [a] + [b] == [a, b];
  }

  lemma PostAndBlock(s: State, t: nat) returns (u: State)
    requires s.lock.Flagged? && t in s.os && s.os[t].pc.BeforeBlock? && s.c.cancelled && !s.c.isended
    ensures Runs(s, [CancelPost, CancelBroadcast, Go(t)], u)
    ensures t in u.os && u.os[t].pc.Blocked? && u.c.cancelled && u.lock.Free?
  {
    RunsOne(s, CancelPost);
    var m := Step(s, CancelPost);
    RunsSnoc(s, [CancelPost], m, CancelBroadcast);
    var n := Step(m, CancelBroadcast);
    assert [CancelPost] + [CancelBroadcast] == [CancelPost, CancelBroadcast];
    RunsSnoc(s, [CancelPost, CancelBroadcast], n, Go(t));
    assert [CancelPost, CancelBroadcast] + [Go(t)] == [CancelPost, CancelBroadcast, Go(t)];
    u := Step(n, Go(t));
  }

  /** A new Thread's delayed start does get there: its routine in front of the compare-and-swap, then
      blocked although cancelled. */
  lemma MissedCancelReached(op: nat, flagFirst: bool) returns (es: seq<Event>, u: State)
    ensures Runs(Initial(Some(op)), es, u) && CancelBroadcast in es
    ensures 1 in u.os && u.os[1].pc.Blocked? && u.c.cancelled && u.lock.Free?
  {
    var s0 := Initial(Some(op));
    RunsOne(s0, Start(After, true));
    var s1 := Step(s0, Start(After, true));
    RunsSnoc(s0, [Start(After, true)], s1, Go(1));
    var s2 := Step(s1, Go(1));
    RunsSnoc(s0, [Start(After, true)] + [Go(1)], s2, Go(1));
    var s3 := Step(s2, Go(1));
    var wait := [Start(After, true)] + [Go(1)] + [Go(1)];
    RunKeeps(s0, wait, s3);
    u := CancelCanBeMissed(s3, 1, flagFirst);
    var cancel := (if flagFirst then [CancelFlag, Go(1)] else [Go(1), CancelFlag]) + [CancelPost, CancelBroadcast, Go(1)];
    hide Step, Enabled, Inv;
    es := wait + cancel;
    RunsJoin(s0, wait, s3, cancel, u);
    assert es[|wait| + 3] == CancelBroadcast;
  }
}
