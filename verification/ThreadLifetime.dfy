/** Reference counting, the join/detach handshake and signal delivery over all interleavings. */
module ThreadLifetime {
  import opened Bytes
  import opened ThreadControl
  import opened ThreadProtocol

  // ---- the control block

  /** In every reachable state the count is the handle plus the outstanding routine, and the block has
      been freed exactly once if both are gone, never before. */
  lemma EveryRunCounts(target: Option<nat>, es: seq<Event>, u: State)
    requires Runs(Initial(target), es, u)
    ensures Inv(u)
    ensures u.c.count == (if u.handle then 1 else 0) + (if Outstanding(u, u.c.tid) then 1 else 0)
    ensures u.deletions == if !u.handle && u.c.isended then 1 else 0
    ensures forall t, t' :: Outstanding(u, t) && Outstanding(u, t') ==> t == t'
  {
    RunKeeps(Initial(target), es, u);
  }

  /** The step that frees the block is the handle's destruction with no routine outstanding, or the
      cleanup of a routine whose handle is gone: whichever comes last, with isended set. A failed
      start never frees it. */
  lemma FreedByTheLast(s: State, e: Event)
    requires Inv(s) && Enabled(s, e)
    ensures var u := Step(s, e);
            && s.deletions <= u.deletions <= 1
            && (u.deletions > s.deletions <==>
                  (e.DestroyHandle? && s.c.isended) || (e.Go? && s.os[e.t].pc.Exiting? && !s.handle))
            && (u.deletions > s.deletions ==> u.c.isended && u.c.count == 0)
  {
    StepKeeps(s, e);
  }

  /** No step that looks at the control block is possible once it is freed. */
  lemma NoUseAfterFree(s: State, e: Event)
    requires Inv(s) && Enabled(s, e)
    ensures !s.c.deleted
  {
    match e
    case Go(t) => assert Outstanding(s, t);
    case JoinReturn(j) => assert s.joiners != map[];
    case JoinCall(j) => assert s.joiners != map[];
    case KillSend(k) => assert s.killers != map[];
    case _ =>
  }

  /** While a routine is outstanding every start is a no-op, and no step replaces its target or its
      thread id. */
  lemma StartIsNoOpWhileRunning(s: State, e: Event)
    requires Inv(s) && Enabled(s, e) && !s.c.isended
    ensures e.Start? ==> Step(s, e) == s
    ensures var u := Step(s, e);
            && u.c.target == s.c.target && u.c.tid == s.c.tid && s.c.tid in u.os
            && u.os[s.c.tid].op == s.os[s.c.tid].op && u.os[s.c.tid].kind == s.os[s.c.tid].kind
  {
  }

  /** Cancel, join and kill on a Thread without a routine change nothing. */
  lemma IdleCallsDoNothing(s: State, e: Event)
    requires Inv(s) && Enabled(s, e) && s.c.isended && (e.CancelFlag? || e.JoinEnter? || e.Kill?)
    ensures Step(s, e) == s
  {
  }

  // ---- join and detach

  predicate Claims(s: State, j: nat, t: nat) {
    && j in s.joiners
    && match s.joiners[j] case Pending => s.c.tid == t case Waiting(w) => w == t
  }

  /** What has become of an OS thread whose cleanup has run: detached, joined, or awaited by exactly
      one joiner; and a running one is awaited iff isjoined says so. */
  ghost predicate Reaped(s: State, t: nat)
    requires t in s.os
  {
    var o := s.os[t];
    if o.pc.Done? then
      && !(o.detached && o.joined)
      && ((o.detached || o.joined) <==> !exists j :: Claims(s, j, t))
    else
      && !o.detached && !o.joined
      && (s.c.isjoined <==> exists j :: Claims(s, j, t))
  }

  ghost predicate JoinInv(s: State) {
    && (forall t :: t in s.os ==> Reaped(s, t))
    && (forall j, j', t :: Claims(s, j, t) && Claims(s, j', t) ==> j == j')
    && (forall j, t :: Claims(s, j, t) ==> t in s.os)
  }

  /** A new routine is started while a joiner sits between its unlock and its pthread_join. */
  predicate RestartsUnderJoin(s: State, e: Event) {
    Creates(s, e) && exists j :: j in s.joiners && s.joiners[j].Pending?
  }

  lemma SameClaims(s: State, u: State)
    requires JoinInv(s) && u.joiners == s.joiners && u.c.tid == s.c.tid && u.c.isjoined == s.c.isjoined
    requires u.os.Keys == s.os.Keys
    requires forall t :: t in s.os ==>
               && u.os[t].detached == s.os[t].detached && u.os[t].joined == s.os[t].joined
               && u.os[t].pc.Done? == s.os[t].pc.Done?
    ensures JoinInv(u)
  {
    forall j, t ensures Claims(u, j, t) == Claims(s, j, t) {
    }
    forall t | t in u.os ensures Reaped(u, t) {
      assert Reaped(s, t);
    }
  }

  lemma CleanupReaps(s: State, t: nat)
    requires Inv(s) && JoinInv(s) && Enabled(s, Go(t)) && s.os[t].pc.Exiting?
    ensures JoinInv(GoStep(s, t))
  {
    var u := GoStep(s, t);
    forall j, w ensures Claims(u, j, w) == Claims(s, j, w) {
    }
    forall w | w in u.os ensures Reaped(u, w) {
      assert Reaped(s, w);
      assert Outstanding(s, t);
    }
  }

  lemma GoKeepsJoin(s: State, t: nat)
    requires Inv(s) && JoinInv(s) && Enabled(s, Go(t))
    ensures JoinInv(GoStep(s, t))
  {
    hide JoinInv;
    if s.os[t].pc.Exiting? {
      CleanupReaps(s, t);
    } else {
      GoKeepsOthers(s, t);
      SameClaims(s, GoStep(s, t));
    }
  }

  lemma GoKeepsOthers(s: State, t: nat)
    requires t in s.os && !s.os[t].pc.Exiting? && !s.os[t].pc.Done?
    ensures var u := GoStep(s, t);
            && u.joiners == s.joiners && u.c.tid == s.c.tid && u.c.isjoined == s.c.isjoined && u.os.Keys == s.os.Keys
            && forall w :: w in s.os ==>
                 && u.os[w].detached == s.os[w].detached && u.os[w].joined == s.os[w].joined
                 && u.os[w].pc.Done? == s.os[w].pc.Done?
  {
    hide Advance;
    if !s.os[t].pc.Created? {
      AdvanceStaysInside(s.os[t], s.c.cancelled, s.c.sticky);
    }
  }

  lemma JoinEnterKeeps(s: State, j: nat)
    requires Inv(s) && JoinInv(s) && Enabled(s, JoinEnter(j))
    ensures JoinInv(Step(s, JoinEnter(j)))
  {
    var u := Step(s, JoinEnter(j));
    if !s.c.isended {
      var t := s.c.tid;
      assert Outstanding(s, t) && Reaped(s, t);
      forall i, w ensures Claims(u, i, w) == (Claims(s, i, w) || (i == j && w == t)) {
      }
      assert Claims(u, j, t);
      forall w | w in u.os ensures Reaped(u, w) {
        assert Reaped(s, w);
        assert Outstanding(s, w) ==> w == t;
      }
    }
  }

  lemma JoinCallKeeps(s: State, j: nat)
    requires JoinInv(s) && Enabled(s, JoinCall(j))
    ensures JoinInv(Step(s, JoinCall(j)))
  {
    var u := Step(s, JoinCall(j));
    forall i, w ensures Claims(u, i, w) == Claims(s, i, w) {
    }
    forall w | w in u.os ensures Reaped(u, w) {
      assert Reaped(s, w);
    }
  }

  lemma JoinReturnKeeps(s: State, j: nat)
    requires Inv(s) && JoinInv(s) && Enabled(s, JoinReturn(j))
    ensures JoinInv(Step(s, JoinReturn(j)))
  {
    var u := Step(s, JoinReturn(j));
    var t := s.joiners[j].tid;
    assert Claims(s, j, t) && Reaped(s, t);
    forall i, w ensures Claims(u, i, w) == (Claims(s, i, w) && i != j) {
    }
    forall w | w in u.os ensures Reaped(u, w) {
      assert Reaped(s, w);
    }
  }

  lemma CreateKeeps(s: State, e: Event)
    requires Inv(s) && JoinInv(s) && Enabled(s, e) && Creates(s, e) && !RestartsUnderJoin(s, e)
    ensures JoinInv(Step(s, e))
  {
    var u := Step(s, e);
    forall i, w ensures Claims(u, i, w) == Claims(s, i, w) {
    }
    forall w | w in u.os ensures Reaped(u, w) {
      if w in s.os {
        assert Reaped(s, w);
        assert !Outstanding(s, w);
      } else {
        assert w == s.next;
        assert forall i :: !Claims(s, i, w);
      }
    }
  }

  lemma QuietKeeps(s: State, e: Event)
    requires Inv(s) && JoinInv(s) && Enabled(s, e)
    requires !Creates(s, e) && !e.Go? && !e.JoinEnter? && !e.JoinCall? && !e.JoinReturn?
    ensures JoinInv(Step(s, e))
  {
    hide JoinInv;
    SameClaims(s, Step(s, e));
  }

  /** Exactly one way to break the handshake: a step keeps "every ended thread is detached, joined or
      awaited by one joiner, and never two of these" unless it restarts under a pending join. */
  lemma HandshakeBrokenIff(s: State, e: Event)
    requires Inv(s) && JoinInv(s) && Enabled(s, e)
    ensures JoinInv(Step(s, e)) <==> !RestartsUnderJoin(s, e)
  {
    hide JoinInv, Inv;
    if RestartsUnderJoin(s, e) {
      var j :| j in s.joiners && s.joiners[j].Pending?;
      RestartOrphans(s, e, j);
    } else {
      match e
      case Go(t) => GoKeepsJoin(s, t);
      case JoinEnter(j) => JoinEnterKeeps(s, j);
      case JoinCall(j) => JoinCallKeeps(s, j);
      case JoinReturn(j) => JoinReturnKeeps(s, j);
      case _ => if Creates(s, e) { CreateKeeps(s, e); } else { QuietKeeps(s, e); }
    }
  }

  /** Nobody will ever reap t: it has ended undetached and unjoined, and no joiner has its id. */
  predicate Orphan(s: State, t: nat) {
    && t in s.os && s.os[t].pc.Done? && !s.os[t].detached && !s.os[t].joined
    && t != s.c.tid && forall j :: j in s.joiners ==> s.joiners[j] != Waiting(t)
  }

  lemma RestartOrphans(s: State, e: Event, j: nat)
    requires Inv(s) && JoinInv(s) && Enabled(s, e) && Creates(s, e) && j in s.joiners && s.joiners[j].Pending?
    ensures Orphan(Step(s, e), s.c.tid) && !JoinInv(Step(s, e))
  {
    var t := s.c.tid;
    var u := Step(s, e);
    assert Claims(s, j, t) && Reaped(s, t) && !Outstanding(s, t);
    forall i | i in u.joiners ensures u.joiners[i] != Waiting(t) {
      assert s.joiners[i] == Waiting(t) ==> Claims(s, i, t);
    }
    forall i ensures !Claims(u, i, t) {
    }
    assert !Reaped(u, t);
  }

  lemma {:induction false} OrphanForever(s: State, t: nat, es: seq<Event>, u: State)
    requires Inv(s) && Orphan(s, t) && Runs(s, es, u)
    ensures Orphan(u, t)
    decreases |es|
  {
    if es != [] {
      StepKeeps(s, es[0]);
      OrphanStep(s, t, es[0]);
      OrphanForever(Step(s, es[0]), t, es[1..], u);
    }
  }

  lemma OrphanStep(s: State, t: nat, e: Event)
    requires Inv(s) && Orphan(s, t) && Enabled(s, e)
    ensures Orphan(Step(s, e), t)
  {
  }

  predicate Disciplined(s: State, es: seq<Event>)
    decreases |es|
  {
    es == [] || (Enabled(s, es[0]) && !RestartsUnderJoin(s, es[0]) && Disciplined(Step(s, es[0]), es[1..]))
  }

  /** Over every run, whatever the number of joiners: "each ended OS thread is detached, joined or
      awaited by exactly one joiner, never both detached and joined" holds at its end if and only if
      it had no such restart. */
  lemma {:induction false} DisciplinedRunReaps(s: State, es: seq<Event>, u: State)
    requires Inv(s) && JoinInv(s) && Runs(s, es, u)
    ensures Inv(u) && (JoinInv(u) <==> Disciplined(s, es))
    decreases |es|
  {
    if es != [] {
      var m := Step(s, es[0]);
      StepKeeps(s, es[0]);
      HandshakeBrokenIff(s, es[0]);
      if RestartsUnderJoin(s, es[0]) {
        var j :| j in s.joiners && s.joiners[j].Pending?;
        RestartOrphans(s, es[0], j);
        OrphanForever(m, s.c.tid, es[1..], u);
        OrphanIsUnreaped(u, s.c.tid);
        hide JoinInv, Step, Orphan;
        RunKeeps(m, es[1..], u);
      } else {
        hide JoinInv, Inv, Step, RestartsUnderJoin;
        DisciplinedRunReaps(m, es[1..], u);
      }
    }
  }

  lemma OrphanIsUnreaped(s: State, t: nat)
    requires Orphan(s, t)
    ensures !JoinInv(s)
  {
    forall j ensures !Claims(s, j, t) {
    }
    assert !Reaped(s, t);
  }

  /** Once nobody is joining any more, every ended thread has been reaped one way, not two. */
  lemma AllReapedWhenQuiet(target: Option<nat>, es: seq<Event>, u: State, t: nat)
    requires Runs(Initial(target), es, u) && Disciplined(Initial(target), es)
    requires u.joiners == map[] && t in u.os && u.os[t].pc.Done?
    ensures u.os[t].detached != u.os[t].joined
  {
    DisciplinedRunReaps(Initial(target), es, u);
    assert Reaped(u, t);
    assert forall j :: !Claims(u, j, t);
  }

  // ---- signals

  /** The signal on record after es, if it was sig before. */
  function LastSig(sig: int, es: seq<Event>): int
    decreases |es|
  {
    if es == [] then sig else LastSig(if es[0].Kill? then es[0].sig else sig, es[1..])
  }

  lemma UntilInitStep(s: State, t: nat, e: Event)
    requires Inv(s) && Enabled(s, e) && Outstanding(s, t) && s.os[t].pc.Created? && e != Go(t)
    ensures var u := Step(s, e);
            && Outstanding(u, t) && u.os[t].pc.Created?
            && u.c.killsig == (if e.Kill? then e.sig else s.c.killsig)
            && (s.killers == map[] ==> u.killers == map[] && u.sent == s.sent)
  {
    assert t == s.c.tid;
  }

  /** Over any run before its init a new thread is sent nothing; every signal asked for is recorded
      and the last one stands. */
  lemma {:induction false} SignalsBeforeInit(s: State, t: nat, es: seq<Event>, u: State)
    requires Inv(s) && Outstanding(s, t) && s.os[t].pc.Created? && Runs(s, es, u) && Go(t) !in es
    ensures Inv(u) && Outstanding(u, t) && u.os[t].pc.Created? && u.c.killsig == LastSig(s.c.killsig, es)
    ensures s.killers == map[] ==> u.killers == map[] && u.sent == s.sent
    decreases |es|
  {
    if es != [] {
      StepKeeps(s, es[0]);
      UntilInitStep(s, t, es[0]);
      hide Inv, Step;
      SignalsBeforeInit(Step(s, es[0]), t, es[1..], u);
    }
  }

  /** ... and init delivers it: whatever runs before init and after it, a deliverable last signal has
      been sent to the initialised thread, or the thread is about to send it. */
  lemma EarlySignalIsDelivered(s: State, t: nat, before: seq<Event>, m: State, after: seq<Event>, u: State)
    requires Inv(s) && Outstanding(s, t) && s.os[t].pc.Created? && Runs(s, before, m) && Go(t) !in before
    requires Enabled(m, Go(t)) && Runs(Step(m, Go(t)), after, u)
    ensures var sig := LastSig(s.c.killsig, before);
            if 0 < sig <= 32 then
              Signal(t, sig, true, t) in u.sent || (Outstanding(u, t) && u.os[t].pc.Signalling? && u.c.killsig == sig)
            else !Step(m, Go(t)).os[t].pc.Signalling? && Step(m, Go(t)).sent == m.sent
  {
    SignalsBeforeInit(s, t, before, m);
    StepKeeps(m, Go(t));
    assert t == m.c.tid;
    var i := Step(m, Go(t));
    if 0 < LastSig(s.c.killsig, before) <= 32 {
      assert Outstanding(i, t) && i.os[t].pc.Signalling? && i.c.killsig == m.c.killsig;
      hide Inv, Step;
      RecordedSignalIsDelivered(i, t, after, u);
    }
  }

  /** Between init's unlock and its delivery nothing can change the recorded signal. */
  lemma {:induction false} RecordedSignalIsDelivered(s: State, t: nat, es: seq<Event>, u: State)
    requires Inv(s) && Runs(s, es, u) && Outstanding(s, t) && s.os[t].pc.Signalling?
    ensures Signal(t, s.c.killsig, true, t) in u.sent
            || (Outstanding(u, t) && u.os[t].pc.Signalling? && u.c.killsig == s.c.killsig)
    decreases |es|
  {
    if es != [] {
      StepKeeps(s, es[0]);
      var m := Step(s, es[0]);
      assert t == s.c.tid;
      if es[0] == Go(t) {
        assert m.sent[|m.sent| - 1] == Signal(t, s.c.killsig, true, t);
        SentGrows(m, es[1..], u);
      } else {
        SignallingWaits(s, t, es[0]);
        RecordedSignalIsDelivered(m, t, es[1..], u);
      }
    }
  }

  lemma SignallingWaits(s: State, t: nat, e: Event)
    requires Inv(s) && Enabled(s, e) && Outstanding(s, t) && s.os[t].pc.Signalling? && e != Go(t)
    ensures var m := Step(s, e); Outstanding(m, t) && m.os[t].pc.Signalling? && m.c.killsig == s.c.killsig
  {
    assert t == s.c.tid;
  }

  lemma {:induction false} SentGrows(s: State, es: seq<Event>, u: State)
    requires Runs(s, es, u)
    ensures s.sent <= u.sent
    decreases |es|
  {
    if es != [] {
      SentGrows(Step(s, es[0]), es[1..], u);
    }
  }

  predicate RestartsUnderSender(s: State, e: Event) {
    Creates(s, e) && s.killers != map[]
  }

  /** The thread now named by tid stands in front of its init. */
  predicate AtInit(s: State) { s.c.tid in s.os && s.os[s.c.tid].pc.Created? }

  /** The next step of sender k would signal a thread in front of its init. */
  predicate TooEarly(s: State, k: nat) {
    Enabled(s, KillSend(k)) && AtInit(s)
  }

  /** A signal in front of its receiver's init becomes possible as the next step exactly when a new
      routine is started while a sender is between its unlock and its pthread_kill. */
  lemma TooEarlyPossibleIff(s: State, e: Event)
    requires Inv(s) && Enabled(s, e) && forall k :: !TooEarly(s, k)
    ensures (exists k :: TooEarly(Step(s, e), k)) <==> RestartsUnderSender(s, e)
  {
    var u := Step(s, e);
    if RestartsUnderSender(s, e) {
      var k :| k in s.killers;
      assert TooEarly(u, k);
    } else {
      forall k ensures !TooEarly(u, k) {
        assert TooEarly(s, k) || k !in s.killers || !s.os[s.c.tid].pc.Created?;
        NotTooEarly(s, e, k);
      }
    }
  }

  lemma NotTooEarly(s: State, e: Event, k: nat)
    requires Inv(s) && Enabled(s, e) && !TooEarly(s, k) && !RestartsUnderSender(s, e)
    ensures !TooEarly(Step(s, e), k)
  {
    hide Advance;
    if e.Go? && !s.os[e.t].pc.Created? && !s.os[e.t].pc.Exiting? {
      AdvanceStaysInside(s.os[e.t], s.c.cancelled, s.c.sticky);
    }
    if k in s.killers {
      assert s.c.tid in s.os;
    } else if e.Kill? && KillAnswer(s.c) == SendNow {
      assert Outstanding(s, s.c.tid);
    }
  }

  /** No signal has been sent in front of its receiver's init, and none can be as the next step. */
  predicate KillersSafe(s: State) {
    && (s.killers != map[] ==> s.c.tid in s.os && !AtInit(s))
    && forall i :: 0 <= i < |s.sent| ==> s.sent[i].initialised
  }

  lemma SafeStep(s: State, e: Event)
    requires Inv(s) && Enabled(s, e) && KillersSafe(s) && !RestartsUnderSender(s, e)
    ensures KillersSafe(Step(s, e))
  {
    match e
    case Kill(k, sig) => assert KillAnswer(s.c) == SendNow ==> Outstanding(s, s.c.tid);
    case KillSend(k) => assert s.killers != map[];
    case _ =>
  }

  predicate SendersDisciplined(s: State, es: seq<Event>)
    decreases |es|
  {
    es == [] || (Enabled(s, es[0]) && !RestartsUnderSender(s, es[0]) && SendersDisciplined(Step(s, es[0]), es[1..]))
  }

  /** Over every run without a restart under a pending sender, every signal ever sent reached a thread
      behind its init. */
  lemma {:induction false} SafeRunSignals(s: State, es: seq<Event>, u: State)
    requires Inv(s) && KillersSafe(s) && Runs(s, es, u) && SendersDisciplined(s, es)
    ensures Inv(u) && KillersSafe(u)
    decreases |es|
  {
    if es != [] {
      StepKeeps(s, es[0]);
      SafeStep(s, es[0]);
      hide Inv, KillersSafe, Step;
      SafeRunSignals(Step(s, es[0]), es[1..], u);
    }
  }

  /** No routine is created along es. */
  predicate NoCreation(s: State, es: seq<Event>)
    decreases |es|
  {
    es == [] || (Enabled(s, es[0]) && !Creates(s, es[0]) && NoCreation(Step(s, es[0]), es[1..]))
  }

  /** The last of creations and first steps of the thread created last is a creation; pending stands for
      what went before es. */
  predicate InitPending(s: State, es: seq<Event>, pending: bool)
    decreases |es|
  {
    if es == [] then pending
    else
      && Enabled(s, es[0])
      && InitPending(Step(s, es[0]), es[1..],
                     if Creates(s, es[0]) then true else if es[0] == Go(s.c.tid) then false else pending)
  }

  lemma SenderStep(s: State, e: Event, k: nat)
    requires Inv(s) && Enabled(s, e) && k in s.killers && e != KillSend(k) && s.c.tid < s.next
    ensures var u := Step(s, e);
            && k in u.killers && u.killers[k] == s.killers[k]
            && u.c.tid == (if Creates(s, e) then s.next else s.c.tid) && u.c.tid < u.next && s.next <= u.next
            && (AtInit(u) <==> Creates(s, e) || (AtInit(s) && e != Go(s.c.tid)))
  {
    hide Advance;
    if e.Go? && !s.os[e.t].pc.Created? && !s.os[e.t].pc.Exiting? {
      AdvanceStaysInside(s.os[e.t], s.c.cancelled, s.c.sticky);
    }
    if e.Go? {
      assert Outstanding(s, e.t);
    }
  }

  lemma {:induction false} SenderWaits(s: State, es: seq<Event>, u: State, k: nat)
    requires Inv(s) && k in s.killers && s.c.tid < s.next && Runs(s, es, u) && KillSend(k) !in es
    ensures Inv(u) && k in u.killers && u.killers[k] == s.killers[k]
    ensures s.c.tid <= u.c.tid < u.next && (u.c.tid == s.c.tid <==> NoCreation(s, es))
    ensures AtInit(u) <==> InitPending(s, es, AtInit(s))
    decreases |es|
  {
    if es != [] {
      StepKeeps(s, es[0]);
      SenderStep(s, es[0], k);
      hide Inv, Step, AtInit;
      SenderWaits(Step(s, es[0]), es[1..], u, k);
    }
  }

  lemma TidStep(s: State, e: Event)
    requires Enabled(s, e) && s.c.tid < s.next
    ensures var u := Step(s, e); u.c.tid < u.next
  {
    hide Advance, GoStep;
    match e
    case Go(t) => TidGo(s, t);
    case _ =>
  }

  lemma TidGo(s: State, t: nat)
    requires t in s.os
    ensures GoStep(s, t).c.tid == s.c.tid && GoStep(s, t).next == s.next
  {
    hide Advance;
    if s.os[t].pc.Created? {
    } else if s.os[t].pc.Exiting? {
    } else {
    }
  }

  lemma {:induction false} TidsAreOld(s: State, es: seq<Event>, u: State)
    requires s.c.tid < s.next && Runs(s, es, u)
    ensures u.c.tid < u.next
    decreases |es|
  {
    if es != [] {
      TidStep(s, es[0]);
      hide Step, Enabled;
      TidsAreOld(Step(s, es[0]), es[1..], u);
    }
  }

  /** In every run: a signal let through for a running routine reaches that routine if and only if no
      routine was created between its sender's unlock and its pthread_kill; and it finds its receiver
      behind its init if and only if the last routine created in between, if any, has begun since. */
  lemma SignalReachesIff(target: Option<nat>, before: seq<Event>, s: State, k: nat, sig: int, es: seq<Event>, u: State)
    requires Runs(Initial(target), before, s) && Enabled(s, Kill(k, sig)) && KillAnswer(s.c) == SendNow
    requires Runs(Step(s, Kill(k, sig)), es, u) && KillSend(k) !in es
    ensures Enabled(u, KillSend(k))
    ensures var accepted, signal := Step(s, Kill(k, sig)), Signal(u.c.tid, sig, !AtInit(u), s.c.tid);
            && Step(u, KillSend(k)).sent == u.sent + [signal]
            && (signal.tid == signal.accepted <==> NoCreation(accepted, es))
            && (signal.initialised <==> !InitPending(accepted, es, false))
  {
    RunKeeps(Initial(target), before, s);
    TidsAreOld(Initial(target), before, s);
    StepKeeps(s, Kill(k, sig));
    var m := Step(s, Kill(k, sig));
    assert Outstanding(s, s.c.tid) && !AtInit(m);
    SenderWaits(m, es, u, k);
    assert u.c.tid in u.os;
  }

  /** After a restart under a pending sender its signal can reach the new thread before its init, though
      it was accepted for the old one. */
  lemma RestartSignalsTooEarly(s: State, kind: StartKind, k: nat)
    requires Inv(s) && k in s.killers && s.c.isended && Enabled(s, Start(kind, true))
    ensures var m := Step(s, Start(kind, true));
            Enabled(m, KillSend(k)) && Signal(s.next, s.killers[k].sig, false, s.killers[k].accepted) in Step(m, KillSend(k)).sent
  {
    var m := Step(s, Start(kind, true));
    var v := Step(m, KillSend(k));
    assert v.sent[|v.sent| - 1] == Signal(s.next, s.killers[k].sig, false, s.killers[k].accepted);
  }

  // ---- both restarts do happen

  /** A plain routine runs to its end; whoever was joining or signalling still is. */
  lemma RoutineEnds(s: State) returns (u: State)
    requires Inv(s) && Outstanding(s, s.c.tid) && s.lock.Free? && s.handle
    requires s.os[s.c.tid].pc.Ready? && s.os[s.c.tid].kind.RunOnce?
    ensures Runs(s, [Go(s.c.tid)] + [Go(s.c.tid)] + [Go(s.c.tid)], u)
    ensures Inv(u) && u.c.isended && u.handle && u.lock.Free? && u.c.tid == s.c.tid && u.c.target == s.c.target
    ensures u.joiners == s.joiners && u.killers == s.killers && u.next == s.next
    ensures s.c.tid in u.os && u.os[s.c.tid] == s.os[s.c.tid].(pc := Done, detached := !s.c.isjoined, calls := u.os[s.c.tid].calls)
  {
    var e := Go(s.c.tid);
    var a := Step(s, e);
    var b := Step(a, e);
    u := Step(b, e);
    assert b.os[s.c.tid].pc.Exiting?;
    StepKeeps(s, e);
    StepKeeps(a, e);
    StepKeeps(b, e);
    RunsOne(s, e);
    RunsSnoc(s, [e], a, e);
    RunsSnoc(s, [e] + [e], b, e);
  }

  lemma StartsPlain(op: nat) returns (u: State)
    ensures Runs(Initial(Some(op)), [Start(Plain, true)] + [Go(1)], u) && Inv(u)
    ensures u.handle && u.lock.Free? && u.c.tid == 1 && u.c.target == Some(op) && u.joiners == map[] && u.killers == map[]
    ensures Outstanding(u, 1) && u.os[1].pc.Ready? && u.os[1].kind.RunOnce? && !u.c.isjoined && u.c.inthread
    ensures !u.os[1].joined && u.next == 2
  {
    var s := Initial(Some(op));
    var m := Step(s, Start(Plain, true));
    u := Step(m, Go(1));
    RunsOne(s, Start(Plain, true));
    RunsSnoc(s, [Start(Plain, true)], m, Go(1));
    RunKeeps(s, [Start(Plain, true)] + [Go(1)], u);
  }

  /** From a new Thread: start, a join up to its unlock, the routine's end, a second start. The first
      thread is an orphan. */
  lemma RestartUnderJoinReached(op: nat) returns (es: seq<Event>, u: State)
    ensures Runs(Initial(Some(op)), es, u) && Orphan(u, 1)
  {
    var a := StartsPlain(op);
    var j := Step(a, JoinEnter(0));
    StepKeeps(a, JoinEnter(0));
    RunsOne(a, JoinEnter(0));
    var s := RoutineEnds(j);
    u := Step(s, Start(Plain, true));
    assert s.joiners[0].Pending? && Orphan(u, 1);
    var first, last := [Start(Plain, true)] + [Go(1)], [Go(1)] + [Go(1)] + [Go(1)];
    assert Enabled(s, Start(Plain, true));
    hide Step, Enabled, Inv, Orphan;
    RunsJoin(Initial(Some(op)), first, a, [JoinEnter(0)], j);
    RunsJoin(Initial(Some(op)), first + [JoinEnter(0)], j, last, s);
    RunsSnoc(Initial(Some(op)), first + [JoinEnter(0)] + last, s, Start(Plain, true));
    es := first + [JoinEnter(0)] + last + [Start(Plain, true)];
  }

  /** From a new Thread: start, a kill up to its unlock, the routine's end, a second start, the
      pthread_kill. The second thread is signalled before its init. */
  lemma RestartUnderSenderReached(op: nat, sig: int) returns (es: seq<Event>, u: State)
    ensures Runs(Initial(Some(op)), es, u) && Signal(2, sig, false, 1) in u.sent
  {
    var a := StartsPlain(op);
    var k := Step(a, Kill(0, sig));
    StepKeeps(a, Kill(0, sig));
    RunsOne(a, Kill(0, sig));
    assert k.killers == map[0 := Sender(sig, 1)];
    var s := RoutineEnds(k);
    RestartSignalsTooEarly(s, Plain, 0);
    var m := Step(s, Start(Plain, true));
    u := Step(m, KillSend(0));
    var first, last := [Start(Plain, true)] + [Go(1)], [Go(1)] + [Go(1)] + [Go(1)];
    hide Step, Inv, Enabled;
    RunsJoin(Initial(Some(op)), first, a, [Kill(0, sig)], k);
    RunsJoin(Initial(Some(op)), first + [Kill(0, sig)], k, last, s);
    RunsSnoc(Initial(Some(op)), first + [Kill(0, sig)] + last, s, Start(Plain, true));
    RunsSnoc(Initial(Some(op)), first + [Kill(0, sig)] + last + [Start(Plain, true)], m, KillSend(0));
    es := first + [Kill(0, sig)] + last + [Start(Plain, true)] + [KillSend(0)];
  }
}
