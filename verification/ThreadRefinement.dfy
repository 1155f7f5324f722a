/** The control block carries out the steps of the thread machine: each critical section, and each
    step of a routine between init and cleanup, run on an object that has the fields of a state,
    leaves it with the fields of the machine's next state. */
module ThreadRefinement {
  import opened Bytes
  import opened Locks
  import opened Routines
  import opened ThreadControl
  import opened ThreadProtocol

  /** The object has the fields of the state; its lock is free, and gone exactly if the block is. */
  ghost predicate Represents(r: RunnableReference, s: State)
    reads r, r.condtime, r.splock
  {
    r.C() == s.c && r.Left()
  }

  lemma AliveCounts(s: State, e: Event)
    requires Inv(s) && Enabled(s, e) && !e.JoinCall? && !e.JoinReturn? && !e.KillSend?
    ensures !s.c.deleted && s.c.count > 0
  {
    match e
    case Go(t) => assert Outstanding(s, t);
    case _ =>
  }

  /** tid is what pthread_create hands out, an id not used before. */
  method DoStart(r: RunnableReference, kind: StartKind, createOk: bool, tid: nat, ghost s: State) returns (newone: bool)
    requires Inv(s) && Represents(r, s) && Enabled(s, Start(kind, createOk)) && tid == s.next
    modifies r, r.splock, r.condtime
    ensures Represents(r, Step(s, Start(kind, createOk))) && newone == s.c.isended
  {
    AliveCounts(s, Start(kind, createOk));
    hide Inv;
    newone := r.Start(kind, createOk, tid);
  }

  /** Both stores of a cancel; the broadcast after them leaves the control block alone. */
  method DoCancel(r: RunnableReference, ghost s: State)
    requires Inv(s) && Represents(r, s) && Enabled(s, CancelFlag)
    modifies r, r.splock, r.condtime
    ensures var flagged := Step(s, CancelFlag);
            if s.c.isended then Represents(r, flagged) && flagged.lock.Free?
            else Enabled(flagged, CancelPost) && Represents(r, Step(flagged, CancelPost))
                 && Represents(r, Step(Step(flagged, CancelPost), CancelBroadcast))
  {
    AliveCounts(s, CancelFlag);
    hide Inv;
    r.Cancel();
  }

  /** self is the calling thread; the routine itself is turned away with EDEADLK. */
  method DoJoin(r: RunnableReference, self: nat, j: nat, ghost s: State) returns (wait: bool)
    requires Inv(s) && Represents(r, s) && Enabled(s, JoinEnter(j))
    modifies r, r.splock, r.condtime
    ensures Represents(r, if self == s.c.tid then s else Step(s, JoinEnter(j)))
    ensures wait <==> self != s.c.tid && j in Step(s, JoinEnter(j)).joiners
  {
    AliveCounts(s, JoinEnter(j));
    hide Inv;
    var deadlk;
    wait, deadlk := r.Join(self);
  }

  method DoKill(r: RunnableReference, k: nat, sig: int, ghost s: State) returns (send: bool)
    requires Inv(s) && Represents(r, s) && Enabled(s, Kill(k, sig))
    modifies r, r.splock, r.condtime
    ensures Represents(r, Step(s, Kill(k, sig))) && (send <==> k in Step(s, Kill(k, sig)).killers)
  {
    AliveCounts(s, Kill(k, sig));
    hide Inv;
    var reply := r.Kill(sig);
    send := reply == SendNow;
  }

  method DoDestroy(r: RunnableReference, ghost s: State)
    requires Inv(s) && Represents(r, s) && Enabled(s, DestroyHandle)
    modifies r, r.splock, r.condtime
    ensures Represents(r, Step(s, DestroyHandle))
  {
    AliveCounts(s, DestroyHandle);
    hide Inv;
    r.DropHandle();
  }

  /** What a step of a routine tells its caller: the text then in front of it, its calls so far, and
      whether it has detached itself. */
  predicate Tells(o: Os, text: seq<Stmt>, calls: nat, detached: bool) {
    text == At(o.kind, o.pc) && calls == o.calls && detached == o.detached
  }

  /** One step of routine t, which stands where o says: init, the next statement of its text, or
      cleanup. */
  method DoGo(r: RunnableReference, t: nat, o: Os, ghost s: State) returns (text: seq<Stmt>, calls: nat, detached: bool, deliver: Option<int>)
    requires Inv(s) && AllHave(s) && Represents(r, s) && Enabled(s, Go(t)) && o == s.os[t]
    modifies r, r.splock, r.condtime
    ensures Represents(r, Step(s, Go(t))) && Tells(Step(s, Go(t)).os[t], text, calls, detached)
    ensures deliver == if Step(s, Go(t)).os[t].pc.Signalling? then Some(s.c.killsig) else None
  {
    AliveCounts(s, Go(t));
    RoutineIsCurrent(s, t);
    hide Inv, GoStep;
    if o.pc.Created? {
      text, calls, detached, deliver := DoInit(r, t, o, s);
    } else if o.pc.Exiting? {
      text, calls, detached := DoCleanup(r, t, o, s);
      deliver := None;
    } else {
      text, calls := DoStatement(r, t, o, s);
      detached, deliver := o.detached, None;
    }
  }

  lemma RoutineIsCurrent(s: State, t: nat)
    requires Inv(s) && AllHave(s) && Enabled(s, Go(t))
    ensures t == s.c.tid && t > 0 && (s.c.inthread <==> !s.os[t].pc.Created?) && Has(s.os[t].kind, s.os[t].pc)
  {
    assert Outstanding(s, t);
  }

  method DoInit(r: RunnableReference, t: nat, o: Os, ghost s: State)
    returns (text: seq<Stmt>, calls: nat, detached: bool, deliver: Option<int>)
    requires r.C() == s.c && r.Idle() && t in s.os && o == s.os[t] && o.pc.Created? && !s.c.inthread
    modifies r, r.splock
    ensures Represents(r, GoStep(s, t)) && Tells(GoStep(s, t).os[t], text, calls, detached)
    ensures deliver == if GoStep(s, t).os[t].pc.Signalling? then Some(s.c.killsig) else None
  {
    BothBegin(o.kind);
    hide At, Has;
    text, calls, detached := Text(o.kind), o.calls, o.detached;
    deliver := r.Init();
  }

  method DoCleanup(r: RunnableReference, t: nat, o: Os, ghost s: State)
    returns (text: seq<Stmt>, calls: nat, detached: bool)
    requires r.C() == s.c && r.Idle() && t in s.os && o == s.os[t] && o.pc.Exiting? && s.c.inthread && s.c.tid != 0
    modifies r, r.splock
    ensures Represents(r, GoStep(s, t)) && Tells(GoStep(s, t).os[t], text, calls, detached)
    ensures !GoStep(s, t).os[t].pc.Signalling?
  {
    text, calls := [], o.calls;
    detached := r.Cleanup();
  }

  method DoStatement(r: RunnableReference, t: nat, o: Os, ghost s: State) returns (text: seq<Stmt>, calls: nat)
    requires r.C() == s.c && r.Idle() && t in s.os && o == s.os[t]
    requires !o.pc.Created? && !o.pc.Exiting? && !o.pc.Done? && Has(o.kind, o.pc)
    modifies r.condtime
    ensures Represents(r, GoStep(s, t)) && Tells(GoStep(s, t).os[t], text, calls, o.detached)
    ensures !GoStep(s, t).os[t].pc.Signalling?
  {
    if o.pc.Signalling? {
      SignallingBegins(s, t);
      BothBegin(o.kind);
      hide At, GoStep, Has;
      text, calls := Text(o.kind), o.calls;
    } else {
      hide At, Advance, Has;
      text, calls := RunNext(r, o);
    }
  }

  lemma BothBegin(kind: Kind)
    ensures At(kind, FirstPc(kind)) == At(kind, Signalling) == Text(kind) && !FirstPc(kind).Signalling?
  {
  }

  method RunNext(r: RunnableReference, o: Os) returns (text: seq<Stmt>, calls: nat)
    requires Has(o.kind, o.pc) && InText(o.pc)
    modifies r.condtime
    ensures var m := Advance(o, r.iscanceldelaystart, old(r.condtime.anywayNotify));
            text == At(o.kind, m.pc) && calls == m.calls && !m.pc.Signalling? && r.C() == old(r.C()).(sticky := m.sticky)
  {
    AdvanceFollowsText(o, r.iscanceldelaystart, r.condtime.anywayNotify);
    hide At, Perform, Advance;
    text, calls := RunStatement(r, At(o.kind, o.pc), o.calls);
  }

  lemma SignallingBegins(s: State, t: nat)
    requires t in s.os && s.os[t].pc.Signalling?
    ensures GoStep(s, t).c == s.c && GoStep(s, t).os[t] == s.os[t].(pc := FirstPc(s.os[t].kind))
  {
  }

  /** The first statement of a routine's text, run on the control block: tests read the cancel flag
      without the lock, waits go through condtime. */
  method RunStatement(r: RunnableReference, text: seq<Stmt>, calls: nat) returns (rest: seq<Stmt>, called: nat)
    requires text != []
    modifies r.condtime
    ensures Perform(text, r.iscanceldelaystart, old(r.condtime.anywayNotify), calls)
            == Effect(rest, r.condtime.anywayNotify, called)
    ensures r.C() == old(r.C()).(sticky := r.condtime.anywayNotify)
  {
    rest, called := text[1..], calls;
    match text[0] {
      case Cas =>
        var blocks := r.condtime.EnterWait();
        rest := [if blocks then Enqueue else Leave] + rest;
      case Enqueue => rest := [Sleep] + rest;
      case Sleep => rest := [Leave] + rest;
      case Leave => r.condtime.LeaveWait();
      case Call =>
        rest := [Return] + rest;
        called := calls + 1;
      case Return =>
      case Unless(body) =>
        if !r.iscanceldelaystart {
          rest := body + rest;
        }
      case WhileNot(body) =>
        if !r.iscanceldelaystart {
          rest := body + text;
        }
    }
  }
}
