/** The three start routines of comm/mtaf_thread.h as program text, with its own meaning: the positions
    and moves of ThreadProtocol are what running that text, statement by statement, goes through. */
module Routines {
  import opened Bytes
  import opened ThreadProtocol

  /** Statements between init and cleanup. The first four are condtime.wait and how far it has come;
      Unless and WhileNot are the if and the while on !iscanceldelaystart. */
  datatype Stmt =
    | Cas | Enqueue | Sleep | Leave
    | Call | Return
    | Unless(body: seq<Stmt>) | WhileNot(body: seq<Stmt>)

  /** start_routine, start_routine_after, start_routine_periodic. */
  function Text(kind: Kind): seq<Stmt> {
    match kind
    case RunOnce => [Call]
    case RunAfter => [Unless([Cas, Unless([Call])])]
    case RunPeriodic => [Unless([Cas, WhileNot([Call, Unless([Cas])])])]
  }

  datatype Effect = Effect(text: seq<Stmt>, sticky: bool, calls: nat)

  /** The first statement of a text, run: what is left, the sticky notification, the calls made. */
  function Perform(text: seq<Stmt>, cancelled: bool, sticky: bool, calls: nat): Effect
    requires text != []
  {
    var rest := text[1..];
    match text[0]
    case Cas => Effect([if sticky then Leave else Enqueue] + rest, false, calls)
    case Enqueue => Effect([Sleep] + rest, sticky, calls)
    case Sleep => Effect([Leave] + rest, sticky, calls)
    case Leave => Effect(rest, false, calls)
    case Call => Effect([Return] + rest, sticky, calls + 1)
    case Return => Effect(rest, sticky, calls)
    case Unless(body) => Effect((if cancelled then [] else body) + rest, sticky, calls)
    case WhileNot(body) => Effect((if cancelled then [] else body + [text[0]]) + rest, sticky, calls)
  }

  // ---- positions

  /** What follows the wait, and what follows the call. */
  function BehindWait(kind: Kind): seq<Stmt> {
    match kind
    case RunOnce => []
    case RunAfter => [Unless([Call])]
    case RunPeriodic => [WhileNot([Call, Unless([Cas])])]
  }

  function BehindCall(kind: Kind): seq<Stmt> {
    if kind.RunPeriodic? then [Unless([Cas])] + BehindWait(kind) else []
  }

  /** The text in front of a routine that stands at pc. */
  function At(kind: Kind, pc: Pc): seq<Stmt> {
    match pc
    case Created => Text(kind)
    case Signalling => Text(kind)
    case Check1 => Text(kind)
    case BeforeCas => [Cas] + BehindWait(kind)
    case BeforeBlock => [Enqueue] + BehindWait(kind)
    case Blocked => [Sleep] + BehindWait(kind)
    case AfterWait => [Leave] + BehindWait(kind)
    case Check2 => BehindWait(kind)
    case Ready => [Call] + BehindCall(kind)
    case Running => [Return] + BehindCall(kind)
    case AfterRun => BehindCall(kind)
    case Exiting => []
    case Done => []
  }

  /** The positions a routine of this kind has. */
  predicate Has(kind: Kind, pc: Pc) {
    match kind
    case RunOnce => pc.Created? || pc.Signalling? || pc.Ready? || pc.Running? || pc.Exiting? || pc.Done?
    case RunAfter => !pc.AfterRun?
    case RunPeriodic => true
  }

  predicate InText(pc: Pc) { !pc.Created? && !pc.Signalling? && !pc.Exiting? && !pc.Done? }

  /** Each move of the machine inside a routine is the first statement of the text there, run; the text
      is used up exactly when the routine is about to clean up. */
  lemma AdvanceFollowsText(o: Os, cancelled: bool, sticky: bool)
    requires Has(o.kind, o.pc) && InText(o.pc)
    ensures At(o.kind, o.pc) != []
    ensures var m := Advance(o, cancelled, sticky);
            && Has(o.kind, m.pc) && (InText(m.pc) || m.pc.Exiting?) && (At(o.kind, m.pc) == [] <==> m.pc.Exiting?)
            && Perform(At(o.kind, o.pc), cancelled, sticky, o.calls) == Effect(At(o.kind, m.pc), m.sticky, m.calls)
  {
    AdvanceHas(o, cancelled, sticky);
    PerformsText(o, cancelled, sticky);
    hide Advance, Perform, Text, BehindWait;
  }

  lemma AdvanceHas(o: Os, cancelled: bool, sticky: bool)
    requires Has(o.kind, o.pc) && InText(o.pc)
    ensures var m := Advance(o, cancelled, sticky); Has(o.kind, m.pc) && (InText(m.pc) || m.pc.Exiting?)
    ensures Advance(o, cancelled, sticky).pc.AfterRun? ==> o.kind.RunPeriodic?
  {
  }

  lemma TextLeft(kind: Kind, pc: Pc)
    requires Has(kind, pc) && InText(pc)
    ensures At(kind, pc) != []
  {
  }

  lemma PerformsText(o: Os, cancelled: bool, sticky: bool)
    requires Has(o.kind, o.pc) && InText(o.pc)
    ensures At(o.kind, o.pc) != []
    ensures var m := Advance(o, cancelled, sticky);
            Perform(At(o.kind, o.pc), cancelled, sticky, o.calls) == Effect(At(o.kind, m.pc), m.sticky, m.calls)
  {
    TextLeft(o.kind, o.pc);
    if o.pc.BeforeCas? || o.pc.BeforeBlock? || o.pc.Blocked? || o.pc.AfterWait? {
      WaitPerforms(o, cancelled, sticky);
    } else {
      RestPerforms(o, cancelled, sticky);
    }
  }

  lemma WaitPerforms(o: Os, cancelled: bool, sticky: bool)
    requires o.pc.BeforeCas? || o.pc.BeforeBlock? || o.pc.Blocked? || o.pc.AfterWait?
    ensures var m := Advance(o, cancelled, sticky);
            Perform(At(o.kind, o.pc), cancelled, sticky, o.calls) == Effect(At(o.kind, m.pc), m.sticky, m.calls)
  {
    hide BehindWait;
  }

  lemma RestPerforms(o: Os, cancelled: bool, sticky: bool)
    requires Has(o.kind, o.pc) && InText(o.pc)
    requires !o.pc.BeforeCas? && !o.pc.BeforeBlock? && !o.pc.Blocked? && !o.pc.AfterWait?
    ensures At(o.kind, o.pc) != []
    ensures var m := Advance(o, cancelled, sticky);
            Perform(At(o.kind, o.pc), cancelled, sticky, o.calls) == Effect(At(o.kind, m.pc), m.sticky, m.calls)
  {
  }

  /** init hands the routine over at the beginning of its text. */
  lemma BeginsAtText(kind: Kind)
    ensures Has(kind, FirstPc(kind)) && InText(FirstPc(kind)) && At(kind, FirstPc(kind)) == Text(kind)
  {
  }

  // ---- in every run

  predicate AllHave(s: State) {
    forall t :: t in s.os ==> Has(s.os[t].kind, s.os[t].pc)
  }

  lemma StepHas(s: State, e: Event)
    requires AllHave(s) && Enabled(s, e)
    ensures AllHave(Step(s, e))
  {
    hide Advance, At, GoStep;
    match e
    case Go(t) => GoHas(s, t);
    case _ =>
  }

  lemma GoHas(s: State, t: nat)
    requires AllHave(s) && t in s.os && !s.os[t].pc.Done?
    ensures AllHave(GoStep(s, t))
  {
    var o := s.os[t];
    BeginsAtText(o.kind);
    if InText(o.pc) {
      AdvanceFollowsText(o, s.c.cancelled, s.c.sticky);
      hide Advance, Has, At, Perform;
    } else {
      hide Has, At, Perform;
    }
  }

  lemma {:induction false} RunHas(s: State, es: seq<Event>, u: State)
    requires AllHave(s) && Runs(s, es, u)
    ensures AllHave(u)
    decreases |es|
  {
    if es != [] {
      StepHas(s, es[0]);
      hide AllHave, Step, Enabled;
      RunHas(Step(s, es[0]), es[1..], u);
    }
  }
}
