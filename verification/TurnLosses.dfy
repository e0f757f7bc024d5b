// Exactly which steps lose what TurnDuty is about: the duty to publish
// turn_end, the reset of `running`, and the follow-ups still parked.  Each
// condition can be read off the state before the step.
module TurnLosses {
  import opened Wrappers
  import opened Abort
  import opened TurnProtocol
  import opened TurnExclusion
  import opened TurnDuty

  // `c` is the only controller that any code holds.
  ghost predicate Only(s: State, c: Controller) {
    c in s.core.actors && forall d: Controller :: d in s.core.actors ==> d == c
  }

  // The event is a step of the only one left.
  ghost predicate LastOne(s: State, c: Controller, e: Event) {
    Enabled(s, c, e) && Only(s, c)
  }

  lemma Gone(s: State, s': State, c: Controller)
    requires c in s.core.actors && s'.core.actors == s.core.actors - {c}
    ensures Nobody(s') <==> Only(s, c)
  {
    if Nobody(s') {
      forall d: Controller | d in s.core.actors ensures d == c {
        assert d == c || d in s'.core.actors;
      }
    }
  }

  lemma Still(s: State, c: Controller)
    requires c in s.core.actors
    ensures !Nobody(s)
  {
  }

  // Where the finally block of a turn that leaves the slot alone stops early.
  predicate Returns(cut: Option<Cut>) {
    cut != Some(AfterSettle)
  }

  // ... and of a turn that looks at the queue.
  predicate RunsThrough(cut: Option<Cut>) {
    cut.None? || cut == Some(AfterHandoff) || cut == Some(AfterPop)
  }

  // Every event but these five leaves somebody who was there.
  predicate IsExit(e: Event) {
    e.ClaimRelease? || e.DrainEnter? || e.DrainFail? || e.CrashHandler? || e.TurnFinally?
  }

  lemma OthersStay(s: State, e: Event)
    requires !Nobody(s) && !IsExit(e)
    ensures !Nobody(Step(s, e))
  {
    var d: Controller :| d in s.core.actors;
    assert d in Step(s, e).core.actors;
  }

  // ---------- turn_end ----------

  // A claim let go, a drained follow-up whose generation is over, a last-resort
  // handler that cannot write, or somebody who takes a leaked slot's occupant
  // for a successor.
  ghost predicate LosesTurnEnd(s: State, e: Event) {
    match e
    case ClaimRelease(c) => LastOne(s, c, e)
    case DrainEnter(c, fault) =>
      LastOne(s, c, e) && !fault && (Advanced(s, s.core.actors[c].gen) || (s.project && Superseded(s, c)))
    case DrainFail(c, fault) => LastOne(s, c, e) && (fault || s.row.None?)
    case CrashHandler(c, fault) => LastOne(s, c, e) && (fault || Superseded(s, c))
    case TurnFinally(c, cut) => LastOne(s, c, e) && Superseded(s, c) && Returns(cut)
    case _ => false
  }

  lemma DrainLosesTurnEnd(s: State, c: Controller, fault: bool)
    requires s.log.owed && Enabled(s, c, DrainEnter(c, fault))
    ensures var s' := DrainEnterStep(s, c, fault);
            s'.log.owed && Nobody(s') <==> LosesTurnEnd(s, DrainEnter(c, fault))
  {
    var s' := DrainEnterStep(s, c, fault);
    if c in s'.core.actors { Still(s', c); } else { Gone(s, s', c); }
  }

  lemma FinallyLosesTurnEnd(s: State, c: Controller, cut: Option<Cut>)
    requires s.log.owed && Enabled(s, c, TurnFinally(c, cut))
    ensures var s' := FinallyStep(s, c, cut);
            s'.log.owed && Nobody(s') <==> LosesTurnEnd(s, TurnFinally(c, cut))
  {
    var s' := FinallyStep(s, c, cut);
    var n := s.core.slot.next;
    if c in s'.core.actors { Still(s', c); }
    else if n in s'.core.actors { Still(s', n); }
    else { Gone(s, s', c); }
  }

  lemma HandlersLoseTurnEnd(s: State, e: Event)
    requires s.log.owed && !Nobody(s) && (e.ClaimRelease? || e.DrainFail? || e.CrashHandler?)
    ensures Step(s, e).log.owed && Nobody(Step(s, e)) <==> LosesTurnEnd(s, e)
  {
    if Enabled(s, e.c, e) { Gone(s, Step(s, e), e.c); }
  }

  // With somebody still there, turn_end is owed to nobody after a step exactly
  // if the last one leaves in one of these ways.
  lemma TurnEndLostExactly(s: State, e: Event)
    requires s.log.owed && !Nobody(s)
    ensures Step(s, e).log.owed && Nobody(Step(s, e)) <==> LosesTurnEnd(s, e)
  {
    match e
    case ClaimRelease(_) => HandlersLoseTurnEnd(s, e);
    case DrainFail(_, _) => HandlersLoseTurnEnd(s, e);
    case CrashHandler(_, _) => HandlersLoseTurnEnd(s, e);
    case DrainEnter(c, fault) => if Enabled(s, c, e) { DrainLosesTurnEnd(s, c, fault); }
    case TurnFinally(c, cut) => if Enabled(s, c, e) { FinallyLosesTurnEnd(s, c, cut); }
    case _ => OthersStay(s, e);
  }

  // ---------- running ----------

  // The row says that a turn is running, and nobody is left to say otherwise.
  ghost predicate RunningForNobody(s: State) {
    s.row.Some? && s.row.value.running && Nobody(s)
  }

  ghost predicate LeavesRunning(s: State, e: Event) {
    && s.row.Some? && s.row.value.running
    && match e
       case ClaimRelease(c) => LastOne(s, c, e)
       case DrainEnter(c, fault) =>
         LastOne(s, c, e) && !fault && (Advanced(s, s.core.actors[c].gen) || !s.project || !Owns(s, c))
       case DrainFail(c, fault) => LastOne(s, c, e) && fault
       case CrashHandler(c, fault) =>
         LastOne(s, c, e) && (fault || Advanced(s, s.core.actors[c].gen) || Superseded(s, c))
       case TurnFinally(c, cut) =>
         && LastOne(s, c, e) && Returns(cut)
         && (Superseded(s, c) || (Advanced(s, s.core.actors[c].turn.gen) && cut != Some(AtEnd)))
       case _ => false
  }

  lemma DrainLeavesRunning(s: State, c: Controller, fault: bool)
    requires Enabled(s, c, DrainEnter(c, fault))
    ensures RunningForNobody(DrainEnterStep(s, c, fault)) <==> LeavesRunning(s, DrainEnter(c, fault))
  {
    var s' := DrainEnterStep(s, c, fault);
    if c in s'.core.actors { Still(s', c); } else { Gone(s, s', c); }
  }

  lemma FinallyLeavesRunning(s: State, c: Controller, cut: Option<Cut>)
    requires Enabled(s, c, TurnFinally(c, cut))
    ensures RunningForNobody(FinallyStep(s, c, cut)) <==> LeavesRunning(s, TurnFinally(c, cut))
  {
    var s' := FinallyStep(s, c, cut);
    var n := s.core.slot.next;
    if c in s'.core.actors { Still(s', c); }
    else if n in s'.core.actors { Still(s', n); }
    else { Gone(s, s', c); }
  }

  lemma HandlersLeaveRunning(s: State, e: Event)
    requires !Nobody(s) && (e.ClaimRelease? || e.DrainFail? || e.CrashHandler?)
    ensures RunningForNobody(Step(s, e)) <==> LeavesRunning(s, e)
  {
    if Enabled(s, e.c, e) { Gone(s, Step(s, e), e.c); }
  }

  // Whatever storage does and whichever generation the row is on: with somebody
  // still there, a step leaves `running` on for nobody exactly in these cases.
  lemma RunningLeftExactly(s: State, e: Event)
    requires !Nobody(s)
    ensures RunningForNobody(Step(s, e)) <==> LeavesRunning(s, e)
  {
    match e
    case ClaimRelease(_) => HandlersLeaveRunning(s, e);
    case DrainFail(_, _) => HandlersLeaveRunning(s, e);
    case CrashHandler(_, _) => HandlersLeaveRunning(s, e);
    case DrainEnter(c, fault) => if Enabled(s, c, e) { DrainLeavesRunning(s, c, fault); }
    case TurnFinally(c, cut) => if Enabled(s, c, e) { FinallyLeavesRunning(s, c, cut); }
    case _ => OthersStay(s, e);
  }

  // ---------- parked follow-ups ----------

  // A dead login keeps the whole queue; a missing project drops only its oldest.
  predicate LeavesParked(s: State, c: Controller, cut: Option<Cut>)
    requires Enabled(s, c, TurnFinally(c, cut))
  {
    var t := s.core.actors[c].turn;
    && c !in s.core.slot.aborted && !Advanced(s, t.gen)
    && (if t.deadLogin then RunsThrough(cut) else cut.None? && !s.project && |s.ledger.queue| > 1)
  }

  // The ways the last one can leave with follow-ups still parked.
  ghost predicate Strands(s: State, e: Event) {
    match e
    case ClaimRelease(c) => LastOne(s, c, e)
    case DrainEnter(c, fault) =>
      LastOne(s, c, e) && !fault && (Advanced(s, s.core.actors[c].gen) || !s.project || !Owns(s, c))
    case DrainFail(c, _) => LastOne(s, c, e)
    case CrashHandler(c, _) => LastOne(s, c, e)
    case TurnFinally(c, cut) =>
      LastOne(s, c, e) && ((Superseded(s, c) && Returns(cut)) || LeavesParked(s, c, cut))
    case _ => false
  }

  lemma DrainStrands(s: State, c: Controller, fault: bool)
    requires s.ledger.queue != [] && Enabled(s, c, DrainEnter(c, fault))
    ensures var s' := DrainEnterStep(s, c, fault);
            s'.ledger.queue != [] && Nobody(s') <==> Strands(s, DrainEnter(c, fault))
  {
    var s' := DrainEnterStep(s, c, fault);
    if c in s'.core.actors { Still(s', c); } else { Gone(s, s', c); }
  }

  lemma FinallyStrands(s: State, c: Controller, cut: Option<Cut>)
    requires Inv(s) && s.ledger.queue != [] && Enabled(s, c, TurnFinally(c, cut))
    ensures var s' := FinallyStep(s, c, cut);
            s'.ledger.queue != [] && Nobody(s') <==> Strands(s, TurnFinally(c, cut))
  {
    var s' := FinallyStep(s, c, cut);
    var n := s.core.slot.next;
    if c !in s.core.slot.aborted { UnstoppedOwns(s, c); }
    if cut.Some? { AnyCut(cut.value); }
    if c in s'.core.actors { Still(s', c); }
    else if n in s'.core.actors { Still(s', n); }
    else { Gone(s, s', c); }
  }

  lemma AnyCut(cut: Cut)
    ensures cut.AtSettle? || cut.AfterSettle? || cut.AfterHandoff? || cut.AfterPop? || cut.AtEnd?
  {
  }

  lemma HandlersStrand(s: State, e: Event)
    requires s.ledger.queue != [] && !Nobody(s) && (e.ClaimRelease? || e.DrainFail? || e.CrashHandler?)
    ensures Step(s, e).ledger.queue != [] && Nobody(Step(s, e)) <==> Strands(s, e)
  {
    if Enabled(s, e.c, e) { Gone(s, Step(s, e), e.c); }
  }

  // With somebody still there and something parked, a step leaves follow-ups
  // parked with nobody to run them exactly in these cases.
  lemma FollowUpsStrandedExactly(s: State, e: Event)
    requires Inv(s) && s.ledger.queue != [] && !Nobody(s)
    ensures Step(s, e).ledger.queue != [] && Nobody(Step(s, e)) <==> Strands(s, e)
  {
    match e
    case ClaimRelease(_) => HandlersStrand(s, e);
    case DrainFail(_, _) => HandlersStrand(s, e);
    case CrashHandler(_, _) => HandlersStrand(s, e);
    case DrainEnter(c, fault) => if Enabled(s, c, e) { DrainStrands(s, c, fault); }
    case TurnFinally(c, cut) => if Enabled(s, c, e) { FinallyStrands(s, c, cut); }
    case _ => OthersStay(s, e);
  }

  // ---------- the slot ----------

  // The slot is left to a controller nothing holds exactly when storage fails
  // between the handoff and the drainer.
  predicate LeaksSlot(s: State, e: Event) {
    && e.TurnFinally? && Enabled(s, e.c, e)
    && var t := s.core.actors[e.c].turn;
       && e.c !in s.core.slot.aborted && !Advanced(s, t.gen) && !t.deadLogin
       && (e.cut == Some(AfterHandoff) || (e.cut == Some(AfterPop) && s.ledger.queue != []))
  }

  // Some code holds the slot's occupant, if there is one.
  predicate SlotHeld(s: State) {
    HasTurn(s) ==> s.core.slot.occupant.value in s.core.actors
  }

  lemma FinallyLeaks(s: State, c: Controller, cut: Option<Cut>)
    requires Inv(s) && SlotHeld(s) && Enabled(s, c, TurnFinally(c, cut))
    ensures SlotHeld(FinallyStep(s, c, cut)) <==> !LeaksSlot(s, TurnFinally(c, cut))
  {
    if c in s.core.slot.aborted {
      AbortedKeepsHold(s, c, cut);
    } else {
      UnstoppedOwns(s, c);
      if cut.Some? { AnyCut(cut.value); }
    }
  }

  lemma AbortedKeepsHold(s: State, c: Controller, cut: Option<Cut>)
    requires SlotHeld(s) && Enabled(s, c, TurnFinally(c, cut)) && c in s.core.slot.aborted
    ensures SlotHeld(FinallyStep(s, c, cut)) && !LeaksSlot(s, TurnFinally(c, cut))
  {
  }

  lemma LockKeepsHold(s: State, e: Event)
    requires Inv(s) && SlotHeld(s) && (e.LaunchCommit? || e.DrainEnter?)
    ensures SlotHeld(Step(s, e))
  {
  }

  lemma OthersKeepHold(s: State, e: Event)
    requires Inv(s) && SlotHeld(s) && !e.TurnFinally? && !e.LaunchCommit? && !e.DrainEnter?
    ensures SlotHeld(Step(s, e))
  {
  }

  lemma SlotLeaksExactly(s: State, e: Event)
    requires Inv(s) && SlotHeld(s)
    ensures !SlotHeld(Step(s, e)) <==> LeaksSlot(s, e)
  {
    match e
    case TurnFinally(c, cut) => if Enabled(s, c, e) { FinallyLeaks(s, c, cut); }
    case LaunchCommit(_, _) => LockKeepsHold(s, e);
    case DrainEnter(_, _) => LockKeepsHold(s, e);
    case _ => OthersKeepHold(s, e);
  }

  // ---------- over whole runs ----------

  ghost predicate OwedToNobody(s: State) {
    s.log.owed && Nobody(s)
  }

  ghost predicate ParkedForNobody(s: State) {
    s.ledger.queue != [] && Nobody(s)
  }

  // The last exit loses turn_end.
  ghost predicate OwesNobody(s: State, e: Event) {
    s.log.owed && LosesTurnEnd(s, e)
  }

  // The last exit strands what is parked, or a message is parked behind an
  // occupant that nothing holds.
  ghost predicate ParksForNobody(s: State, e: Event) {
    || (s.ledger.queue != [] && Strands(s, e))
    || (Nobody(s) && HasTurn(s) && e.PostClaim? && !s.core.slot.deleting && s.row.Some?)
  }

  lemma OwedEntry(s: State, e: Event)
    requires !OwedToNobody(s)
    ensures OwedToNobody(Step(s, e)) <==> OwesNobody(s, e)
  {
    if s.log.owed { TurnEndLostExactly(s, e); } else { NotOwedYet(s, e); }
  }

  lemma NotOwedYet(s: State, e: Event)
    requires !s.log.owed
    ensures !OwedToNobody(Step(s, e))
  {
    if e.LaunchCommit? { LaunchStays(s, e); } else { OnlyLaunchOwes(s, e); }
  }

  lemma LaunchStays(s: State, e: Event)
    requires e.LaunchCommit? && !s.log.owed
    ensures !OwedToNobody(Step(s, e))
  {
    if Enabled(s, e.c, e) { Still(Step(s, e), e.c); }
  }

  lemma OnlyLaunchOwes(s: State, e: Event)
    requires !e.LaunchCommit? && !s.log.owed
    ensures !Step(s, e).log.owed
  {
    if IsExit(e) { ExitOwesNothing(s, e); } else { OthersOweNothing(s, e); }
  }

  lemma ExitOwesNothing(s: State, e: Event)
    requires IsExit(e) && !s.log.owed
    ensures !Step(s, e).log.owed
  {
    match e
    case TurnFinally(c, cut) => if Enabled(s, c, e) { FinallyOwesNothing(s, c, cut); }
    case _ =>
  }

  lemma FinallyOwesNothing(s: State, c: Controller, cut: Option<Cut>)
    requires Enabled(s, c, TurnFinally(c, cut)) && !s.log.owed
    ensures !FinallyStep(s, c, cut).log.owed
  {
  }

  lemma OthersOweNothing(s: State, e: Event)
    requires !IsExit(e) && !e.LaunchCommit?
    ensures Step(s, e).log.owed == s.log.owed
  {
  }

  lemma ParkedEntry(s: State, e: Event)
    requires Inv(s) && !ParkedForNobody(s)
    ensures ParkedForNobody(Step(s, e)) <==> ParksForNobody(s, e)
  {
    if s.ledger.queue != [] { FollowUpsStrandedExactly(s, e); } else { NothingParkedYet(s, e); }
  }

  lemma NothingParkedYet(s: State, e: Event)
    requires s.ledger.queue == []
    ensures ParkedForNobody(Step(s, e)) <==>
            Nobody(s) && HasTurn(s) && e.PostClaim? && !s.core.slot.deleting && s.row.Some?
  {
    if !e.PostClaim? { assert Step(s, e).ledger.queue == []; }
    if e.PostClaim? && s.core.slot.next in Step(s, e).core.actors { Still(Step(s, e), s.core.slot.next); }
  }

  lemma RunningEntry(s: State, e: Event)
    requires !RunningForNobody(s)
    ensures RunningForNobody(Step(s, e)) <==> LeavesRunning(s, e)
  {
    if Nobody(s) {
      assert !IsExit(e) ==> !RunningForNobody(Step(s, e));
    } else {
      RunningLeftExactly(s, e);
    }
  }

  // The states a run goes through.
  function Trace(gen: nat, es: seq<Event>): (states: seq<State>)
    ensures |states| == |es| + 1
    ensures forall k :: 0 <= k <= |es| ==> states[k] == Run(Init(gen), es[..k])
  {
    seq(|es| + 1, k requires 0 <= k <= |es| => Run(Init(gen), es[..k]))
  }

  lemma TraceStep(gen: nat, es: seq<Event>, k: nat)
    requires k < |es|
    ensures Trace(gen, es)[k + 1] == Step(Trace(gen, es)[k], es[k])
  {
    RunSnoc(Init(gen), es, k);
  }

  // Event k made the state bad, and it has been bad since.
  ghost predicate Since(
    states: seq<State>, es: seq<Event>, bad: State -> bool, enters: (State, Event) -> bool, k: nat)
  {
    && k < |es| < |states|
    && !bad(states[k]) && enters(states[k], es[k])
    && forall j :: k < j <= |es| ==> bad(states[j])
  }

  // A bad state is left behind exactly if some event entered it for good.
  lemma {:induction false} LastEntry(
    states: seq<State>, es: seq<Event>, bad: State -> bool, enters: (State, Event) -> bool)
    requires |states| == |es| + 1 && !bad(states[0])
    requires forall k :: 0 <= k < |es| && !bad(states[k]) ==> (bad(states[k + 1]) <==> enters(states[k], es[k]))
    ensures bad(states[|es|]) <==> exists k :: Since(states, es, bad, enters, k)
    decreases |es|
  {
    if es != [] && bad(states[|es|]) {
      var n := |es| - 1;
      if bad(states[n]) {
        LastEntry(states[..n + 1], es[..n], bad, enters);
        var k :| Since(states[..n + 1], es[..n], bad, enters, k);
        assert Since(states, es, bad, enters, k);
      } else {
        assert Since(states, es, bad, enters, n);
      }
    }
  }

  // In every run: turn_end is owed with nobody left exactly if the last exit
  // lost it.
  lemma TurnEndOwedExactly(gen: nat, es: seq<Event>)
    ensures OwedToNobody(Run(Init(gen), es)) <==>
            exists k :: Since(Trace(gen, es), es, OwedToNobody, OwesNobody, k)
  {
    var states := Trace(gen, es);
    assert es[..|es|] == es && es[..0] == [];
    forall k | 0 <= k < |es| && !OwedToNobody(states[k])
      ensures OwedToNobody(states[k + 1]) <==> OwesNobody(states[k], es[k])
    {
      TraceStep(gen, es, k);
      OwedEntry(states[k], es[k]);
    }
    LastEntry(states, es, OwedToNobody, OwesNobody);
  }

  // ... follow-ups are parked with nobody left exactly if the last exit stranded
  // them or a message was parked behind a leaked slot.
  lemma FollowUpsParkedExactly(gen: nat, es: seq<Event>)
    ensures ParkedForNobody(Run(Init(gen), es)) <==>
            exists k :: Since(Trace(gen, es), es, ParkedForNobody, ParksForNobody, k)
  {
    var states := Trace(gen, es);
    assert es[..|es|] == es && es[..0] == [];
    InitInv(gen);
    forall k | 0 <= k < |es| && !ParkedForNobody(states[k])
      ensures ParkedForNobody(states[k + 1]) <==> ParksForNobody(states[k], es[k])
    {
      RunKeeps(Init(gen), es[..k]);
      TraceStep(gen, es, k);
      ParkedEntry(states[k], es[k]);
    }
    LastEntry(states, es, ParkedForNobody, ParksForNobody);
  }

  // ... and `running` is on with nobody left exactly if the last exit left it on.
  lemma RunningOwedExactly(gen: nat, es: seq<Event>)
    ensures RunningForNobody(Run(Init(gen), es)) <==>
            exists k :: Since(Trace(gen, es), es, RunningForNobody, LeavesRunning, k)
  {
    var states := Trace(gen, es);
    assert es[..|es|] == es && es[..0] == [];
    forall k | 0 <= k < |es| && !RunningForNobody(states[k])
      ensures RunningForNobody(states[k + 1]) <==> LeavesRunning(states[k], es[k])
    {
      TraceStep(gen, es, k);
      RunningEntry(states[k], es[k]);
    }
    LastEntry(states, es, RunningForNobody, LeavesRunning);
  }
}
