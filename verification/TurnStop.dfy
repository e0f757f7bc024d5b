// What Stop, /clear and a deleted task do to the follow-ups parked behind a
// turn: none of them ever runs, whatever happens afterwards.
module TurnStop {
  import opened Wrappers
  import opened Abort
  import opened TurnProtocol
  import opened TurnExclusion
  import opened TurnConservation
  import opened TurnDuty
  import opened TurnWitnesses

  // The event ends everything that is parked.
  predicate EndsQueue(s: State, e: Event) {
    match e
    case Stop => HasTurn(s)
    case ClearFinish(g) => s.row.Some? && g in s.clears.stopped
    case Vanish => true
    case _ => false
  }

  lemma QueueEnds(s: State, e: Event)
    requires EndsQueue(s, e)
    ensures Step(s, e).ledger.queue == [] && Step(s, e).ledger.ran == s.ledger.ran
    ensures forall m :: m in s.ledger.queue ==> m in Step(s, e).ledger.fate && Step(s, e).ledger.fate[m] == Cleared
  {
  }

  // In every run: a follow-up that is parked at such an event is lost as cleared
  // from then on, and never runs.
  lemma ParkedNeverRuns(gen: nat, before: seq<Event>, e: Event, es: seq<Event>, m: nat)
    requires EndsQueue(Run(Init(gen), before), e) && m in Run(Init(gen), before).ledger.queue
    ensures var r := Run(Step(Run(Init(gen), before), e), es);
            m in r.ledger.fate && r.ledger.fate[m] == Cleared && m !in r.ledger.ran
  {
    var s := Run(Init(gen), before);
    ReachedInv(gen, before);
    QueueEnds(s, e);
    StepKeeps(s, e);
    LedgerStep(s, e);
    LostStaysLost(Step(s, e), es, m);
  }

  lemma ReachedInv(gen: nat, es: seq<Event>)
    ensures Inv(Run(Init(gen), es)) && LedgerInv(Run(Init(gen), es))
  {
    InitInv(gen);
    LedgerRun(Init(gen), es);
  }

  lemma LostStaysLost(s: State, es: seq<Event>, m: nat)
    requires Inv(s) && LedgerInv(s) && m in s.ledger.fate
    ensures var r := Run(s, es);
            m in r.ledger.fate && r.ledger.fate[m] == s.ledger.fate[m] && m !in r.ledger.ran
  {
    LedgerRun(s, es);
    VerdictsKept(s, es);
    NotBoth(Run(s, es), m);
  }

  lemma NotBoth(s: State, m: nat)
    requires LedgerInv(s) && m in s.ledger.fate
    ensures m !in s.ledger.ran && m !in s.ledger.queue && m !in Hand(s)
  {
    assert m !in Pending(s);
  }

  lemma {:induction false} VerdictsKept(s: State, es: seq<Event>)
    requires Inv(s) && LedgerInv(s)
    ensures Extends(s.ledger, Run(s, es).ledger)
    decreases |es|
  {
    if es != [] {
      VerdictsAreFinal(s, es[0]);
      StepKeeps(s, es[0]);
      LedgerStep(s, es[0]);
      VerdictsKept(Step(s, es[0]), es[1..]);
    }
  }

  // ---------- a follow-up on its way ----------

  // The controller has lost the slot and cannot get it again.
  predicate Ousted(s: State, c: Controller) {
    c < s.core.slot.next && !Owns(s, c)
  }

  predicate WaitsWith(s: State, c: Controller, m: nat) {
    c in s.core.actors && s.core.actors[c].DrainWaiting? && s.core.actors[c].msg == m
  }

  // A drained follow-up whose controller has lost the slot: it waits for the
  // lock, or has been dropped.
  predicate Doomed(s: State, c: Controller, m: nat) {
    Ousted(s, c) && (WaitsWith(s, c, m) || (m in s.ledger.fate && s.ledger.fate[m] == Dropped))
  }

  lemma OustedStep(s: State, e: Event, c: Controller)
    requires Ousted(s, c)
    ensures Ousted(Step(s, e), c)
  {
    match e
    case TurnFinally(d, cut) => if Enabled(s, d, e) { OustedFinally(s, d, cut, c); }
    case _ => OustedRest(s, e, c);
  }

  lemma OustedFinally(s: State, d: Controller, cut: Option<Cut>, c: Controller)
    requires Ousted(s, c) && Enabled(s, d, TurnFinally(d, cut))
    ensures Ousted(FinallyStep(s, d, cut), c)
  {
  }

  lemma OustedRest(s: State, e: Event, c: Controller)
    requires Ousted(s, c) && !e.TurnFinally?
    ensures Ousted(Step(s, e), c)
  {
  }

  // Only its own turn under the lock ends the wait, and then the message is dropped.
  lemma WaitStep(s: State, e: Event, c: Controller, m: nat)
    requires Ousted(s, c) && WaitsWith(s, c, m)
    ensures var s' := Step(s, e);
            WaitsWith(s', c, m) || (m in s'.ledger.fate && s'.ledger.fate[m] == Dropped)
  {
    match e
    case TurnFinally(d, cut) => if Enabled(s, d, e) { WaitFinally(s, d, cut, c, m); }
    case DrainEnter(d, fault) => if Enabled(s, d, e) { WaitDrain(s, d, fault, c, m); }
    case _ => WaitRest(s, e, c, m);
  }

  lemma WaitFinally(s: State, d: Controller, cut: Option<Cut>, c: Controller, m: nat)
    requires Ousted(s, c) && WaitsWith(s, c, m) && Enabled(s, d, TurnFinally(d, cut))
    ensures WaitsWith(FinallyStep(s, d, cut), c, m)
  {
  }

  lemma WaitDrain(s: State, d: Controller, fault: bool, c: Controller, m: nat)
    requires Ousted(s, c) && WaitsWith(s, c, m) && Enabled(s, d, DrainEnter(d, fault))
    ensures var s' := DrainEnterStep(s, d, fault);
            if d == c then m in s'.ledger.fate && s'.ledger.fate[m] == Dropped else WaitsWith(s', c, m)
  {
  }

  lemma WaitRest(s: State, e: Event, c: Controller, m: nat)
    requires Ousted(s, c) && WaitsWith(s, c, m) && !e.TurnFinally? && !e.DrainEnter?
    ensures WaitsWith(Step(s, e), c, m)
  {
  }

  lemma {:induction false} DoomedRun(s: State, es: seq<Event>, c: Controller, m: nat)
    requires Inv(s) && LedgerInv(s) && Doomed(s, c, m)
    ensures Doomed(Run(s, es), c, m)
    decreases |es|
  {
    if es != [] {
      OustedStep(s, es[0], c);
      if WaitsWith(s, c, m) { WaitStep(s, es[0], c, m); } else { VerdictsAreFinal(s, es[0]); }
      StepKeeps(s, es[0]);
      LedgerStep(s, es[0]);
      DoomedRun(Step(s, es[0]), es[1..], c, m);
    }
  }

  lemma InHandIsHeld(s: State, c: Controller, m: nat)
    requires Inv(s) && WaitsWith(s, c, m)
    ensures m in Hand(s)
  {
    assert TurnTicket(c) in s.core.lock;
    HeldIsInHand(s.core.lock, s.core.actors, c, m);
  }

  lemma {:induction false} HeldIsInHand(lock: seq<Ticket>, actors: map<Controller, Actor>, c: Controller, m: nat)
    requires TurnTicket(c) in lock && c in actors && m in MsgOf(actors[c])
    ensures m in InHand(lock, actors)
    decreases |lock|
  {
    if lock[0] != TurnTicket(c) { HeldIsInHand(lock[1..], actors, c, m); }
  }

  // In every run: a follow-up that has been popped and waits for the lock when
  // Stop is pressed never runs; once it has waited, it has been dropped.
  lemma PoppedNeverRuns(gen: nat, before: seq<Event>, es: seq<Event>, c: Controller, m: nat)
    requires var s := Run(Init(gen), before); HasTurn(s) && WaitsWith(s, c, m)
    ensures var r := Run(Step(Run(Init(gen), before), Stop), es);
            && m !in r.ledger.ran
            && (WaitsWith(r, c, m) || (m in r.ledger.fate && r.ledger.fate[m] == Dropped))
  {
    var s := Run(Init(gen), before);
    ReachedInv(gen, before);
    StepKeeps(s, Stop);
    LedgerStep(s, Stop);
    var s' := Step(s, Stop);
    assert c < s'.core.slot.next && s'.core.slot.occupant.None? && s'.core.actors == s.core.actors;
    DoomedRun(s', es, c, m);
    LedgerRun(s', es);
    NeverRan(Run(s', es), c, m);
  }

  lemma NeverRan(s: State, c: Controller, m: nat)
    requires Inv(s) && LedgerInv(s) && Doomed(s, c, m)
    ensures m !in s.ledger.ran
  {
    if WaitsWith(s, c, m) {
      InHandIsHeld(s, c, m);
      Apart(s.ledger.ran, Hand(s), s.ledger.queue);
    } else {
      NotBoth(s, m);
    }
  }

  // ---------- what a Stop lets through ----------

  predicate LaunchesWith(s: State, m: nat) {
    exists c: Controller ::
      c in s.core.actors && s.core.actors[c].Launching? && s.core.actors[c].followUp == Some(m)
  }

  lemma {:induction false} HolderInHand(lock: seq<Ticket>, actors: map<Controller, Actor>, m: nat)
    returns (c: Controller)
    requires m in InHand(lock, actors)
    ensures c in actors && m in MsgOf(actors[c])
    decreases |lock|
  {
    if lock[0].TurnTicket? && lock[0].c in actors && m in MsgOf(actors[lock[0].c]) {
      c := lock[0].c;
    } else {
      c := HolderInHand(lock[1..], actors, m);
    }
  }

  // Of the follow-ups that had not run when Stop was pressed, only one that was
  // already being launched can still run.
  lemma StopSparesOnlyLaunching(gen: nat, before: seq<Event>, es: seq<Event>, m: nat)
    requires var s := Run(Init(gen), before); HasTurn(s) && m < s.ledger.next && m !in s.ledger.ran
    requires m in Run(Step(Run(Init(gen), before), Stop), es).ledger.ran
    ensures LaunchesWith(Run(Init(gen), before), m)
  {
    var s := Run(Init(gen), before);
    EveryFollowUpAccounted(gen, before, m);
    if IsParked(s, m) {
      ParkedNeverRuns(gen, before, Stop, es, m);
    } else if IsLost(s, m) {
      LostBefore(gen, before, es, m);
    } else {
      var c := HolderInHand(s.core.lock, s.core.actors, m);
      if s.core.actors[c].DrainWaiting? { PoppedNeverRuns(gen, before, es, c, m); }
    }
  }

  lemma LostBefore(gen: nat, before: seq<Event>, es: seq<Event>, m: nat)
    requires IsLost(Run(Init(gen), before), m)
    ensures m !in Run(Step(Run(Init(gen), before), Stop), es).ledger.ran
  {
    var s := Run(Init(gen), before);
    ReachedInv(gen, before);
    VerdictsAreFinal(s, Stop);
    StepKeeps(s, Stop);
    LedgerStep(s, Stop);
    LostStaysLost(Step(s, Stop), es, m);
  }

  // ---------- what is sent after a Stop ----------

  // A finishing turn clears the queue exactly if it was stopped or its generation
  // is over, nobody else is in the slot, and no storage call throws before.
  lemma FinallyClearsExactly(s: State, c: Controller, cut: Option<Cut>, m: nat)
    requires Inv(s) && LedgerInv(s) && Enabled(s, c, TurnFinally(c, cut)) && m in s.ledger.queue
    ensures var l := Step(s, TurnFinally(c, cut)).ledger;
            var t := s.core.actors[c].turn;
            (m in l.fate && l.fate[m] == Cleared) <==>
              && (c in s.core.slot.aborted || Advanced(s, t.gen)) && !Superseded(s, c)
              && cut != Some(AfterSettle) && (cut == Some(AtSettle) ==> Advanced(s, t.gen))
  {
    NotBothQueued(s, m);
    DiscardsExactly(s, c, cut);
    ClearedExactly(s.ledger, OutcomeOf(s, c, s.core.actors[c].turn, cut), m);
  }

  lemma DiscardsExactly(s: State, c: Controller, cut: Option<Cut>)
    requires Enabled(s, c, TurnFinally(c, cut))
    ensures var t := s.core.actors[c].turn;
            OutcomeOf(s, c, t, cut).Discards? <==>
              && (c in s.core.slot.aborted || Advanced(s, t.gen)) && !Superseded(s, c)
              && cut != Some(AfterSettle) && (cut == Some(AtSettle) ==> Advanced(s, t.gen))
  {
  }

  lemma ClearedExactly(l: Ledger, o: Outcome, m: nat)
    requires m in l.queue && m !in l.fate
    ensures var l' := FinallyLedger(l, o);
            (m in l'.fate && l'.fate[m] == Cleared) <==> o.Discards?
  {
  }

  lemma NotBothQueued(s: State, m: nat)
    requires LedgerInv(s) && m in s.ledger.queue
    ensures m !in s.ledger.fate
  {
    assert m in Pending(s);
  }

  // The finishing turn discards what is parked.
  predicate Discards(s: State, e: Event) {
    && e.TurnFinally? && Enabled(s, e.c, e)
    && var t := s.core.actors[e.c].turn;
       && (e.c in s.core.slot.aborted || Advanced(s, t.gen)) && !Superseded(s, e.c)
       && e.cut != Some(AfterSettle) && (e.cut == Some(AtSettle) ==> Advanced(s, t.gen))
  }

  predicate IsNow(s: State, m: nat, fate: Fate) {
    m in s.ledger.fate && s.ledger.fate[m] == fate
  }

  // Why a follow-up is lost, exactly: cancelled by its own request while it is
  // parked, cleared by Stop, /clear, a deletion or a finishing turn that
  // discards; whatever else loses one drops it.
  lemma LostExactly(s: State, e: Event, m: nat)
    requires Inv(s) && LedgerInv(s) && m !in s.ledger.fate
    ensures IsNow(Step(s, e), m, Cancelled) <==> e == CancelPending(m) && m in s.ledger.queue
    ensures IsNow(Step(s, e), m, Cleared) <==> m in s.ledger.queue && (EndsQueue(s, e) || Discards(s, e))
  {
    match e
    case TurnFinally(c, cut) =>
      if Enabled(s, c, e) {
        DiscardsExactly(s, c, cut);
        FinallyLoses(s.ledger, OutcomeOf(s, c, s.core.actors[c].turn, cut), m);
      }
    case Stop => QueueLoses(s, e, m);
    case ClearFinish(_) => QueueLoses(s, e, m);
    case Vanish => QueueLoses(s, e, m);
    case CancelPending(_) => QueueLoses(s, e, m);
    case _ => OthersDrop(s, e, m);
  }

  lemma FinallyLoses(l: Ledger, o: Outcome, m: nat)
    requires m !in l.fate && (o.Abandons? || o.OrphansPopped? || o.HandsOff? ==> l.queue != [])
    ensures var l' := FinallyLedger(l, o);
            && (m in l'.fate ==> l'.fate[m] != Cancelled)
            && (m in l'.fate && l'.fate[m] == Cleared <==> m in l.queue && o.Discards?)
  {
  }

  lemma QueueLoses(s: State, e: Event, m: nat)
    requires m !in s.ledger.fate && (e.Stop? || e.ClearFinish? || e.Vanish? || e.CancelPending?)
    ensures IsNow(Step(s, e), m, Cancelled) <==> e == CancelPending(m) && m in s.ledger.queue
    ensures IsNow(Step(s, e), m, Cleared) <==> m in s.ledger.queue && EndsQueue(s, e)
  {
  }

  lemma OthersDrop(s: State, e: Event, m: nat)
    requires m !in s.ledger.fate
    requires !e.TurnFinally? && !e.Stop? && !e.ClearFinish? && !e.Vanish? && !e.CancelPending?
    ensures m in Step(s, e).ledger.fate ==> Step(s, e).ledger.fate[m] == Dropped
  {
  }

  // After the Stop a POST claims the slot and a message is parked behind it; the
  // POST gives up.
  const SENT_LATER: seq<Event> := [Stop, PostClaim, PostClaim]
  const GIVEN_UP: seq<Event> := [PostEnter(1, true), ClaimRelease(1), TurnFinally(0, None)]

  // The stopped turn then clears a message that was sent after the Stop.
  lemma LaterMessageIsCleared()
    ensures var stopped := Run(Init(0), START + [Stop]);
            var s := Run(Init(0), START + SENT_LATER + GIVEN_UP);
            && stopped.ledger.next == 0 && stopped.ledger.queue == []
            && 0 in s.ledger.fate && s.ledger.fate[0] == Cleared && Quiet(s) && !s.log.faulted
  {
    NothingParkedAtStop();
    InTwo(SENT_LATER, GIVEN_UP);
    RunThree(Started(), SENT_LATER[0], SENT_LATER[1], SENT_LATER[2]);
    ParksLater();
    GivesUp(Run(Started(), SENT_LATER));
  }

  lemma NothingParkedAtStop()
    ensures Run(Init(0), START + [Stop]).ledger == Ledger([], [], map[], 0)
  {
    Starts();
    RunAppend(Init(0), START, [Stop]);
    assert Run(Started(), [Stop]) == StopStep(Started());
  }

  lemma ParksLater()
    ensures var s := Step(Step(Step(Started(), Stop), PostClaim), PostClaim);
            && s.core == Core(Slot(Some(1), false, {0}, 2), Started().core.actors[1 := PostWaiting],
                              [TurnTicket(1)], false)
            && s.ledger == Ledger([0], [], map[], 1) && s.row == Started().row && s.log == Started().log
  {
    var s1 := Step(Started(), Stop);
    assert s1.core.slot == Slot(None, false, {0}, 1) && s1.ledger == Ledger([], [], map[], 0);
    var s2 := Step(s1, PostClaim);
    assert s2.core.slot == Slot(Some(1), false, {0}, 2) && s2.ledger == s1.ledger;
  }

  lemma GivesUp(s: State)
    requires s.core == Core(Slot(Some(1), false, {0}, 2), Started().core.actors[1 := PostWaiting],
                            [TurnTicket(1)], false)
    requires s.ledger == Ledger([0], [], map[], 1) && s.row == Started().row && s.log == Started().log
    ensures var r := Run(s, GIVEN_UP);
            0 in r.ledger.fate && r.ledger.fate[0] == Cleared && Quiet(r) && !r.log.faulted
  {
    RunThree(s, GIVEN_UP[0], GIVEN_UP[1], GIVEN_UP[2]);
    var s1 := PostEnterStep(s, 1, true);
    assert Step(s, GIVEN_UP[0]) == s1;
    var s2 := ClaimReleaseStep(s1, 1);
    assert Step(s1, GIVEN_UP[1]) == s2;
    StoppedSettles(s2);
  }

  lemma StoppedSettles(s: State)
    requires s.core == Core(Slot(None, false, {0}, 2), Started().core.actors, [], false)
    requires s.ledger == Ledger([0], [], map[], 1) && !s.log.faulted && s.row.Some?
    ensures var r := Step(s, TurnFinally(0, None));
            0 in r.ledger.fate && r.ledger.fate[0] == Cleared && Quiet(r) && !r.log.faulted
  {
  }

  // With no turn in the slot, Stop changes nothing.
  lemma StopWithoutTurn(s: State)
    requires !HasTurn(s)
    ensures Step(s, Stop) == s
  {
  }
}
