// Whose settlement reaches the row: what a finishing turn writes, what it
// leaves alone while another turn occupies the slot, and where `superseded` is
// not enough because the successor has already finished.
module TurnSettlement {
  import opened Wrappers
  import opened Abort
  import opened TurnProtocol
  import opened TurnExclusion
  import opened TurnDuty
  import opened TurnWitnesses

  // ---------- exactly when a settlement writes ----------

  predicate Differs(r: Row, t: Turn) {
    r.running || r.session != t.session || r.awaiting != t.didOpen
  }

  // The row changes exactly when the turn's generation is the row's, no other
  // controller is in the slot, the write does not fail, and there is something
  // to change.
  lemma RowSettlesExactly(s: State, c: Controller, cut: Option<Cut>)
    requires Enabled(s, c, TurnFinally(c, cut))
    ensures var t := s.core.actors[c].turn;
            Step(s, TurnFinally(c, cut)).row != s.row <==>
              && s.row.Some? && s.row.value.gen == t.gen && Differs(s.row.value, t)
              && !Superseded(s, c) && cut != Some(AtSettle)
  {
  }

  lemma SessionChangesExactly(s: State, c: Controller, cut: Option<Cut>)
    requires Enabled(s, c, TurnFinally(c, cut)) && s.row.Some?
    ensures var t := s.core.actors[c].turn;
            var s' := Step(s, TurnFinally(c, cut));
            s'.row.Some? &&
            (s'.row.value.session != s.row.value.session <==>
              && s.row.value.gen == t.gen && s.row.value.session != t.session
              && !Superseded(s, c) && cut != Some(AtSettle))
  {
  }

  // ---------- a successor that has already finished ----------

  // Controller 0 is stopped while it streams; controller 1 claims, runs and
  // settles with session 7; then controller 0 unwinds, finds the slot free and
  // sets the row's session back to its own.
  const OVERTAKEN: seq<Event> := [Driver(0, Opened(3)), Stop, PostClaim, PostEnter(1, false)]
  const SUCCESSOR: seq<Event> := [LaunchCommit(1, false), Driver(1, Opened(7)), TurnFinally(1, None)]

  lemma FinishedSuccessorIsOverwritten()
    ensures var es := START + OVERTAKEN + SUCCESSOR;
            var s, s' := Run(Init(0), es), Run(Init(0), es + [TurnFinally(0, None)]);
            && Clean(s') && Quiet(s') && s'.row.Some? && s.row.Some?
            && s.row.value.session == Some(Session(0, 7)) && s'.row.value.session == Some(Session(0, 3))
  {
    InTwo(OVERTAKEN, SUCCESSOR);
    SuccessorLaunches();
    SuccessorSettles(Run(Started(), OVERTAKEN));
    RunAppend(Init(0), START + OVERTAKEN + SUCCESSOR, [TurnFinally(0, None)]);
    OldTurnSettles(Run(Init(0), START + OVERTAKEN + SUCCESSOR));
  }

  // The stopped turn of the witness.
  function Stopped(): Actor {
    Streaming(Turn(0, Some(Session(0, 3)), true, {}, {}, false))
  }

  lemma SuccessorLaunches()
    ensures Run(Started(), OVERTAKEN) == Started().(
              core := Core(Slot(Some(1), false, {0}, 2),
                           map[0 := Stopped(), 1 := Launching(0, None, false, None, false)],
                           [TurnTicket(1)], false),
              row := Some(Row(0, true, None, false, true)))
  {
    var s1 := Step(Started(), OVERTAKEN[0]);
    var s2 := Step(s1, OVERTAKEN[1]);
    var s3 := Step(s2, OVERTAKEN[2]);
    assert Run(Started(), OVERTAKEN) == Run(s1, OVERTAKEN[1..]);
    assert OVERTAKEN[1..][1..] == OVERTAKEN[2..] && Run(s1, OVERTAKEN[1..]) == Run(s2, OVERTAKEN[2..]);
    assert OVERTAKEN[2..][1..] == [OVERTAKEN[3]] && Run(s2, OVERTAKEN[2..]) == Run(s3, [OVERTAKEN[3]]);
    assert Run(s3, [OVERTAKEN[3]]) == Step(s3, OVERTAKEN[3]);
    assert s1.core.actors == map[0 := Stopped()] && s1.row == Some(Row(0, true, None, false, true));
    assert s2.core.slot == Slot(None, false, {0}, 1) && s2.ledger == Started().ledger;
    assert s3.core.slot == Slot(Some(1), false, {0}, 2);
  }

  lemma SuccessorSettles(s: State)
    requires s == Started().(
               core := Core(Slot(Some(1), false, {0}, 2),
                            map[0 := Stopped(), 1 := Launching(0, None, false, None, false)],
                            [TurnTicket(1)], false),
               row := Some(Row(0, true, None, false, true)))
    ensures Run(s, SUCCESSOR) == Started().(
              core := Core(Slot(None, false, {0}, 3), map[0 := Stopped()], [], false),
              row := Some(Row(0, false, Some(Session(0, 7)), true, true)),
              log := Log(false, {}, false, false, false))
  {
    var s1 := Step(s, SUCCESSOR[0]);
    var s2 := Step(s1, SUCCESSOR[1]);
    assert SUCCESSOR[1..][1..] == [SUCCESSOR[2]];
    assert Run(s, SUCCESSOR) == Run(s1, SUCCESSOR[1..]) == Run(s2, [SUCCESSOR[2]]) == Step(s2, SUCCESSOR[2]);
    assert s1.core.actors == map[0 := Stopped(), 1 := Streaming(Turn(0, None, false, {}, {}, false))];
    assert s2.core == Core(
      Slot(Some(1), false, {0}, 2),
      map[0 := Stopped(), 1 := Streaming(Turn(0, Some(Session(0, 7)), true, {}, {}, false))], [], false);
  }

  lemma OldTurnSettles(s: State)
    requires s == Started().(
               core := Core(Slot(None, false, {0}, 3), map[0 := Stopped()], [], false),
               row := Some(Row(0, false, Some(Session(0, 7)), true, true)),
               log := Log(false, {}, false, false, false))
    ensures var s' := Run(s, [TurnFinally(0, None)]);
            Clean(s') && Quiet(s') && s'.row == Some(Row(0, false, Some(Session(0, 3)), true, true))
  {
    assert Run(s, [TurnFinally(0, None)]) == Step(s, TurnFinally(0, None));
  }

  // ---------- while a controller stays the occupant ----------

  // A step of other code that neither writes the row on purpose (a launch, the
  // drainer's failsafe, /clear, cancel, delete) nor touches the queue.
  predicate Bystands(d: Controller, e: Event) {
    match e
    case TurnFinally(c, _) => c != d
    case CrashHandler(c, _) => c != d
    case Driver(c, _) => c != d
    case ClaimRelease(c) => c != d
    case PostEnter(c, _) => c != d
    case DrainEnter(c, _) => c != d
    case ProjectVanish => true
    case GitArrive => true
    case GitEnter => true
    case GitExit => true
    case OtherTask => true
    case _ => false
  }

  predicate SettledColumnsKept(s: State, s': State) {
    && (s'.row.Some? <==> s.row.Some?)
    && (s.row.Some? ==> s'.row.value.gen == s.row.value.gen && s'.row.value.running == s.row.value.running
                        && s'.row.value.session == s.row.value.session)
  }

  // Nothing the occupant relies on has changed.
  predicate Shielded(s: State, s': State) {
    && s'.core.slot.occupant == s.core.slot.occupant && s'.core.slot.aborted == s.core.slot.aborted
    && s'.core.slot.deleting == s.core.slot.deleting
    && s'.ledger.queue == s.ledger.queue
    && SettledColumnsKept(s, s')
  }

  lemma ShieldFinally(s: State, d: Controller, c: Controller, cut: Option<Cut>)
    requires Owns(s, d) && c != d && Enabled(s, c, TurnFinally(c, cut))
    ensures Shielded(s, FinallyStep(s, c, cut)) && FinallyStep(s, c, cut).row == s.row
  {
  }

  lemma ShieldRest(s: State, d: Controller, e: Event)
    requires Owns(s, d) && Bystands(d, e) && !e.TurnFinally?
    ensures Shielded(s, Step(s, e))
    ensures !e.Driver? ==> Step(s, e).row == s.row
  {
  }

  lemma ShieldStep(s: State, d: Controller, e: Event)
    requires Owns(s, d) && Bystands(d, e)
    ensures Shielded(s, Step(s, e))
    ensures !e.Driver? ==> Step(s, e).row == s.row
  {
    match e
    case TurnFinally(c, cut) => if Enabled(s, c, e) { ShieldFinally(s, d, c, cut); }
    case _ => ShieldRest(s, d, e);
  }

  // Over any run in which only bystanders move, the occupant keeps the slot, the
  // queue, and the row's running flag and session; and the whole row, awaiting
  // included, if no other turn's driver emits anything.
  lemma {:induction false} OccupantShielded(s: State, d: Controller, es: seq<Event>)
    requires Owns(s, d) && forall e :: e in es ==> Bystands(d, e)
    ensures Shielded(s, Run(s, es))
    ensures (forall e :: e in es ==> !e.Driver?) ==> Run(s, es).row == s.row
    decreases |es|
  {
    if es != [] {
      assert es[0] in es;
      assert forall e :: e in es[1..] ==> e in es;
      ShieldStep(s, d, es[0]);
      OccupantShielded(Step(s, es[0]), d, es[1..]);
    }
  }

  // In every run: as long as a controller is the occupant, another turn's
  // finally changes neither row nor queue nor slot.
  lemma NoFinallyReachesOccupant(gen: nat, es: seq<Event>, k: nat, d: Controller)
    requires k < |es| && es[k].TurnFinally? && es[k].c != d && Owns(Run(Init(gen), es[..k]), d)
    ensures var s, s' := Run(Init(gen), es[..k]), Run(Init(gen), es[..k + 1]);
            s'.row == s.row && s'.ledger == s.ledger && s'.core.slot == s.core.slot
  {
    RunSnoc(Init(gen), es, k);
  }

  // ---------- the drainer's failsafe ----------

  // The catch behind the drainer writes without looking at the generation or the
  // slot, so it reaches whatever row there is, exactly when something differs.
  lemma CatchWritesExactly(s: State, c: Controller, fault: bool)
    requires Enabled(s, c, DrainFail(c, fault))
    ensures var didOpen := s.core.actors[c].didOpen;
            Step(s, DrainFail(c, fault)).row != s.row <==>
              !fault && s.row.Some? && (s.row.value.running || s.row.value.awaiting != didOpen)
  {
  }

  // A follow-up whose launch is overtaken by /clear and then fails marks the
  // fresh generation as waiting for the user.
  const DRAINING: seq<Event> := [Driver(0, Opened(3)), PostClaim, TurnFinally(0, None), DrainEnter(1, false)]
  const FAILED_LAUNCH: seq<Event> := [LaunchCommit(1, true), DrainFail(1, false)]

  lemma CatchReachesNextGeneration()
    ensures var s := Run(Init(0), START + DRAINING + (CLEAR + FAILED_LAUNCH));
            s.row == Some(Row(1, false, None, true, false)) && Quiet(s)
  {
    InTwo(DRAINING, CLEAR + FAILED_LAUNCH);
    DrainLaunches();
    CatchWrites(Run(Started(), DRAINING));
  }

  lemma DrainLaunches()
    ensures var s := Run(Started(), DRAINING);
            && s.core.slot == Slot(Some(1), false, {}, 2) && s.core.lock == [TurnTicket(1)] && !s.core.gitIn
            && s.core.actors == map[1 := Launching(0, Some(Session(0, 3)), false, Some(0), true)]
            && s.row.Some? && s.row.value.gen == 0 && s.ledger.queue == [] && s.clears == Clears(multiset{}, multiset{})
  {
    var es := DRAINING;
    var s1 := Step(Started(), es[0]);
    assert Run(Started(), es) == Run(s1, [es[1], es[2], es[3]]);
    RunThree(s1, es[1], es[2], es[3]);
    var s2 := Step(s1, es[1]);
    var s3 := Step(s2, es[2]);
    assert s2.ledger == Ledger([0], [], map[], 1);
    assert s3.core == Core(Slot(Some(1), false, {}, 2), map[1 := DrainWaiting(0, 0, true)], [TurnTicket(1)], false);
  }

  lemma CatchWrites(s: State)
    requires s.core.slot == Slot(Some(1), false, {}, 2) && s.core.lock == [TurnTicket(1)] && !s.core.gitIn
    requires s.core.actors == map[1 := Launching(0, Some(Session(0, 3)), false, Some(0), true)]
    requires s.row.Some? && s.row.value.gen == 0 && s.ledger.queue == [] && s.clears == Clears(multiset{}, multiset{})
    ensures var s' := Run(s, CLEAR + FAILED_LAUNCH);
            s'.row == Some(Row(1, false, None, true, false)) && Quiet(s')
  {
    RunAppend(s, CLEAR, FAILED_LAUNCH);
    ClearRuns(s);
    LaunchFails(Run(s, CLEAR));
  }

  lemma LaunchFails(s: State)
    requires s.core.slot == Slot(None, false, {1}, 2) && s.core.lock == [TurnTicket(1)] && !s.core.gitIn
    requires s.core.actors == map[1 := Launching(0, Some(Session(0, 3)), false, Some(0), true)]
    requires s.row == Some(Row(1, false, None, false, false)) && s.ledger.queue == []
    ensures var s' := Run(s, FAILED_LAUNCH);
            s'.row == Some(Row(1, false, None, true, false)) && Quiet(s')
  {
    var s1 := Step(s, FAILED_LAUNCH[0]);
    assert s1.core.actors == map[1 := Failing(true)];
    assert FAILED_LAUNCH[1..] == [FAILED_LAUNCH[1]];
    assert Run(s, FAILED_LAUNCH) == Run(s1, [FAILED_LAUNCH[1]]) == Step(s1, FAILED_LAUNCH[1]);
  }
}
