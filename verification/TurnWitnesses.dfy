// Runs that show why the conditions in TurnExclusion and TurnDuty are there.
module TurnWitnesses {
  import opened Wrappers
  import opened Abort
  import opened TurnProtocol
  import opened TurnDuty

  // A first turn, launched by controller 0.
  const START: seq<Event> := [PostClaim, PostEnter(0, false), LaunchCommit(0, false)]

  function Started(): State {
    State(Core(Slot(Some(0), false, {}, 1), map[0 := Streaming(Turn(0, None, false, {}, {}, false))], [], false),
          Some(Row(0, true, None, false, false)), true, Clears(multiset{}, multiset{}),
          Ledger([], [], map[], 0), Log(true, {}, false, false, false))
  }

  lemma Starts()
    ensures Run(Init(0), START) == Started()
  {
    var s1 := Step(Init(0), PostClaim);
    var s2 := Step(s1, PostEnter(0, false));
    assert Run(Init(0), START) == Run(s1, START[1..]) == Run(s2, START[2..]) == Step(s2, START[2]);
  }

  lemma InTwo(a: seq<Event>, b: seq<Event>)
    ensures Run(Init(0), START + a + b) == Run(Run(Started(), a), b)
  {
    Starts();
    RunAppend(Init(0), START, a);
    RunAppend(Init(0), START + a, b);
  }

  const CLEAR: seq<Event> := [ClearRead, ClearStop(0), ClearFinish(0)]

  lemma ClearRuns(s: State)
    requires s.row.Some? && s.row.value.gen == 0 && s.clears == Clears(multiset{}, multiset{})
    ensures Run(s, CLEAR) == s.(core := s.core.(slot := AbortOccupant(s.core.slot)),
                                row := Some(Row(1, false, None, false, false)),
                                ledger := ClearQueue(s.ledger),
                                log := s.log.(bumped := true))
  {
    RunThree(s, CLEAR[0], CLEAR[1], CLEAR[2]);
    ReadsAndStops(s);
  }

  lemma ReadsAndStops(s: State)
    requires s.row.Some? && s.row.value.gen == 0 && s.clears == Clears(multiset{}, multiset{})
    ensures Step(Step(s, ClearRead), ClearStop(0))
         == s.(core := s.core.(slot := AbortOccupant(s.core.slot)), clears := Clears(multiset{}, multiset{0}))
  {
    assert multiset{} + multiset{0} == multiset{0} && multiset{0} - multiset{0} == multiset{};
    assert Step(s, ClearRead) == s.(clears := Clears(multiset{0}, multiset{}));
  }

  // A turn stopped by /clear is still unwinding when the new generation's
  // `running` reads 0 and its slot is free, so a merge sees no turn and enters.
  lemma StoppedTurnOverlapsGit()
    ensures var s := Run(Init(0), START + CLEAR + [GitArrive, GitEnter]);
            s.core.gitIn && 0 in s.core.actors && s.core.actors[0].Streaming? && 0 in s.core.slot.aborted
  {
    InTwo(CLEAR, [GitArrive, GitEnter]);
    Cleared();
    GitWalksIn(Run(Started(), CLEAR));
  }

  lemma GitWalksIn(s: State)
    requires s.core.lock == [] && !s.core.gitIn && !HasTurn(s) && s.row.Some? && !s.row.value.running
    ensures Run(s, [GitArrive, GitEnter]).core == s.core.(lock := [GitTicket], gitIn := true)
  {
    var s1 := Step(s, GitArrive);
    assert [GitArrive, GitEnter][1..] == [GitEnter];
    assert s1.core.lock == [GitTicket];
    assert Run(s, [GitArrive, GitEnter]) == Run(s1, [GitEnter]) == Step(s1, GitEnter);
  }

  lemma Cleared()
    ensures var s := Run(Started(), CLEAR);
            && s.core == Core(Slot(None, false, {0}, 1), Started().core.actors, [], false)
            && s.row == Some(Row(1, false, None, false, false))
  {
    ClearRuns(Started());
  }

  // Controller 1 claims after a Stop, so the stopped turn leaves everything to
  // it; then the POST gives up.  turn_end is lost and `running` stays on.
  lemma ReleasedClaimLosesTurnEnd()
    ensures var es := START + [Stop, PostClaim, TurnFinally(0, None)] + [PostEnter(1, true), ClaimRelease(1)];
            var s := Run(Init(0), es);
            Quiet(s) && Clean(s) && s.log.owed && s.row.Some? && s.row.value.running
  {
    InTwo([Stop, PostClaim, TurnFinally(0, None)], [PostEnter(1, true), ClaimRelease(1)]);
    LeftToClaim();
    assert [PostEnter(1, true), ClaimRelease(1)][1..] == [ClaimRelease(1)];
  }

  lemma LeftToClaim()
    ensures var s := Run(Started(), [Stop, PostClaim, TurnFinally(0, None)]);
            && s.core == Core(Slot(Some(1), false, {0}, 2), map[1 := PostWaiting], [TurnTicket(1)], false)
            && s.row == Started().row && s.log == Started().log
  {
    var es := [Stop, PostClaim, TurnFinally(0, None)];
    var s1 := Step(Started(), Stop);
    var s2 := Step(s1, PostClaim);
    assert es[1..][1..] == [TurnFinally(0, None)];
    assert s2.core.slot == Slot(Some(1), false, {0}, 2);
    assert Run(Started(), es) == Run(s1, es[1..]) == Run(s2, es[1..][1..]) == Step(s2, TurnFinally(0, None));
  }

  // Marking the task cancelled aborts a waiting follow-up but, unlike Stop, does
  // not clear the queue; the drainer drops its own message and leaves the rest.
  lemma CancelDuringDrainStrandsQueue()
    ensures var es := START + [PostClaim, PostClaim, TurnFinally(0, None)] + [CancelTask, DrainEnter(1, false)];
            var s := Run(Init(0), es);
            Quiet(s) && Clean(s) && s.ledger.queue == [1] && s.log.silent == {StoppedDrain}
  {
    InTwo([PostClaim, PostClaim, TurnFinally(0, None)], [CancelTask, DrainEnter(1, false)]);
    HandedOff();
    assert [CancelTask, DrainEnter(1, false)][1..] == [DrainEnter(1, false)];
  }

  lemma HandedOff()
    ensures var s := Run(Started(), [PostClaim, PostClaim, TurnFinally(0, None)]);
            && s.core == Core(Slot(Some(1), false, {}, 2), map[1 := DrainWaiting(0, 0, false)], [TurnTicket(1)], false)
            && s.ledger.queue == [1] && s.project && s.log == Started().log
            && s.row == Some(Row(0, false, None, false, false))
  {
    var es := [PostClaim, PostClaim, TurnFinally(0, None)];
    var s1 := Step(Started(), PostClaim);
    var s2 := Step(s1, PostClaim);
    assert es[1..][1..] == [TurnFinally(0, None)];
    assert s2 == Started().(ledger := Ledger([0, 1], [], map[], 2));
    assert Run(Started(), es) == Run(s1, es[1..]) == Run(s2, es[1..][1..]) == Step(s2, TurnFinally(0, None));
  }

  // Storage failing between the handoff and the pop leaves the slot to a
  // controller that no code holds, and every later message only queues.
  lemma FailedPopLeaksSlot()
    ensures var es := START + [PostClaim, TurnFinally(0, Some(AfterHandoff))] + [CrashHandler(0, false), PostClaim];
            var s := Run(Init(0), es);
            HasTurn(s) && Nobody(s) && s.ledger.queue == [0, 1] && s.log.owed
  {
    InTwo([PostClaim, TurnFinally(0, Some(AfterHandoff))], [CrashHandler(0, false), PostClaim]);
    Orphaned();
    NobodyHolds(Run(Started(), [PostClaim, TurnFinally(0, Some(AfterHandoff))]));
  }

  lemma NobodyHolds(s: State)
    requires s.core == Core(Slot(Some(1), false, {}, 2), map[0 := Crashed(0)], [], false)
    requires s.ledger == Ledger([0], [], map[], 1) && s.row.Some? && s.log.owed
    ensures var r := Run(s, [CrashHandler(0, false), PostClaim]);
            HasTurn(r) && Nobody(r) && r.ledger.queue == [0, 1] && r.log.owed
  {
    var r1 := Step(s, CrashHandler(0, false));
    assert r1.core == Core(Slot(Some(1), false, {}, 2), map[], [], false);
    assert [CrashHandler(0, false), PostClaim][1..] == [PostClaim];
    assert Run(s, [CrashHandler(0, false), PostClaim]) == Run(r1, [PostClaim]) == Step(r1, PostClaim);
  }

  lemma Orphaned()
    ensures var s := Run(Started(), [PostClaim, TurnFinally(0, Some(AfterHandoff))]);
            && s.core == Core(Slot(Some(1), false, {}, 2), map[0 := Crashed(0)], [], false)
            && s.ledger == Ledger([0], [], map[], 1) && s.row.Some? && s.log.owed
  {
    var es := [PostClaim, TurnFinally(0, Some(AfterHandoff))];
    var s1 := Step(Started(), PostClaim);
    assert s1 == Started().(ledger := Ledger([0], [], map[], 1));
    assert es[1..] == [TurnFinally(0, Some(AfterHandoff))];
    assert Run(Started(), es) == Run(s1, es[1..]) == Step(s1, es[1]);
  }

  const CLEARING: seq<Event> := [PostClaim, PostEnter(0, false), ClearRead, ClearStop(0)]
  const LATE_LAUNCH: seq<Event> := [ClearFinish(0), LaunchCommit(0, false), TurnFinally(0, None)]

  lemma RunThree(s: State, a: Event, b: Event, c: Event)
    ensures Run(s, [a, b, c]) == Step(Step(Step(s, a), b), c)
  {
    assert [a, b, c][1..] == [b, c] && [b, c][1..] == [c] && [c][1..] == [];
    assert Run(Step(Step(s, a), b), [c]) == Step(Step(Step(s, a), b), c);
    assert Run(Step(s, a), [b, c]) == Run(Step(Step(s, a), b), [c]);
  }

  // The launch sets `running` after its await without looking at the generation
  // again, so a turn overtaken by /clear leaves it on in the next generation.
  lemma ClearDuringLaunchLeavesRunning()
    ensures var s := Run(Init(0), CLEARING + LATE_LAUNCH);
            Quiet(s) && s.log.silent == {} && !s.log.faulted && s.row == Some(Row(1, true, None, false, false))
  {
    RunAppend(Init(0), CLEARING, LATE_LAUNCH);
    ClearedWhileLaunching();
    var s := Run(Init(0), CLEARING);
    RunThree(s, LATE_LAUNCH[0], LATE_LAUNCH[1], LATE_LAUNCH[2]);
    LaunchesAfterClear(s);
    EndsAfterClear(Step(Step(s, LATE_LAUNCH[0]), LATE_LAUNCH[1]));
  }

  function LateTurn(): Actor {
    Streaming(Turn(0, None, false, {}, {}, false))
  }

  lemma LaunchesAfterClear(s: State)
    requires s.core == Core(
               Slot(None, false, {0}, 1), map[0 := Launching(0, None, true, None, false)], [TurnTicket(0)], false)
    requires s.row == Some(Row(0, false, None, false, false)) && s.clears == Clears(multiset{}, multiset{0})
    requires s.ledger == Ledger([], [], map[], 0) && s.log == Log(false, {}, false, false, false)
    ensures var r := Step(Step(s, ClearFinish(0)), LaunchCommit(0, false));
            && r.core == Core(Slot(None, false, {0}, 1), map[0 := LateTurn()], [], false)
            && r.row == Some(Row(1, true, None, false, false)) && r.log == Log(true, {}, false, false, true)
  {
    var s1 := Step(s, ClearFinish(0));
    assert s1.row == Some(Row(1, false, None, false, false)) && s1.core == s.core;
  }

  lemma EndsAfterClear(s: State)
    requires s.core == Core(Slot(None, false, {0}, 1), map[0 := LateTurn()], [], false)
    requires s.row == Some(Row(1, true, None, false, false)) && s.log == Log(true, {}, false, false, true)
    ensures var r := Step(s, TurnFinally(0, None));
            Quiet(r) && r.log.silent == {} && !r.log.faulted && r.row == s.row
  {
  }

  lemma ClearedWhileLaunching()
    ensures var s := Run(Init(0), CLEARING);
            && s.core == Core(
                 Slot(None, false, {0}, 1), map[0 := Launching(0, None, true, None, false)], [TurnTicket(0)], false)
            && s.row == Some(Row(0, false, None, false, false)) && s.clears == Clears(multiset{}, multiset{0})
            && s.ledger == Ledger([], [], map[], 0) && s.log == Log(false, {}, false, false, false)
  {
    var s := Step(Init(0), CLEARING[0]);
    RunThree(s, CLEARING[1], CLEARING[2], CLEARING[3]);
    assert CLEARING[1..] == [CLEARING[1], CLEARING[2], CLEARING[3]];
    assert s.core.slot == Slot(Some(0), false, {}, 1);
    ReadsAndStops(Step(s, CLEARING[1]));
  }
}
