// What is left behind when the last turn has gone: turn_end has been
// published, `running` reads 0 and nothing is parked, except for the recorded
// reasons; and no turn ever writes its session into another generation.
module TurnDuty {
  import opened Wrappers
  import opened Abort
  import opened TurnProtocol
  import opened TurnExclusion

  ghost predicate Nobody(s: State) {
    forall c :: c !in s.core.actors
  }

  // No owner, no unwinding run, no waiter.
  ghost predicate Quiet(s: State) {
    !HasTurn(s) && Nobody(s)
  }

  // A claim let go, a drained follow-up overtaken by /clear or DELETE, or a
  // handler that could not settle.
  predicate EndedSilently(l: Log) {
    ClaimReleased in l.silent || StaleDrain in l.silent || LaunchLost in l.silent || SettleLost in l.silent
  }

  // The slot is never occupied by a controller nothing holds, unless storage
  // failed between a handoff and the drainer.
  ghost predicate LeakInv(s: State) {
    !s.log.leaked && HasTurn(s) ==> s.core.slot.occupant.value in s.core.actors
  }

  ghost predicate DutyInv(s: State) {
    && (!s.log.leaked && s.log.owed && Nobody(s) ==> EndedSilently(s.log))
    && (!s.log.leaked && s.ledger.queue != [] && Nobody(s) ==> exists r :: r in s.log.silent)
  }

  // As long as no storage call fails and the generation stays the same.
  predicate Clean(s: State) {
    !s.log.faulted && !s.log.bumped && !s.log.leaked
  }

  predicate SameGen(a: Actor, gen: nat) {
    match a
    case DrainWaiting(_, g, _) => g == gen
    case Launching(g, _, _, _, _) => g == gen
    case Streaming(t) => t.gen == gen
    case Failing(_) => false
    case Crashed(_) => false
    case _ => true
  }

  ghost predicate RunningInv(s: State) {
    Clean(s) ==>
      && s.row.Some?
      && (forall c :: c in s.core.actors ==> SameGen(s.core.actors[c], s.row.value.gen))
      && (s.row.value.running && Nobody(s) ==> ClaimReleased in s.log.silent)
      && (forall c :: c in s.core.actors && s.core.actors[c].DrainWaiting? ==> !s.row.value.running)
  }

  ghost predicate TidyInv(s: State) {
    Inv(s) && LeakInv(s) && DutyInv(s) && RunningInv(s)
  }

  // Whoever is still there is somebody.
  lemma Somebody(s: State, c: Controller)
    ensures c in s.core.actors ==> !Nobody(s)
    ensures HasTurn(s) && s.core.slot.occupant.value in s.core.actors ==> !Nobody(s)
  {
  }

  ghost predicate Settled(s: State) {
    LeakInv(s) && DutyInv(s) && RunningInv(s)
  }

  lemma PostTidy(s: State, e: Event)
    requires TidyInv(s) && (e.PostClaim? || e.PostEnter? || e.ClaimRelease?)
    ensures Settled(Step(s, e))
  {
    Somebody(s, 0);
    if e.PostEnter? || e.ClaimRelease? { Somebody(s, e.c); Somebody(Step(s, e), e.c); }
    Somebody(Step(s, e), s.core.slot.next);
  }

  // A turn about to launch has no drained follow-up anywhere in the lock.
  lemma NoDrainBehind(s: State, c: Controller)
    requires Inv(s) && AtHead(s.core, c)
    ensures forall d :: d in s.core.actors && s.core.actors[d].DrainWaiting? ==> d == c
  {
    forall d | d in s.core.actors && s.core.actors[d].DrainWaiting? ensures d == c {
      var j :| 0 <= j < |s.core.lock| && s.core.lock[j] == TurnTicket(d);
      if j > 0 { assert Drains(s.core, s.core.lock[j].c); }
    }
  }

  lemma LaunchTidy(s: State, e: Event)
    requires TidyInv(s) && e.LaunchCommit?
    ensures Settled(Step(s, e))
  {
    Somebody(s, e.c);
    Somebody(Step(s, e), e.c);
    Somebody(Step(s, e), s.core.slot.next);
    if Enabled(s, e.c, e) { NoDrainBehind(s, e.c); }
  }

  lemma DrainEnterLeak(s: State, c: Controller, fault: bool)
    requires TidyInv(s) && Enabled(s, c, DrainEnter(c, fault))
    ensures LeakInv(DrainEnterStep(s, c, fault)) && DutyInv(DrainEnterStep(s, c, fault))
  {
    Somebody(s, c);
    Somebody(DrainEnterStep(s, c, fault), c);
  }

  lemma DrainEnterRunning(s: State, c: Controller, fault: bool)
    requires TidyInv(s) && Enabled(s, c, DrainEnter(c, fault))
    ensures RunningInv(DrainEnterStep(s, c, fault))
  {
    Somebody(s, c);
  }

  lemma DrainTidy(s: State, e: Event)
    requires TidyInv(s) && e.DrainEnter?
    ensures Settled(Step(s, e))
  {
    if Enabled(s, e.c, e) {
      DrainEnterLeak(s, e.c, e.fault);
      DrainEnterRunning(s, e.c, e.fault);
    }
  }

  lemma DrainFailTidy(s: State, e: Event)
    requires TidyInv(s) && e.DrainFail?
    ensures Settled(Step(s, e))
  {
    Somebody(s, e.c);
    Somebody(Step(s, e), e.c);
    Somebody(Step(s, e), s.core.slot.next);
  }

  lemma DriverTidy(s: State, e: Event)
    requires TidyInv(s) && e.Driver?
    ensures Settled(Step(s, e))
  {
    if Enabled(s, e.c, e) { DriverKeepsTidy(s, e.c, e.ev); }
  }

  lemma DriverKeepsTidy(s: State, c: Controller, ev: DriverEvent)
    requires TidyInv(s) && Enabled(s, c, Driver(c, ev))
    ensures Settled(DriverStep(s, c, ev))
  {
    Somebody(s, c);
    Somebody(DriverStep(s, c, ev), c);
  }

  lemma FinallyLeak(s: State, c: Controller, cut: Option<Cut>)
    requires TidyInv(s) && Enabled(s, c, TurnFinally(c, cut))
    ensures LeakInv(FinallyStep(s, c, cut))
  {
    if c !in s.core.slot.aborted { UnstoppedOwns(s, c); }
  }

  lemma FinallyDuty(s: State, c: Controller, cut: Option<Cut>)
    requires TidyInv(s) && Enabled(s, c, TurnFinally(c, cut))
    ensures DutyInv(FinallyStep(s, c, cut))
  {
    var s' := FinallyStep(s, c, cut);
    var o := OutcomeOf(s, c, s.core.actors[c].turn, cut);
    if c !in s.core.slot.aborted { UnstoppedOwns(s, c); }
    FinallyLeak(s, c, cut);
    Somebody(s', c);
    Somebody(s', s.core.slot.next);
    if o.Keeps? { assert LoginDead in s'.log.silent; }
    if o.Abandons? { assert ProjectMissing in s'.log.silent; }
  }

  lemma FinallyRunning(s: State, c: Controller, cut: Option<Cut>)
    requires TidyInv(s) && Enabled(s, c, TurnFinally(c, cut))
    ensures RunningInv(FinallyStep(s, c, cut))
  {
    var s' := FinallyStep(s, c, cut);
    FinallyLeak(s, c, cut);
    Somebody(s', c);
    Somebody(s', s.core.slot.next);
  }

  lemma FinallyTidy(s: State, e: Event)
    requires TidyInv(s) && e.TurnFinally?
    ensures Settled(Step(s, e))
  {
    if Enabled(s, e.c, e) {
      FinallyLeak(s, e.c, e.cut);
      FinallyDuty(s, e.c, e.cut);
      FinallyRunning(s, e.c, e.cut);
    }
  }

  lemma CrashTidy(s: State, e: Event)
    requires TidyInv(s) && e.CrashHandler?
    ensures Settled(Step(s, e))
  {
    Somebody(s, e.c);
    Somebody(Step(s, e), e.c);
    Somebody(Step(s, e), s.core.slot.next);
  }

  lemma EnvironmentTidy(s: State, e: Event)
    requires TidyInv(s)
    requires || e.Stop? || e.CancelTask? || e.ClearRead? || e.ClearStop? || e.ClearFinish?
             || e.Vanish? || e.ProjectVanish? || e.CancelPending?
    ensures Settled(Step(s, e))
  {
  }

  lemma LockTidy(s: State, e: Event)
    requires TidyInv(s) && (e.DeleteBegin? || e.DeleteEnd? || e.OtherTask? || e.GitArrive? || e.GitEnter? || e.GitExit?)
    ensures Settled(Step(s, e))
  {
  }

  lemma TidyStep(s: State, e: Event)
    requires TidyInv(s)
    ensures TidyInv(Step(s, e))
  {
    StepKeeps(s, e);
    match e
    case PostClaim => PostTidy(s, e);
    case PostEnter(_, _) => PostTidy(s, e);
    case ClaimRelease(_) => PostTidy(s, e);
    case LaunchCommit(_, _) => LaunchTidy(s, e);
    case DrainEnter(_, _) => DrainTidy(s, e);
    case DrainFail(_, _) => DrainFailTidy(s, e);
    case Driver(_, _) => DriverTidy(s, e);
    case TurnFinally(_, _) => FinallyTidy(s, e);
    case CrashHandler(_, _) => CrashTidy(s, e);
    case DeleteBegin => LockTidy(s, e);
    case DeleteEnd => LockTidy(s, e);
    case OtherTask => LockTidy(s, e);
    case GitArrive => LockTidy(s, e);
    case GitEnter => LockTidy(s, e);
    case GitExit => LockTidy(s, e);
    case _ => EnvironmentTidy(s, e);
  }

  lemma {:induction false} TidyRun(s: State, es: seq<Event>)
    requires TidyInv(s)
    ensures TidyInv(Run(s, es))
    decreases |es|
  {
    if es != [] {
      TidyStep(s, es[0]);
      TidyRun(Step(s, es[0]), es[1..]);
    }
  }

  lemma Reachable(gen: nat, es: seq<Event>)
    ensures TidyInv(Run(Init(gen), es))
  {
    InitInv(gen);
    TidyRun(Init(gen), es);
  }

  // ---------- what is left behind ----------

  // The slot is never held by a controller that no code holds.
  lemma NoLeakedSlot(gen: nat, es: seq<Event>)
    requires var s := Run(Init(gen), es); !s.log.leaked && HasTurn(s)
    ensures var s := Run(Init(gen), es); s.core.slot.occupant.value in s.core.actors
  {
    Reachable(gen, es);
  }

  // When nobody is left, a turn_end followed the last turn start, unless a claim
  // was let go without launching, the generation moved on or the task vanished
  // during a drain, or a last-resort handler could not write.
  lemma TurnEndNotLost(gen: nat, es: seq<Event>)
    requires var s := Run(Init(gen), es); Quiet(s) && !s.log.leaked && !EndedSilently(s.log)
    ensures !Run(Init(gen), es).log.owed
  {
    Reachable(gen, es);
  }

  // With no storage failure and no generation change, `running` reads 0 then too.
  lemma RunningSettles(gen: nat, es: seq<Event>)
    requires var s := Run(Init(gen), es); Quiet(s) && Clean(s) && ClaimReleased !in s.log.silent
    ensures var s := Run(Init(gen), es); s.row.Some? && !s.row.value.running
  {
    Reachable(gen, es);
  }

  // Nor is a follow-up left parked with nobody to run it, unless something that
  // is on record happened since the last launch.
  lemma NoStrandedFollowUp(gen: nat, es: seq<Event>)
    requires var s := Run(Init(gen), es); Quiet(s) && !s.log.leaked && s.log.silent == {}
    ensures Run(Init(gen), es).ledger.queue == []
  {
    Reachable(gen, es);
  }

  // A turn that ends un-stopped, un-superseded, in its own generation, with its
  // login alive and its rows present always gets a controller from the handoff;
  // it frees the slot exactly when nothing is parked, and otherwise the oldest
  // follow-up is queued on the lock holding it.
  lemma CleanEndingHandsOff(s: State, c: Controller)
    requires Inv(s) && Enabled(s, c, TurnFinally(c, None)) && c !in s.core.slot.aborted
    requires var t := s.core.actors[c].turn; !Advanced(s, t.gen) && !t.deadLogin && s.project
    ensures var s' := FinallyStep(s, c, None);
            && Handoff(s.core.slot, c).1.Some?
            && (s'.core.slot.occupant.None? <==> s.ledger.queue == [])
            && (s.ledger.queue != [] ==>
                  && HasTurn(s') && s'.core.slot.occupant.value in s'.core.actors
                  && s'.core.actors[s'.core.slot.occupant.value].DrainWaiting?
                  && s'.core.actors[s'.core.slot.occupant.value].msg == s.ledger.queue[0]
                  && s'.ledger.queue == s.ledger.queue[1..]
                  && TurnTicket(s'.core.slot.occupant.value) in s'.core.lock)
            && (s.ledger.queue == [] ==> !s'.log.owed)
  {
    UnstoppedOwns(s, c);
    var n := s.core.slot.next;
    var s' := FinallyStep(s, c, None);
    if s.ledger.queue != [] { assert s'.core.lock[|s.core.lock|] == TurnTicket(n); }
  }

  // One that ends in a dead login or a spent limit leaves the queue as it is.
  lemma DeadLoginKeepsQueue(s: State, c: Controller, cut: Option<Cut>)
    requires Inv(s) && Enabled(s, c, TurnFinally(c, cut)) && c !in s.core.slot.aborted
    requires var t := s.core.actors[c].turn; !Advanced(s, t.gen) && t.deadLogin
    ensures FinallyStep(s, c, cut).ledger == s.ledger
    ensures cut.None? ==> FinallyStep(s, c, cut).core.slot.occupant.None? && !FinallyStep(s, c, cut).log.owed
  {
    UnstoppedOwns(s, c);
  }

  // ---------- settlement ----------

  // While another controller occupies the slot, a finishing turn changes
  // neither the row, nor the queue, nor the slot, nor takes over turn_end;
  // storage failing part way through makes no difference.
  lemma SupersededTouchesNothing(s: State, c: Controller, cut: Option<Cut>)
    requires Enabled(s, c, TurnFinally(c, cut)) && Superseded(s, c)
    ensures var s' := FinallyStep(s, c, cut);
            s'.row == s.row && s'.ledger == s.ledger && s'.core.slot == s.core.slot && s'.log.owed == s.log.owed
  {
  }

  // Nor does it ever write to a row of another generation.
  lemma OtherGenerationUntouched(s: State, c: Controller, cut: Option<Cut>)
    requires Enabled(s, c, TurnFinally(c, cut)) && s.row.Some? && s.row.value.gen != s.core.actors[c].turn.gen
    ensures FinallyStep(s, c, cut).row == s.row
  {
  }

  predicate OwnSession(session: Option<Session>, gen: nat) {
    session.Some? ==> session.value.gen == gen
  }

  predicate ActorSession(a: Actor) {
    match a
    case Launching(g, session, _, _, _) => OwnSession(session, g)
    case Streaming(t) => OwnSession(t.session, t.gen)
    case _ => true
  }

  ghost predicate SessionInv(s: State) {
    && (s.row.Some? ==> OwnSession(s.row.value.session, s.row.value.gen))
    && (forall c :: c in s.core.actors ==> ActorSession(s.core.actors[c]))
  }

  lemma SessionFinally(s: State, e: Event)
    requires SessionInv(s) && e.TurnFinally?
    ensures SessionInv(Step(s, e))
  {
    if Enabled(s, e.c, e) { SessionSettled(s, e.c, e.cut); }
  }

  lemma SessionSettled(s: State, c: Controller, cut: Option<Cut>)
    requires SessionInv(s) && Enabled(s, c, TurnFinally(c, cut))
    ensures SessionInv(FinallyStep(s, c, cut))
  {
  }

  lemma SessionEnter(s: State, e: Event)
    requires SessionInv(s) && (e.PostEnter? || e.DrainEnter?)
    ensures SessionInv(Step(s, e))
  {
  }

  lemma SessionMove(s: State, e: Event)
    requires SessionInv(s) && (e.LaunchCommit? || e.Driver? || e.DrainFail?)
    ensures SessionInv(Step(s, e))
  {
  }

  lemma SessionRest(s: State, e: Event)
    requires SessionInv(s) && !e.TurnFinally?
    requires !(e.PostEnter? || e.LaunchCommit? || e.DrainEnter? || e.Driver? || e.DrainFail?)
    ensures SessionInv(Step(s, e))
  {
  }

  lemma SessionStep(s: State, e: Event)
    requires SessionInv(s)
    ensures SessionInv(Step(s, e))
  {
    if e.TurnFinally? { SessionFinally(s, e); }
    else if e.PostEnter? || e.DrainEnter? { SessionEnter(s, e); }
    else if e.LaunchCommit? || e.Driver? || e.DrainFail? { SessionMove(s, e); }
    else { SessionRest(s, e); }
  }

  // In every run the session on the row was opened by a turn whose generation
  // has the row's number.  A late /clear can use a number twice; see TurnClears.
  lemma {:induction false} SessionsStayInTheirGeneration(s: State, es: seq<Event>)
    requires SessionInv(s)
    ensures SessionInv(Run(s, es))
    decreases |es|
  {
    if es != [] {
      SessionStep(s, es[0]);
      SessionsStayInTheirGeneration(Step(s, es[0]), es[1..]);
    }
  }
}
