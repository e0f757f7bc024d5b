// What /clear promises, that the session it nulls does not come back, and
// exactly when a turn of the wrong generation breaks it: two overlapping
// requests give the same generation number twice.
module TurnClears {
  import opened Wrappers
  import opened Abort
  import opened TurnProtocol
  import opened TurnExclusion
  import opened TurnDuty
  import opened TurnWitnesses

  // The request that read generation `g` is about to write.
  predicate CanFinish(s: State, g: nat) {
    s.row.Some? && g in s.clears.stopped
  }

  predicate NoFinish(es: seq<Event>) {
    forall e :: e in es ==> !e.ClearFinish?
  }

  lemma {:induction false} GenerationKept(s: State, es: seq<Event>)
    requires NoFinish(es)
    ensures Run(s, es).row.Some? ==> s.row.Some? && Run(s, es).row.value.gen == s.row.value.gen
    decreases |es|
  {
    if es != [] {
      assert es[0] in es;
      RowGenerationKept(s, es[0]);
      GenerationKept(Step(s, es[0]), es[1..]);
    }
  }

  lemma RowGenerationKept(s: State, e: Event)
    requires !e.ClearFinish?
    ensures Step(s, e).row.Some? ==> s.row.Some? && Step(s, e).row.value.gen == s.row.value.gen
  {
  }

  // ---------- a turn of generation g + 1 when the late request writes ----------

  // Controller `c` has run a turn of generation `g` and will run no other.
  predicate Tied(s: State, c: Controller, g: nat) {
    && c < s.core.slot.next
    && (c in s.core.actors ==>
          s.core.actors[c].Crashed? || (s.core.actors[c].Streaming? && s.core.actors[c].turn.gen == g))
  }

  lemma TiedStep(s: State, e: Event, c: Controller, g: nat)
    requires Tied(s, c, g)
    ensures Tied(Step(s, e), c, g)
  {
    match e
    case TurnFinally(d, cut) => if Enabled(s, d, e) { TiedFinally(s, d, cut, c, g); }
    case PostClaim => TiedRest(s, e, c, g);
    case PostEnter(_, _) => TiedMove(s, e, c, g);
    case ClaimRelease(_) => TiedMove(s, e, c, g);
    case LaunchCommit(_, _) => TiedMove(s, e, c, g);
    case DrainEnter(_, _) => TiedMove(s, e, c, g);
    case DrainFail(_, _) => TiedMove(s, e, c, g);
    case Driver(_, _) => TiedMove(s, e, c, g);
    case CrashHandler(_, _) => TiedMove(s, e, c, g);
    case _ => TiedRest(s, e, c, g);
  }

  lemma TiedFinally(s: State, d: Controller, cut: Option<Cut>, c: Controller, g: nat)
    requires Tied(s, c, g) && Enabled(s, d, TurnFinally(d, cut))
    ensures Tied(FinallyStep(s, d, cut), c, g)
  {
  }

  lemma TiedMove(s: State, e: Event, c: Controller, g: nat)
    requires Tied(s, c, g)
    requires || e.PostEnter? || e.ClaimRelease? || e.LaunchCommit? || e.DrainEnter? || e.DrainFail?
             || e.Driver? || e.CrashHandler?
    ensures Tied(Step(s, e), c, g)
  {
  }

  lemma TiedRest(s: State, e: Event, c: Controller, g: nat)
    requires Tied(s, c, g) && !e.PostEnter? && !e.ClaimRelease? && !e.LaunchCommit? && !e.DrainEnter?
    requires !e.DrainFail? && !e.Driver? && !e.CrashHandler? && !e.TurnFinally?
    ensures Tied(Step(s, e), c, g)
  {
  }

  lemma {:induction false} TiedRun(s: State, es: seq<Event>, c: Controller, g: nat)
    requires Tied(s, c, g)
    ensures Tied(Run(s, es), c, g)
    decreases |es|
  {
    if es != [] {
      TiedStep(s, es[0], c, g);
      TiedRun(Step(s, es[0]), es[1..], c, g);
    }
  }

  // After the request's write and `es`, the turn's finally changes the row.
  predicate WritesAfter(s: State, g: nat, c: Controller, es: seq<Event>, cut: Option<Cut>) {
    var r := Run(Step(s, ClearFinish(g)), es);
    NoFinish(es) && Enabled(r, c, TurnFinally(c, cut)) && Step(r, TurnFinally(c, cut)).row != r.row
  }

  // ... and puts a session where /clear had left none.
  predicate RestoresAfter(s: State, g: nat, c: Controller, es: seq<Event>) {
    var r := Run(Step(s, ClearFinish(g)), es);
    var r' := Step(r, TurnFinally(c, None));
    && WritesAfter(s, g, c, es, None)
    && r.row.Some? && r.row.value.session.None? && r'.row.Some? && r'.row.value.session.Some?
  }

  predicate Streams(s: State, c: Controller) {
    c in s.core.actors && s.core.actors[c].Streaming?
  }

  // /clear can be undone by a turn that streams when it writes exactly if that
  // turn is of the generation it writes.
  lemma ClearUndoneExactly(s: State, g: nat, c: Controller)
    requires CanFinish(s, g) && Streams(s, c) && c < s.core.slot.next
    ensures (exists es, cut :: WritesAfter(s, g, c, es, cut)) <==> s.core.actors[c].turn.gen == g + 1
    ensures (exists es :: RestoresAfter(s, g, c, es)) <==> s.core.actors[c].turn.gen == g + 1
  {
    var s0 := Step(s, ClearFinish(g));
    var t := s.core.actors[c].turn;
    forall es, cut | WritesAfter(s, g, c, es, cut) ensures t.gen == g + 1 {
      GenerationKept(s0, es);
      TiedRun(s0, es, c, t.gen);
    }
    if t.gen == g + 1 {
      Restores(s0, c);
      assert RestoresAfter(s, g, c, [Stop, Driver(c, Opened(0))]);
    }
  }

  // Whoever is in the slot is stopped, and the turn opens a session and ends.
  lemma Restores(s: State, c: Controller)
    requires s.row.Some? && s.row.value.session.None?
    requires Streams(s, c) && s.core.actors[c].turn.gen == s.row.value.gen
    ensures var r := Run(s, [Stop, Driver(c, Opened(0))]);
            var r' := Step(r, TurnFinally(c, None));
            && Enabled(r, c, TurnFinally(c, None))
            && r.row.Some? && r.row.value.session.None? && r'.row.Some?
            && r'.row.value.session == Some(Session(s.row.value.gen, 0))
  {
    var s1 := Step(s, Stop);
    assert s1.core.actors == s.core.actors && s1.row == s.row && !HasTurn(s1);
    assert [Stop, Driver(c, Opened(0))][1..] == [Driver(c, Opened(0))];
    assert Run(s, [Stop, Driver(c, Opened(0))]) == Run(s1, [Driver(c, Opened(0))]) == Step(s1, Driver(c, Opened(0)));
    OpensAndSettles(s1, c);
  }

  lemma OpensAndSettles(s: State, c: Controller)
    requires s.row.Some? && s.row.value.session.None? && !HasTurn(s)
    requires Streams(s, c) && s.core.actors[c].turn.gen == s.row.value.gen
    ensures var r := Step(s, Driver(c, Opened(0)));
            var r' := Step(r, TurnFinally(c, None));
            && Enabled(r, c, TurnFinally(c, None))
            && r.row.Some? && r.row.value.session.None? && r'.row.Some?
            && r'.row.value.session == Some(Session(s.row.value.gen, 0))
  {
  }

  // ---------- a run ----------

  // Two requests read generation 0; the first one finishes, a turn of
  // generation 1 opens session 5, and the second one finishes.
  const TWO_CLEARS: seq<Event> := [ClearRead, ClearRead, ClearStop(0), ClearStop(0)]
  const TURN_BETWEEN: seq<Event> := [PostClaim, PostEnter(0, false), LaunchCommit(0, false), Driver(0, Opened(5))]

  // The second request is about to finish.
  function Overlapping(): seq<Event> {
    TWO_CLEARS + [ClearFinish(0)] + TURN_BETWEEN
  }

  // No storage call fails, the row has no session after the second request, and
  // the turn then puts its own back.
  lemma SecondClearIsUndone()
    ensures var s := Run(Init(0), Overlapping() + [ClearFinish(0)]);
            var s' := Run(Init(0), Overlapping() + [ClearFinish(0)] + [TurnFinally(0, None)]);
            && s.row == Some(Row(1, false, None, false, false))
            && s'.row == Some(Row(1, false, Some(Session(1, 5)), true, false))
            && Quiet(s') && !s'.log.faulted
  {
    BeforeSecond();
    RunAppend(Init(0), Overlapping(), [ClearFinish(0)]);
    RunAppend(Init(0), Overlapping() + [ClearFinish(0)], [TurnFinally(0, None)]);
    SecondFinishes(Run(Init(0), Overlapping()));
  }

  lemma BeforeSecond()
    ensures var s := Run(Init(0), Overlapping());
            && s.core == Core(Slot(Some(0), false, {}, 1), map[0 := Opener()], [], false)
            && CanFinish(s, 0) && s.ledger == Ledger([], [], map[], 0) && !s.log.faulted
  {
    TwoRead();
    var s1 := Run(Init(0), TWO_CLEARS);
    RunAppend(Init(0), TWO_CLEARS, [ClearFinish(0)]);
    RunAppend(Init(0), TWO_CLEARS + [ClearFinish(0)], TURN_BETWEEN);
    FirstFinishes(s1);
    TurnOpens(Run(s1, [ClearFinish(0)]));
  }

  lemma FirstFinishes(s: State)
    requires s == Init(0).(clears := Clears(multiset{}, multiset{0, 0}))
    ensures Run(s, [ClearFinish(0)]) == Init(1).(clears := Clears(multiset{}, multiset{0}),
                                                 log := Log(false, {}, false, false, true))
  {
    JustFinishes(s);
    assert multiset{0, 0} - multiset{0} == multiset{0};
  }

  lemma TwoRead()
    ensures Run(Init(0), TWO_CLEARS) == Init(0).(clears := Clears(multiset{}, multiset{0, 0}))
  {
    var s := Step(Init(0), TWO_CLEARS[0]);
    assert TWO_CLEARS[1..] == [TWO_CLEARS[1], TWO_CLEARS[2], TWO_CLEARS[3]];
    RunThree(s, TWO_CLEARS[1], TWO_CLEARS[2], TWO_CLEARS[3]);
  }

  // The turn between the two requests.
  function Opener(): Actor {
    Streaming(Turn(1, Some(Session(1, 5)), true, {}, {}, false))
  }

  lemma TurnOpens(s: State)
    requires s.core == Core(Slot(None, false, {}, 0), map[], [], false) && s.ledger == Ledger([], [], map[], 0)
    requires s.row == Some(Row(1, false, None, false, false)) && s.log == Log(false, {}, false, false, true)
    ensures var r := Run(s, TURN_BETWEEN);
            && r.core == Core(Slot(Some(0), false, {}, 1), map[0 := Opener()], [], false)
            && r.row == Some(Row(1, true, None, false, true)) && r.clears == s.clears && r.ledger == s.ledger
            && r.log == Log(true, {}, false, false, true)
  {
    var s1 := Step(s, TURN_BETWEEN[0]);
    assert TURN_BETWEEN[1..] == [TURN_BETWEEN[1], TURN_BETWEEN[2], TURN_BETWEEN[3]];
    RunThree(s1, TURN_BETWEEN[1], TURN_BETWEEN[2], TURN_BETWEEN[3]);
    var s2 := Step(s1, TURN_BETWEEN[1]);
    assert s2.core == Core(
      Slot(Some(0), false, {}, 1), map[0 := Launching(1, None, true, None, false)], [TurnTicket(0)], false);
  }

  lemma SecondFinishes(s: State)
    requires s.core == Core(Slot(Some(0), false, {}, 1), map[0 := Opener()], [], false)
    requires CanFinish(s, 0) && s.ledger == Ledger([], [], map[], 0) && !s.log.faulted
    ensures var s1 := Run(s, [ClearFinish(0)]);
            var s2 := Run(s1, [TurnFinally(0, None)]);
            && s1.row == Some(Row(1, false, None, false, false))
            && s2.row == Some(Row(1, false, Some(Session(1, 5)), true, false))
            && Quiet(s2) && !s2.log.faulted
  {
    JustFinishes(s);
    OpenerSettles(ClearFinishStep(s, 0));
  }

  lemma JustFinishes(s: State)
    requires CanFinish(s, 0)
    ensures Run(s, [ClearFinish(0)]) == ClearFinishStep(s, 0)
  {
  }

  lemma OpenerSettles(s: State)
    requires s.core == Core(Slot(Some(0), false, {}, 1), map[0 := Opener()], [], false)
    requires s.row == Some(Row(1, false, None, false, false)) && s.ledger.queue == [] && !s.log.faulted
    ensures var r := Run(s, [TurnFinally(0, None)]);
            r.row == Some(Row(1, false, Some(Session(1, 5)), true, false)) && Quiet(r) && !r.log.faulted
  {
    assert Run(s, [TurnFinally(0, None)]) == FinallyStep(s, 0, None);
  }

  // ---------- which sessions are new ----------

  predicate Launches(s: State, e: Event, c: Controller) {
    e == LaunchCommit(c, false) && Enabled(s, c, e) && s.row.Some?
  }

  // The driver of a streaming turn reports session `x`.
  predicate Opens(s: State, e: Event, x: Session) {
    && e.Driver? && Enabled(s, e.c, e) && x.gen == s.core.actors[e.c].turn.gen
    && (e.ev == Opened(x.sid) || e.ev == OpenedUnstored(x.sid) || e.ev == Done(x.sid))
  }

  ghost predicate LaunchedIn(s: State, es: seq<Event>, c: Controller) {
    exists j :: 0 <= j < |es| && Launches(Run(s, es[..j]), es[j], c)
  }

  // Session `x` was opened in the run, by a turn launched in it.
  ghost predicate OpenedIn(s: State, es: seq<Event>, x: Session) {
    exists i :: 0 <= i < |es| && Opens(Run(s, es[..i]), es[i], x) && LaunchedIn(s, es[..i], es[i].c)
  }

  predicate IsNew(session: Option<Session>, seen: iset<Session>) {
    session.Some? ==> session.value in seen
  }

  predicate NewActor(a: Actor, c: Controller, g: nat, launched: iset<Controller>, seen: iset<Session>) {
    match a
    case Launching(gen, session, _, _, _) => gen == g ==> IsNew(session, seen)
    case Streaming(t) => t.gen == g ==> c in launched && IsNew(t.session, seen)
    case _ => true
  }

  // What the row and the turns of generation `g` hold was opened by the turns in
  // `launched`.
  ghost predicate AllNew(s: State, g: nat, launched: iset<Controller>, seen: iset<Session>) {
    && (s.row.Some? ==> s.row.value.gen == g && IsNew(s.row.value.session, seen))
    && (forall c :: c in s.core.actors ==> NewActor(s.core.actors[c], c, g, launched, seen))
  }

  // One step: `launched` and `opened` grow by what the event does.
  lemma AllNewStep(
    s: State, e: Event, g: nat,
    launched: iset<Controller>, seen: iset<Session>, launched': iset<Controller>, seen': iset<Session>)
    requires AllNew(s, g, launched, seen) && !e.ClearFinish?
    requires launched <= launched' && seen <= seen'
    requires forall c :: Launches(s, e, c) ==> c in launched'
    requires forall x :: Opens(s, e, x) && e.c in launched ==> x in seen'
    ensures AllNew(Step(s, e), g, launched', seen')
  {
    match e
    case TurnFinally(c, cut) => if Enabled(s, c, e) { NewFinally(s, c, cut, g, launched, seen); }
    case Driver(c, ev) => NewDriver(s, e, g, launched, seen, launched', seen');
    case LaunchCommit(c, fault) => NewLaunch(s, e, g, launched, seen, launched', seen');
    case PostEnter(_, _) => NewEnter(s, e, g, launched, seen);
    case DrainEnter(_, _) => NewEnter(s, e, g, launched, seen);
    case _ => NewRest(s, e, g, launched, seen);
  }

  lemma NewFinally(
    s: State, c: Controller, cut: Option<Cut>, g: nat, launched: iset<Controller>, seen: iset<Session>)
    requires AllNew(s, g, launched, seen) && Enabled(s, c, TurnFinally(c, cut))
    ensures AllNew(FinallyStep(s, c, cut), g, launched, seen)
  {
  }

  lemma NewEnter(s: State, e: Event, g: nat, launched: iset<Controller>, seen: iset<Session>)
    requires AllNew(s, g, launched, seen) && (e.PostEnter? || e.DrainEnter?)
    ensures AllNew(Step(s, e), g, launched, seen)
  {
  }

  lemma NewDriver(
    s: State, e: Event, g: nat,
    launched: iset<Controller>, seen: iset<Session>, launched': iset<Controller>, seen': iset<Session>)
    requires AllNew(s, g, launched, seen) && e.Driver?
    requires launched <= launched' && seen <= seen'
    requires forall x :: Opens(s, e, x) && e.c in launched ==> x in seen'
    ensures AllNew(Step(s, e), g, launched', seen')
  {
    if Enabled(s, e.c, e) {
      var t := s.core.actors[e.c].turn;
      assert e.ev.Opened? || e.ev.OpenedUnstored? || e.ev.Done? ==> Opens(s, e, Session(t.gen, e.ev.sid));
    }
  }

  lemma NewLaunch(
    s: State, e: Event, g: nat,
    launched: iset<Controller>, seen: iset<Session>, launched': iset<Controller>, seen': iset<Session>)
    requires AllNew(s, g, launched, seen) && e.LaunchCommit?
    requires launched <= launched' && seen <= seen'
    requires forall c :: Launches(s, e, c) ==> c in launched'
    ensures AllNew(Step(s, e), g, launched', seen')
  {
    if Enabled(s, e.c, e) && s.row.Some? && !e.fault { assert Launches(s, e, e.c); }
  }

  lemma NewRest(s: State, e: Event, g: nat, launched: iset<Controller>, seen: iset<Session>)
    requires AllNew(s, g, launched, seen)
    requires !e.TurnFinally? && !e.Driver? && !e.LaunchCommit? && !e.ClearFinish? && !e.PostEnter? && !e.DrainEnter?
    ensures AllNew(Step(s, e), g, launched, seen)
  {
  }

  ghost function LaunchedBy(s: State, es: seq<Event>): iset<Controller> {
    iset c: Controller | LaunchedIn(s, es, c)
  }

  ghost function OpenedBy(s: State, es: seq<Event>): iset<Session> {
    iset x: Session | OpenedIn(s, es, x)
  }

  lemma HistoryGrows(s: State, es: seq<Event>, k: nat)
    requires k < |es|
    ensures LaunchedBy(s, es[..k]) <= LaunchedBy(s, es[..k + 1])
    ensures OpenedBy(s, es[..k]) <= OpenedBy(s, es[..k + 1])
    ensures forall c :: Launches(Run(s, es[..k]), es[k], c) ==> c in LaunchedBy(s, es[..k + 1])
    ensures forall x :: Opens(Run(s, es[..k]), es[k], x) && es[k].c in LaunchedBy(s, es[..k]) ==>
              x in OpenedBy(s, es[..k + 1])
  {
    var a, b := es[..k], es[..k + 1];
    assert b[..k] == a && b[k] == es[k];
    assert forall j :: 0 <= j < k ==> b[..j] == a[..j];
    forall c | c in LaunchedBy(s, a) ensures c in LaunchedBy(s, b) {
      var j :| 0 <= j < |a| && Launches(Run(s, a[..j]), a[j], c);
      assert Launches(Run(s, b[..j]), b[j], c);
    }
    forall x | x in OpenedBy(s, a) ensures x in OpenedBy(s, b) {
      var i :| 0 <= i < |a| && Opens(Run(s, a[..i]), a[i], x) && LaunchedIn(s, a[..i], a[i].c);
      assert Opens(Run(s, b[..i]), b[i], x) && LaunchedIn(s, b[..i], b[i].c);
    }
    forall c | Launches(Run(s, a), es[k], c) ensures c in LaunchedBy(s, b) {
      assert Launches(Run(s, b[..k]), b[k], c);
    }
    forall x | Opens(Run(s, a), es[k], x) && es[k].c in LaunchedBy(s, a) ensures x in OpenedBy(s, b) {
      assert Opens(Run(s, b[..k]), b[k], x) && LaunchedIn(s, b[..k], b[k].c);
    }
  }

  lemma {:induction false} AllNewRun(s: State, es: seq<Event>, g: nat, k: nat)
    requires NoFinish(es) && k <= |es| && AllNew(s, g, iset{}, iset{})
    ensures AllNew(Run(s, es[..k]), g, LaunchedBy(s, es[..k]), OpenedBy(s, es[..k]))
    decreases k
  {
    if k == 0 {
      assert es[..0] == [];
    } else {
      AllNewRun(s, es, g, k - 1);
      HistoryGrows(s, es, k - 1);
      RunSnoc(s, es, k - 1);
      assert es[k - 1] in es;
      AllNewStep(Run(s, es[..k - 1]), es[k - 1], g, LaunchedBy(s, es[..k - 1]), OpenedBy(s, es[..k - 1]),
                 LaunchedBy(s, es[..k]), OpenedBy(s, es[..k]));
    }
  }

  // ---------- exactly when /clear holds ----------

  // A turn that is already of the generation the request is about to write, or
  // is about to be with a session to resume.
  predicate StaleActor(a: Actor, g: nat) {
    match a
    case Launching(gen, session, _, _, _) => gen == g && session.Some?
    case Streaming(t) => t.gen == g
    case _ => false
  }

  predicate Stale(s: State, g: nat) {
    exists c: Controller :: c in s.core.actors && StaleActor(s.core.actors[c], g)
  }

  // Whatever session is on the row after `es` was opened since the request's
  // write, by a turn launched since.
  ghost predicate SessionIsNew(s: State, es: seq<Event>) {
    var r := Run(s, es);
    r.row.Some? && r.row.value.session.Some? ==> OpenedIn(s, es, r.row.value.session.value)
  }

  lemma NewSince(s: State, g: nat, es: seq<Event>)
    requires CanFinish(s, g) && !Stale(s, g + 1) && NoFinish(es)
    ensures SessionIsNew(Step(s, ClearFinish(g)), es)
  {
    var s0 := Step(s, ClearFinish(g));
    forall c | c in s0.core.actors ensures NewActor(s0.core.actors[c], c, g + 1, iset{}, iset{}) {
      assert !StaleActor(s.core.actors[c], g + 1);
    }
    AllNewRun(s0, es, g + 1, |es|);
    assert es[..|es|] == es;
  }

  // A session on the row is new in every continuation without another /clear
  // exactly if no such turn was there when the request wrote.
  lemma ClearHoldsExactly(s: State, g: nat)
    requires Inv(s) && CanFinish(s, g)
    ensures (forall es :: NoFinish(es) ==> SessionIsNew(Step(s, ClearFinish(g)), es)) <==> !Stale(s, g + 1)
  {
    if Stale(s, g + 1) {
      var c :| c in s.core.actors && StaleActor(s.core.actors[c], g + 1);
      var s0 := Step(s, ClearFinish(g));
      if s.core.actors[c].Streaming? { StreamingBringsBack(s0, c); } else { LaunchBringsBack(s0, c); }
    } else {
      forall es | NoFinish(es) ensures SessionIsNew(Step(s, ClearFinish(g)), es) { NewSince(s, g, es); }
    }
  }

  lemma StreamingBringsBack(s: State, c: Controller)
    requires s.row.Some? && s.row.value.session.None?
    requires Streams(s, c) && s.core.actors[c].turn.gen == s.row.value.gen
    ensures exists es :: NoFinish(es) && !SessionIsNew(s, es)
  {
    var a, b := [Stop, Driver(c, Opened(0))], [TurnFinally(c, None)];
    Restores(s, c);
    RunAppend(s, a, b);
    assert Run(Run(s, a), b) == Step(Run(s, a), b[0]);
    assert forall i, d :: 0 <= i < |a + b| ==> !Launches(Run(s, (a + b)[..i]), (a + b)[i], d);
    assert NoFinish(a + b) && !SessionIsNew(s, a + b);
  }

  lemma LaunchBringsBack(s: State, c: Controller)
    requires s.row.Some? && s.row.value.session.None?
    requires c in s.core.actors && s.core.actors[c].Launching? && AtHead(s.core, c)
    requires s.core.actors[c].gen == s.row.value.gen && s.core.actors[c].session.Some?
    ensures exists es :: NoFinish(es) && !SessionIsNew(s, es)
  {
    var es := [LaunchCommit(c, false), Stop, TurnFinally(c, None)];
    var s1 := Step(s, es[0]);
    var s2 := Step(s1, es[1]);
    RunThree(s, es[0], es[1], es[2]);
    assert s2.core.slot.occupant.None? && Streams(s2, c);
    assert Run(s, es).row.value.session == s.core.actors[c].session;
    assert forall i :: 0 <= i < |es| ==> !es[i].Driver?;
    assert NoFinish(es) && !SessionIsNew(s, es);
  }

  // ---------- over runs ----------

  // Every request that writes finds the generation it read, as it does when
  // requests do not overlap.
  predicate InStep(gen: nat, es: seq<Event>) {
    forall k :: 0 <= k < |es| && es[k].ClearFinish? && CanFinish(Run(Init(gen), es[..k]), es[k].gen) ==>
      Run(Init(gen), es[..k]).row.value.gen == es[k].gen
  }

  predicate GenBelow(a: Actor, g: nat) {
    match a
    case Launching(gen, _, _, _, _) => gen <= g
    case Streaming(t) => t.gen <= g
    case _ => true
  }

  ghost predicate Behind(s: State) {
    s.row.Some? ==> forall c :: c in s.core.actors ==> GenBelow(s.core.actors[c], s.row.value.gen)
  }

  lemma BehindStep(s: State, e: Event)
    requires Behind(s)
    requires e.ClearFinish? && CanFinish(s, e.gen) ==> s.row.value.gen == e.gen
    ensures Behind(Step(s, e))
  {
    if e.TurnFinally? { BehindFinally(s, e); } else { BehindRest(s, e); }
  }

  lemma BehindFinally(s: State, e: Event)
    requires Behind(s) && e.TurnFinally?
    ensures Behind(Step(s, e))
  {
  }

  lemma BehindRest(s: State, e: Event)
    requires Behind(s) && !e.TurnFinally?
    requires e.ClearFinish? && CanFinish(s, e.gen) ==> s.row.value.gen == e.gen
    ensures Behind(Step(s, e))
  {
  }

  lemma {:induction false} BehindRun(gen: nat, es: seq<Event>, k: nat)
    requires k <= |es| && InStep(gen, es)
    ensures Behind(Run(Init(gen), es[..k]))
    decreases k
  {
    if k == 0 {
      assert es[..0] == [];
    } else {
      BehindRun(gen, es, k - 1);
      RunSnoc(Init(gen), es, k - 1);
      BehindStep(Run(Init(gen), es[..k - 1]), es[k - 1]);
    }
  }

  // In every run in which each request finds the generation it read: the session
  // on the row was opened after the last /clear, by a turn launched after it.
  lemma NoSessionOutlivesClear(gen: nat, es: seq<Event>, k: nat)
    requires k < |es| && InStep(gen, es)
    requires es[k].ClearFinish? && CanFinish(Run(Init(gen), es[..k]), es[k].gen) && NoFinish(es[k + 1..])
    ensures Run(Init(gen), es) == Run(Run(Init(gen), es[..k + 1]), es[k + 1..])
    ensures SessionIsNew(Run(Init(gen), es[..k + 1]), es[k + 1..])
  {
    var s := Run(Init(gen), es[..k]);
    assert es == es[..k + 1] + es[k + 1..];
    RunAppend(Init(gen), es[..k + 1], es[k + 1..]);
    RunSnoc(Init(gen), es, k);
    BehindRun(gen, es, k);
    NewSince(s, es[k].gen, es[k + 1..]);
  }

  // ---------- an old turn's driver and the new generation ----------

  // The driver's events reach the row whatever its generation is.
  lemma DriverWritesExactly(s: State, c: Controller, ev: DriverEvent)
    requires Enabled(s, c, Driver(c, ev))
    ensures var t := s.core.actors[c].turn;
            Step(s, Driver(c, ev)).row != s.row <==>
              s.row.Some? &&
              match ev
              case Opened(_) => !s.row.value.started
              case Ask(_) => !s.row.value.awaiting
              case Answered(id) => id in t.known && t.asks <= {id} && s.row.value.awaiting
              case _ => false
  {
    if ev.Answered? {
      var asks := s.core.actors[c].turn.asks;
      assert asks - {ev.id} == {} <==> asks <= {ev.id} by {
        if asks - {ev.id} == {} { assert forall a :: a in asks ==> a == ev.id || a in asks - {ev.id}; }
      }
    }
  }

  // Some driver, of whatever generation, has reported a session in the run.
  ghost predicate AnyOpened(s: State, es: seq<Event>) {
    exists i :: 0 <= i < |es| && OpensRow(Run(s, es[..i]), es[i])
  }

  predicate OpensRow(s: State, e: Event) {
    e.Driver? && e.ev.Opened? && Enabled(s, e.c, e)
  }

  lemma StartedStep(s: State, e: Event)
    requires !e.ClearFinish?
    ensures Step(s, e).row.Some? ==>
              s.row.Some? && (Step(s, e).row.value.started <==> s.row.value.started || OpensRow(s, e))
  {
  }

  lemma {:induction false} StartedSince(s: State, es: seq<Event>, k: nat)
    requires NoFinish(es) && k <= |es| && s.row.Some? && !s.row.value.started
    ensures var r := Run(s, es[..k]); r.row.Some? ==> (r.row.value.started <==> AnyOpened(s, es[..k]))
    decreases k
  {
    if k == 0 {
      assert es[..0] == [];
    } else {
      var a, b := es[..k - 1], es[..k];
      StartedSince(s, es, k - 1);
      RunSnoc(s, es, k - 1);
      assert es[k - 1] in es;
      StartedStep(Run(s, a), es[k - 1]);
      assert b[..k - 1] == a && forall i :: 0 <= i < k - 1 ==> b[..i] == a[..i];
      if AnyOpened(s, a) {
        var i :| 0 <= i < |a| && OpensRow(Run(s, a[..i]), a[i]);
        assert OpensRow(Run(s, b[..i]), b[i]);
      }
      if OpensRow(Run(s, a), es[k - 1]) { assert OpensRow(Run(s, b[..k - 1]), b[k - 1]); }
    }
  }

  // The first message after /clear is sent as the first of its generation
  // exactly if no driver has reported a session since, old turns' included.
  lemma FirstMessageIsFirstExactly(s: State, g: nat, es: seq<Event>, c: Controller)
    requires CanFinish(s, g) && NoFinish(es)
    requires var r := Run(Step(s, ClearFinish(g)), es);
             Enabled(r, c, PostEnter(c, false)) && r.row.Some? && !r.core.slot.deleting
    ensures var s0 := Step(s, ClearFinish(g));
            var a := Step(Run(s0, es), PostEnter(c, false)).core.actors;
            c in a && a[c].Launching? && a[c].gen == g + 1 && (a[c].initial <==> !AnyOpened(s0, es))
  {
    var s0 := Step(s, ClearFinish(g));
    GenerationKept(s0, es);
    StartedSince(s0, es, |es|);
    assert es[..|es|] == es;
  }

  const LATE_OPEN: seq<Event> := [Driver(0, Opened(3)), PostClaim, PostEnter(1, false)]

  // A stopped turn's session, reported after /clear, makes the next message a
  // follow-up in a conversation that has no session.
  lemma OldTurnStartsNewGeneration()
    ensures var a := Run(Init(0), START + CLEAR + LATE_OPEN).core.actors;
            1 in a && a[1] == Launching(1, None, false, None, false)
  {
    InTwo(CLEAR, LATE_OPEN);
    ClearRuns(Started());
    var s := Run(Started(), CLEAR);
    RunThree(s, LATE_OPEN[0], LATE_OPEN[1], LATE_OPEN[2]);
    assert s.core.slot == Slot(None, false, {0}, 1);
    var s1 := Step(s, LATE_OPEN[0]);
    assert s1.row == Some(Row(1, false, None, false, true)) && s1.core.lock == [];
    assert Step(s1, LATE_OPEN[1]).core.lock == [TurnTicket(1)];
  }
}
