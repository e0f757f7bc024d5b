// One task's turns as a state machine (lib/runner.ts, lib/abort.ts,
// lib/taskLock.ts, the pending queue of lib/store.ts and the routes that drive
// them).
//
// Code between two awaits runs without interruption, so each such stretch is
// one event.  Whatever the outside world may choose (what a driver emits, which
// storage call fails, when the user presses Stop) is a parameter of the event,
// and an event that cannot happen in a state leaves the state alone.  A
// behaviour is therefore any sequence of events at all.
module TurnProtocol {
  import opened Wrappers
  import opened Abort

  // A driver session, labelled with the generation whose turn opened it.
  datatype Session = Session(gen: nat, sid: nat)

  // The columns of the task row that a turn settles.
  datatype Row = Row(gen: nat, running: bool, session: Option<Session>, awaiting: bool, started: bool)

  // The local variables of `run` that its finally block reads.
  datatype Turn = Turn(
    gen: nat,
    session: Option<Session>,
    didOpen: bool,
    asks: set<nat>,       // openAsks
    known: set<nat>,      // the keys of toolMsgs
    deadLogin: bool)      // authFailure or usageLimitFailure is set

  // Where the code holding a controller currently is.
  datatype Actor =
    | PostWaiting                                             // POST claimed, queued on the task lock
    | DrainWaiting(msg: nat, gen: nat, didOpen: bool)          // slot handed off, queued on the task lock
    | Launching(gen: nat, session: Option<Session>, initial: bool, followUp: Option<nat>, didOpen: bool)
    | Leaving                                                 // POST gave up; its claim is still to be released
    | Failing(didOpen: bool)                                   // the drain's launch threw; its catch is still to run
    | Streaming(turn: Turn)
    | Crashed(gen: nat)                                       // the finally block threw; the handler is still to run

  datatype Ticket = TurnTicket(c: Controller) | GitTicket

  datatype Fate = Cancelled | Cleared | Dropped

  // The ways a turn, or a claim on one, can end without handing its duties on.
  datatype Reason =
    | ClaimReleased   // a POST let go of its claim without launching
    | StaleDrain      // generation changed or task gone during the drain's lock wait
    | StoppedDrain    // Stop or cancel during the drain's lock wait
    | ProjectMissing  // project row gone when a follow-up was due
    | LoginDead       // authentication or usage limit failure
    | LaunchFailed    // the drained follow-up could not be launched, but was settled
    | LaunchLost      // ... and could not be settled either
    | TurnCrashed     // the finally block threw, but was settled
    | SettleLost      // ... and could not be settled either

  // Who is where: the slot, the code holding controllers, and the task lock.
  datatype Core = Core(
    slot: Slot,
    actors: map<Controller, Actor>,
    lock: seq<Ticket>,              // holders and waiters of the task lock, in arrival order
    gitIn: bool)                    // the head of the lock is a git operation that saw no turn

  // What became of the follow-ups, which are numbered as they are parked.
  datatype Ledger = Ledger(
    queue: seq<nat>,                // pending_messages, oldest first
    ran: seq<nat>,                  // launched, in launch order
    fate: map<nat, Fate>,           // never to run
    next: nat)

  // What has happened so far.
  datatype Log = Log(
    owed: bool,                     // a turn started and no turn_end has been published since
    silent: set<Reason>,            // reasons recorded since the last turn start
    faulted: bool,                  // some storage call has failed
    leaked: bool,                   // ... between a handoff and the follow-up taking the slot over
    bumped: bool)                   // the generation has changed or the task row has vanished

  // The /clear requests in flight, by the generation they read: those that
  // have yet to stop the turn, and those that have and are now summarizing.
  datatype Clears = Clears(asked: multiset<nat>, stopped: multiset<nat>)

  datatype State = State(
    core: Core,
    row: Option<Row>,
    project: bool,
    clears: Clears,
    ledger: Ledger,
    log: Log)

  datatype DriverEvent =
    | Opened(sid: nat)
    | Tool(id: nat)
    | Ask(id: nat)
    | Answered(id: nat)
    | OpenedUnstored(sid: nat)      // the same three, the write to the row throwing
    | AskUnstored(id: nat)
    | AnsweredUnstored(id: nat)
    | Done(sid: nat)
    | Fail(login: bool)

  // Where inside the finally block a storage call fails.
  datatype Cut = AtSettle | AfterSettle | AfterHandoff | AfterPop | AtEnd

  datatype Event =
    | PostClaim
    | PostEnter(c: Controller, bail: bool)
    | ClaimRelease(c: Controller)
    | LaunchCommit(c: Controller, fault: bool)
    | DrainEnter(c: Controller, fault: bool)
    | DrainFail(c: Controller, fault: bool)
    | Driver(c: Controller, ev: DriverEvent)
    | TurnFinally(c: Controller, cut: Option<Cut>)
    | CrashHandler(c: Controller, fault: bool)
    | Stop
    | CancelTask
    | ClearRead
    | ClearStop(gen: nat)
    | ClearFinish(gen: nat)
    | DeleteBegin
    | DeleteEnd
    | Vanish
    | ProjectVanish
    | CancelPending(msg: nat)
    | GitArrive
    | GitEnter
    | GitExit
    | OtherTask

  // A task nobody has launched yet.
  function Init(gen: nat): State {
    State(Core(Slot(None, false, {}, 0), map[], [], false), Some(Row(gen, false, None, false, false)), true,
          Clears(multiset{}, multiset{}), Ledger([], [], map[], 0), Log(false, {}, false, false, false))
  }

  function Run(s: State, es: seq<Event>): State
    decreases |es|
  {
    if es == [] then s else Run(Step(s, es[0]), es[1..])
  }

  lemma {:induction false} RunAppend(s: State, a: seq<Event>, b: seq<Event>)
    ensures Run(s, a + b) == Run(Run(s, a), b)
    decreases |a|
  {
    if a == [] {
      assert a + b == b;
    } else {
      assert (a + b)[1..] == a[1..] + b;
      RunAppend(Step(s, a[0]), a[1..], b);
    }
  }

  lemma RunSnoc(s: State, es: seq<Event>, k: nat)
    requires k < |es|
    ensures Run(s, es[..k + 1]) == Step(Run(s, es[..k]), es[k])
  {
    RunAppend(s, es[..k], [es[k]]);
    assert es[..k + 1] == es[..k] + [es[k]];
    assert Run(Run(s, es[..k]), [es[k]]) == Step(Run(s, es[..k]), es[k]);
  }

  // ---------- moves of the core ----------

  function Place(actors: map<Controller, Actor>, c: Controller, a: Option<Actor>): map<Controller, Actor> {
    if a.Some? then actors[c := a.value] else actors - {c}
  }

  // Controller `c` moves on, or is done (None), outside the lock.
  function MoveOn(k: Core, c: Controller, slot: Slot, a: Option<Actor>): Core {
    Core(slot, Place(k.actors, c, a), k.lock, k.gitIn)
  }

  // Controller `c`, the holder of the lock, leaves it.
  function LeaveLock(k: Core, c: Controller, slot: Slot, a: Option<Actor>): Core
    requires k.lock != []
  {
    Core(slot, Place(k.actors, c, a), k.lock[1..], k.gitIn)
  }

  // Controller `c` takes the last place in the lock's queue.
  function JoinLock(k: Core, c: Controller, slot: Slot, a: Actor): Core {
    Core(slot, k.actors[c := a], k.lock + [TurnTicket(c)], k.gitIn)
  }

  predicate AtHead(k: Core, c: Controller) {
    k.lock != [] && k.lock[0] == TurnTicket(c)
  }

  predicate HasTurn(s: State) {
    s.core.slot.occupant.Some?
  }

  predicate Owns(s: State, c: Controller) {
    s.core.slot.occupant == Some(c)
  }

  // Another controller is in the slot.
  predicate Superseded(s: State, c: Controller) {
    HasTurn(s) && !Owns(s, c)
  }

  predicate Advanced(s: State, gen: nat) {
    s.row.None? || s.row.value.gen != gen
  }

  // ---------- moves of the ledger and the log ----------

  function Park(l: Ledger): Ledger {
    l.(queue := l.queue + [l.next], next := l.next + 1)
  }

  function Drop(l: Ledger, m: nat): Ledger {
    l.(fate := l.fate[m := Dropped])
  }

  function DropOldest(l: Ledger): Ledger
    requires l.queue != []
  {
    l.(queue := l.queue[1..], fate := l.fate[l.queue[0] := Dropped])
  }

  function Pop(l: Ledger): Ledger
    requires l.queue != []
  {
    l.(queue := l.queue[1..])
  }

  function ClearQueue(l: Ledger): Ledger {
    l.(queue := [], fate := l.fate + map m | m in l.queue :: Cleared)
  }

  function IndexOf(q: seq<nat>, m: nat): (i: nat)
    requires m in q
    ensures i < |q| && q[i] == m
  {
    if q[0] == m then 0 else 1 + IndexOf(q[1..], m)
  }

  function CancelParked(l: Ledger, m: nat): Ledger
    requires m in l.queue
  {
    var i := IndexOf(l.queue, m);
    l.(queue := l.queue[..i] + l.queue[i + 1..], fate := l.fate[m := Cancelled])
  }

  function Because(l: Log, r: Reason): Log {
    l.(silent := l.silent + {r})
  }

  // turn_end is published, on account of `rs` if anything went wrong.
  function TurnEnd(l: Log, rs: set<Reason>): Log {
    l.(owed := false, silent := l.silent + rs)
  }

  function Fault(l: Log): Log {
    l.(faulted := true)
  }

  // ---------- POST /messages ----------

  function PostClaimStep(s: State): State {
    var k := s.core;
    if k.slot.deleting then s
    else
      match Claim(k.slot)
      case (slot, Some(c)) => s.(core := JoinLock(k, c, slot, PostWaiting))
      case (_, None) => if s.row.None? then s else s.(ledger := Park(s.ledger))
  }

  function PostEnterStep(s: State, c: Controller, bail: bool): State
    requires AtHead(s.core, c)
  {
    var k := s.core;
    if s.row.None? || k.slot.deleting || bail then s.(core := LeaveLock(k, c, k.slot, Some(Leaving)))
    else
      var r := s.row.value;
      s.(core := MoveOn(k, c, k.slot, Some(Launching(r.gen, r.session, !r.started, None, false))))
  }

  function ClaimReleaseStep(s: State, c: Controller): State {
    s.(core := MoveOn(s.core, c, Unregister(s.core.slot, c), None), log := Because(s.log, ClaimReleased))
  }

  // The user message is stored, running is set and `run` starts; for the first
  // turn of a generation the route does this itself, otherwise startResumeTurn,
  // which lets go of the claim at once when storing fails.
  function LaunchCommitStep(s: State, c: Controller, fault: bool): State
    requires AtHead(s.core, c) && c in s.core.actors && s.core.actors[c].Launching?
  {
    var k := s.core;
    var l := k.actors[c];
    if s.row.None? || fault then
      var slot := if l.initial then k.slot else Unregister(k.slot, c);
      s.(core := LeaveLock(k, c, slot, Some(if l.followUp.None? then Leaving else Failing(l.didOpen))),
         ledger := if l.followUp.None? then s.ledger else Drop(s.ledger, l.followUp.value),
         log := if fault then Fault(s.log) else s.log)
    else
      s.(core := LeaveLock(k, c, k.slot, Some(Streaming(Turn(l.gen, l.session, false, {}, {}, false)))),
         row := Some(s.row.value.(running := true, awaiting := false)),
         ledger := if l.followUp.None? then s.ledger else s.ledger.(ran := s.ledger.ran + [l.followUp.value]),
         log := s.log.(owed := true, silent := {}))
  }

  // ---------- the queue drainer's callback under the task lock ----------

  function DrainEnterStep(s: State, c: Controller, fault: bool): State
    requires AtHead(s.core, c) && c in s.core.actors && s.core.actors[c].DrainWaiting?
  {
    var k := s.core;
    var d := k.actors[c];
    var dropped := Drop(s.ledger, d.msg);
    if fault then
      s.(core := LeaveLock(k, c, k.slot, Some(Failing(d.didOpen))), ledger := dropped, log := Fault(s.log))
    else if Advanced(s, d.gen) then
      s.(core := LeaveLock(k, c, Unregister(k.slot, c), None), ledger := dropped, log := Because(s.log, StaleDrain))
    else if !s.project then
      s.(core := LeaveLock(k, c, Unregister(k.slot, c), None),
         ledger := dropped,
         log := TurnEnd(s.log, {ProjectMissing}))
    else if !Owns(s, c) then
      s.(core := LeaveLock(k, c, k.slot, None), ledger := dropped,
         log := if HasTurn(s) then s.log else TurnEnd(s.log, {StoppedDrain}))
    else
      var r := s.row.value;
      s.(core := MoveOn(k, c, k.slot, Some(Launching(r.gen, r.session, false, Some(d.msg), d.didOpen))))
  }

  // The catch behind the drainer's callback.  It does not look at the
  // generation, and its own writes can fail.
  function DrainFailStep(s: State, c: Controller, fault: bool): State
    requires c in s.core.actors && s.core.actors[c].Failing?
  {
    var k := MoveOn(s.core, c, Unregister(s.core.slot, c), None);
    if s.row.None? || fault then
      s.(core := k, log := Because(if fault then Fault(s.log) else s.log, LaunchLost))
    else
      s.(core := k,
         row := Some(s.row.value.(running := false, awaiting := s.core.actors[c].didOpen)),
         log := TurnEnd(s.log, {LaunchFailed}))
  }

  // ---------- the event loop of `run` ----------

  function TurnAfter(t: Turn, ev: DriverEvent): Turn {
    match ev
    case Opened(sid) => t.(session := Some(Session(t.gen, sid)), didOpen := true)
    case Tool(id) => t.(known := t.known + {id})
    case Ask(id) => t.(known := t.known + {id}, asks := t.asks + {id})
    case Answered(id) => if id in t.known then t.(asks := t.asks - {id}) else t
    case OpenedUnstored(sid) => t.(session := Some(Session(t.gen, sid)), didOpen := true)
    case AskUnstored(id) => t.(known := t.known + {id}, asks := t.asks + {id})
    case AnsweredUnstored(id) => if id in t.known then t.(asks := t.asks - {id}) else t
    case Done(sid) => t.(session := Some(Session(t.gen, sid)))
    case Fail(login) => t.(deadLogin := t.deadLogin || login)
  }

  function RowAfter(r: Row, t: Turn, ev: DriverEvent): Row {
    match ev
    case Opened(_) => r.(started := true)
    case Ask(_) => r.(awaiting := true)
    case Answered(id) => if id in t.known && t.asks - {id} == {} then r.(awaiting := false) else r
    case _ => r
  }

  // The local variables are set before the row is written.
  predicate Unstored(ev: DriverEvent) {
    ev.OpenedUnstored? || ev.AskUnstored? || ev.AnsweredUnstored?
  }

  function DriverStep(s: State, c: Controller, ev: DriverEvent): State
    requires c in s.core.actors && s.core.actors[c].Streaming?
  {
    var t := s.core.actors[c].turn;
    s.(core := MoveOn(s.core, c, s.core.slot, Some(Streaming(TurnAfter(t, ev)))),
       row := if s.row.None? then None else Some(RowAfter(s.row.value, t, ev)),
       log := if Unstored(ev) then Fault(s.log) else s.log)
  }

  // ---------- the finally block of `run` ----------

  // How the block ends.
  datatype Outcome =
    | Throws         // before the queue was looked at
    | Defers         // a successor owns the row, the queue and turn_end
    | Discards       // stopped, or the generation moved on
    | Keeps          // dead login or spent limit
    | Idle           // nothing queued
    | Abandons       // the oldest follow-up has no project to run in
    | Orphans        // storage failed after the handoff, before the pop
    | OrphansPopped  // ... after the pop
    | HandsOff       // the follow-up is on its way

  predicate Settles(s: State, c: Controller, t: Turn) {
    !Advanced(s, t.gen) && !Superseded(s, c)
  }

  function OutcomeOf(s: State, c: Controller, t: Turn, cut: Option<Cut>): Outcome {
    if cut == Some(AtSettle) && Settles(s, c, t) then Throws
    else if cut == Some(AfterSettle) then Throws
    else if Superseded(s, c) then Defers
    else QueueOutcome(s, c, t, cut)
  }

  function QueueOutcome(s: State, c: Controller, t: Turn, cut: Option<Cut>): Outcome {
    if c in s.core.slot.aborted || Advanced(s, t.gen) then Discards
    else if t.deadLogin then Keeps
    else if Handoff(s.core.slot, c).1.None? then Idle
    else if cut == Some(AfterHandoff) then Orphans
    else if s.ledger.queue == [] then Idle
    else if cut == Some(AfterPop) then OrphansPopped
    else if !s.project then Abandons
    else HandsOff
  }

  // The slot handed to a fresh controller that then lets go of it.
  function Vacated(slot: Slot, c: Controller): Slot {
    var (passed, next) := Handoff(slot, c);
    if next.Some? then Unregister(passed, next.value) else slot
  }

  function Kept(slot: Slot, c: Controller, o: Outcome): Slot {
    if o.Idle? || o.Abandons? then Vacated(slot, c) else slot
  }

  function Blame(o: Outcome): set<Reason> {
    match o
    case Keeps => {LoginDead}
    case Abandons => {ProjectMissing}
    case _ => {}
  }

  function Oldest(l: Ledger): nat {
    if l.queue == [] then 0 else l.queue[0]
  }

  // The slot when the block is over: handed to a fresh controller, freed, or
  // nobody's business any more.
  function FinallyCore(k: Core, c: Controller, t: Turn, o: Outcome, atEnd: bool, m: nat): Core {
    var n := k.slot.next;
    var slot := Handoff(k.slot, c).0;
    var crashed := Some(Crashed(t.gen));
    match o
    case Throws => MoveOn(k, c, k.slot, crashed)
    case Defers => MoveOn(k, c, k.slot, None)
    case Orphans => MoveOn(k, c, slot, crashed)
    case OrphansPopped => MoveOn(k, c, slot, crashed)
    case HandsOff => JoinLock(MoveOn(k, c, k.slot, None), n, slot, DrainWaiting(m, t.gen, t.didOpen))
    case _ =>
      var freed := Kept(k.slot, c, o);
      if atEnd then MoveOn(k, c, freed, crashed) else MoveOn(k, c, Unregister(freed, c), None)
  }

  function FinallyLedger(l: Ledger, o: Outcome): Ledger
    requires o.Abandons? || o.OrphansPopped? || o.HandsOff? ==> l.queue != []
  {
    match o
    case Discards => ClearQueue(l)
    case Abandons => DropOldest(l)
    case OrphansPopped => DropOldest(l)
    case HandsOff => Pop(l)
    case _ => l
  }

  function FinallyLog(l: Log, o: Outcome, atEnd: bool): Log {
    match o
    case Throws => Fault(l)
    case Orphans => Fault(l).(leaked := true)
    case OrphansPopped => Fault(l).(leaked := true)
    case Defers => l
    case HandsOff => l
    case _ =>
      if atEnd then Fault(l.(silent := l.silent + Blame(o))) else TurnEnd(l, Blame(o))
  }

  function FinallyStep(s: State, c: Controller, cut: Option<Cut>): State
    requires c in s.core.actors && s.core.actors[c].Streaming?
  {
    var t := s.core.actors[c].turn;
    var o := OutcomeOf(s, c, t, cut);
    var atEnd := cut == Some(AtEnd);
    s.(core := FinallyCore(s.core, c, t, o, atEnd, Oldest(s.ledger)),
       row := if Settles(s, c, t) && cut != Some(AtSettle)
              then Some(s.row.value.(running := false, session := t.session, awaiting := t.didOpen))
              else s.row,
       ledger := FinallyLedger(s.ledger, o),
       log := FinallyLog(s.log, o, atEnd))
  }

  // The handler startTurn attaches behind `run`.
  function CrashHandlerStep(s: State, c: Controller, fault: bool): State
    requires c in s.core.actors && s.core.actors[c].Crashed?
  {
    var gen := s.core.actors[c].gen;
    var k := MoveOn(s.core, c, Unregister(s.core.slot, c), None);
    if k.slot.occupant.Some? then s.(core := k, log := Because(s.log, TurnCrashed))
    else if fault then s.(core := k, log := Because(Fault(s.log), SettleLost))
    else
      s.(core := k,
         row := if Advanced(s, gen) then s.row else Some(s.row.value.(running := false)),
         log := TurnEnd(s.log, {TurnCrashed}))
  }

  // ---------- Stop, PATCH status=cancelled, /clear, DELETE, cancel ----------

  function StopStep(s: State): State {
    if HasTurn(s) then
      s.(core := s.core.(slot := AbortOccupant(s.core.slot)), ledger := ClearQueue(s.ledger))
    else s
  }

  function CancelTaskStep(s: State): State {
    s.(core := s.core.(slot := AbortOccupant(s.core.slot)),
       row := if s.row.None? then None else Some(s.row.value.(awaiting := false)))
  }

  function ClearReadStep(s: State): State
    requires s.row.Some?
  {
    s.(clears := s.clears.(asked := s.clears.asked + multiset{s.row.value.gen}))
  }

  // The request has read its body and stops whatever turn there is now.
  function ClearStopStep(s: State, gen: nat): State {
    s.(core := s.core.(slot := AbortOccupant(s.core.slot)),
       clears := Clears(s.clears.asked - multiset{gen}, s.clears.stopped + multiset{gen}))
  }

  function Finished(cs: Clears, gen: nat): Clears {
    cs.(stopped := cs.stopped - multiset{gen})
  }

  // The request read generation `gen` when it began, so that is what it advances.
  function ClearFinishStep(s: State, gen: nat): State {
    if s.row.None? then s.(clears := Finished(s.clears, gen))
    else
      s.(clears := Finished(s.clears, gen),
         row := Some(Row(gen + 1, false, None, false, false)),
         ledger := ClearQueue(s.ledger),
         log := s.log.(bumped := true))
  }

  function VanishStep(s: State): State {
    s.(row := None, ledger := ClearQueue(s.ledger), log := s.log.(bumped := true))
  }

  // ---------- merge, sync, prepare, complete and discard routes ----------

  function GitEnterStep(s: State): State
    requires s.core.lock != []
  {
    var k := s.core;
    if s.row.None? || s.row.value.running || HasTurn(s) then s.(core := k.(lock := k.lock[1..]))
    else s.(core := k.(gitIn := true))
  }

  // ---------- one event ----------

  predicate Enabled(s: State, c: Controller, e: Event) {
    c in s.core.actors &&
    var a := s.core.actors[c];
    match e
    case PostEnter(_, _) => AtHead(s.core, c) && a.PostWaiting?
    case ClaimRelease(_) => a.Leaving?
    case LaunchCommit(_, _) => AtHead(s.core, c) && a.Launching?
    case DrainEnter(_, _) => AtHead(s.core, c) && a.DrainWaiting?
    case DrainFail(_, _) => a.Failing?
    case CrashHandler(_, _) => a.Crashed?
    case _ => a.Streaming?
  }

  function Step(s: State, e: Event): State {
    match e
    case PostClaim => PostClaimStep(s)
    case PostEnter(c, bail) => if Enabled(s, c, e) then PostEnterStep(s, c, bail) else s
    case ClaimRelease(c) => if Enabled(s, c, e) then ClaimReleaseStep(s, c) else s
    case LaunchCommit(c, fault) => if Enabled(s, c, e) then LaunchCommitStep(s, c, fault) else s
    case DrainEnter(c, fault) => if Enabled(s, c, e) then DrainEnterStep(s, c, fault) else s
    case DrainFail(c, fault) => if Enabled(s, c, e) then DrainFailStep(s, c, fault) else s
    case Driver(c, ev) => if Enabled(s, c, e) then DriverStep(s, c, ev) else s
    case TurnFinally(c, cut) => if Enabled(s, c, e) then FinallyStep(s, c, cut) else s
    case CrashHandler(c, fault) => if Enabled(s, c, e) then CrashHandlerStep(s, c, fault) else s
    case Stop => StopStep(s)
    case CancelTask => CancelTaskStep(s)
    case ClearRead => if s.row.Some? then ClearReadStep(s) else s
    case ClearStop(gen) => if gen in s.clears.asked then ClearStopStep(s, gen) else s
    case ClearFinish(gen) => if gen in s.clears.stopped then ClearFinishStep(s, gen) else s
    case DeleteBegin => s.(core := s.core.(slot := BeginDeletion(s.core.slot)))
    case DeleteEnd => s.(core := s.core.(slot := EndDeletion(s.core.slot)))
    case Vanish => VanishStep(s)
    case ProjectVanish => s.(project := false)
    case CancelPending(m) => if m in s.ledger.queue then s.(ledger := CancelParked(s.ledger, m)) else s
    case GitArrive => s.(core := s.core.(lock := s.core.lock + [GitTicket]))
    case GitEnter => if s.core.lock != [] && s.core.lock[0].GitTicket? && !s.core.gitIn then GitEnterStep(s) else s
    case GitExit =>
      if s.core.lock != [] && s.core.gitIn then s.(core := s.core.(lock := s.core.lock[1..], gitIn := false)) else s
    case OtherTask => s.(core := s.core.(slot := s.core.slot.(next := s.core.slot.next + 1)))
  }
}
