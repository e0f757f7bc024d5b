// At most one turn: the invariant tying controllers, lock tickets and the slot,
// kept by every event and hence by every interleaving.
module TurnExclusion {
  import opened Wrappers
  import opened Abort
  import opened TurnProtocol

  // Code that has not reached its finally block and may still launch or run a turn.
  predicate Live(a: Actor) {
    a.PostWaiting? || a.DrainWaiting? || a.Launching? || a.Streaming?
  }

  predicate InLock(a: Actor) {
    a.PostWaiting? || a.DrainWaiting? || a.Launching?
  }

  predicate LiveUnaborted(k: Core, c: Controller) {
    c in k.actors && Live(k.actors[c]) && c !in k.slot.aborted
  }

  predicate Drains(k: Core, c: Controller) {
    c in k.actors && k.actors[c].DrainWaiting?
  }

  // Identities are never reused; a live un-aborted controller is the occupant;
  // during a deletion the occupant has been told to stop.
  ghost predicate SlotInv(k: Core) {
    && (forall c :: c in k.actors ==> c < k.slot.next)
    && (forall c :: c in k.slot.aborted ==> c < k.slot.next)
    && (k.slot.occupant.Some? ==> k.slot.occupant.value < k.slot.next)
    && (forall c: Controller :: LiveUnaborted(k, c) ==> k.slot.occupant == Some(c))
    && (k.slot.deleting && k.slot.occupant.Some? ==> k.slot.occupant.value in k.slot.aborted)
  }

  // The lock holds exactly one ticket for each controller that wants it, only
  // its holder is inside, and a git section that saw no turn excludes the rest.
  ghost predicate LockInv(k: Core) {
    && (forall i :: 0 <= i < |k.lock| && k.lock[i].TurnTicket? ==>
          k.lock[i].c in k.actors && InLock(k.actors[k.lock[i].c]))
    && (forall i, j :: 0 <= i < j < |k.lock| && k.lock[i].TurnTicket? ==> k.lock[i] != k.lock[j])
    && (forall c: Controller :: c in k.actors && InLock(k.actors[c]) ==> TurnTicket(c) in k.lock)
    && (forall c: Controller :: c in k.actors && k.actors[c].Launching? ==> AtHead(k, c))
    && (k.gitIn ==> k.lock != [] && k.lock[0].GitTicket?)
    && (k.gitIn ==> forall c: Controller :: LiveUnaborted(k, c) ==> k.actors[c].PostWaiting?)
  }

  // A live un-aborted occupant is the last turn in the lock, and a drained
  // follow-up is always the first.
  ghost predicate OrderInv(k: Core) {
    && (forall c: Controller, i :: LiveUnaborted(k, c) && k.actors[c].Streaming? && 0 <= i < |k.lock| ==>
          k.lock[i].GitTicket?)
    && (forall i, j :: 0 <= i < j < |k.lock| && k.lock[i].TurnTicket? && k.lock[j].TurnTicket? ==>
          !LiveUnaborted(k, k.lock[i].c) && !Drains(k, k.lock[j].c))
  }

  ghost predicate CoreInv(k: Core) {
    SlotInv(k) && LockInv(k) && OrderInv(k)
  }

  ghost predicate Inv(s: State) {
    CoreInv(s.core)
  }

  // ---------- the moves events make on the core ----------

  // A fresh controller takes a free slot and queues on the lock.
  lemma ArriveKeeps(k: Core, slot: Slot, a: Actor)
    requires CoreInv(k) && k.slot.occupant.None? && !k.slot.deleting
    requires slot == k.slot.(occupant := Some(k.slot.next), next := k.slot.next + 1)
    requires a.PostWaiting?
    ensures CoreInv(JoinLock(k, k.slot.next, slot, a))
  {
    var k' := JoinLock(k, k.slot.next, slot, a);
    ArriveKeepsLock(k, slot, a);
    assert forall c: Controller :: LiveUnaborted(k', c) ==> c == k.slot.next || LiveUnaborted(k, c);
  }

  lemma ArriveKeepsLock(k: Core, slot: Slot, a: Actor)
    requires CoreInv(k) && k.slot.occupant.None? && !k.slot.deleting
    requires slot == k.slot.(occupant := Some(k.slot.next), next := k.slot.next + 1)
    requires a.PostWaiting?
    ensures LockInv(JoinLock(k, k.slot.next, slot, a))
  {
    var n := k.slot.next;
    var k' := JoinLock(k, n, slot, a);
    assert forall c: Controller :: LiveUnaborted(k', c) ==> c == n || LiveUnaborted(k, c);
    assert TurnTicket(n) == k'.lock[|k.lock|];
    forall c: Controller | c in k'.actors && InLock(k'.actors[c]) ensures TurnTicket(c) in k'.lock {
      if c != n { assert TurnTicket(c) in k.lock; }
    }
  }

  // A streaming turn leaves, handing its slot to a follow-up that queues on the lock.
  lemma SucceedKeeps(k: Core, c: Controller, slot: Slot, a: Actor)
    requires CoreInv(k) && LiveUnaborted(k, c) && k.actors[c].Streaming?
    requires slot == k.slot.(occupant := Some(k.slot.next), next := k.slot.next + 1)
    requires a.DrainWaiting?
    ensures CoreInv(JoinLock(MoveOn(k, c, k.slot, None), k.slot.next, slot, a))
  {
    var n := k.slot.next;
    var k' := JoinLock(MoveOn(k, c, k.slot, None), n, slot, a);
    assert !k.gitIn;
    assert forall i :: 0 <= i < |k.lock| ==> k.lock[i].GitTicket?;
    forall d: Controller | LiveUnaborted(k', d) ensures d == n {
      if d != n { assert LiveUnaborted(k, d); }
    }
    assert TurnTicket(n) == k'.lock[|k.lock|];
    forall d: Controller | d in k'.actors && InLock(k'.actors[d]) ensures TurnTicket(d) in k'.lock {
      if d != n { assert TurnTicket(d) in k.lock; }
    }
  }

  // The head of the lock moves from waiting to launching.
  lemma GrantedKeeps(k: Core, c: Controller, a: Actor)
    requires CoreInv(k) && AtHead(k, c) && a.Launching?
    ensures CoreInv(MoveOn(k, c, k.slot, Some(a)))
  {
    var k' := MoveOn(k, c, k.slot, Some(a));
    assert forall d: Controller :: LiveUnaborted(k', d) ==> LiveUnaborted(k, d);
    assert forall d: Controller :: Drains(k', d) ==> Drains(k, d);
  }

  // What is left of the lock when its head leaves.
  lemma Behind(k: Core, k': Core, c: Controller)
    requires CoreInv(k) && AtHead(k, c) && k'.lock == k.lock[1..]
    requires k'.actors - {c} == k.actors - {c}
    requires c in k'.actors ==> !InLock(k'.actors[c])
    ensures forall i :: 0 <= i < |k'.lock| && k'.lock[i].TurnTicket? ==>
              k'.lock[i].c in k'.actors && InLock(k'.actors[k'.lock[i].c])
    ensures forall d: Controller :: d in k'.actors && InLock(k'.actors[d]) ==> TurnTicket(d) in k'.lock
    ensures forall d: Controller :: d in k'.actors ==> !k'.actors[d].Launching?
    ensures forall i, j :: 0 <= i < j < |k'.lock| && k'.lock[i].TurnTicket? ==>
              k'.lock[i] != k'.lock[j] &&
              (k'.lock[j].TurnTicket? ==> !LiveUnaborted(k, k'.lock[i].c) && !Drains(k, k'.lock[j].c))
  {
    assert forall i :: 0 <= i < |k'.lock| ==> k'.lock[i] == k.lock[i + 1];
    forall i | 0 <= i < |k'.lock| && k'.lock[i].TurnTicket?
      ensures k'.lock[i].c in k'.actors && InLock(k'.actors[k'.lock[i].c])
    {
      var d := k.lock[i + 1].c;
      assert d != c && d in k.actors - {c};
      assert d in k'.actors - {c};
    }
    forall d: Controller | d in k'.actors
      ensures InLock(k'.actors[d]) ==> TurnTicket(d) in k'.lock
      ensures !k'.actors[d].Launching?
    {
      if d != c {
        assert d in k'.actors - {c} && k.actors[d] == k'.actors[d];
        if InLock(k'.actors[d]) {
          var i :| 0 <= i < |k.lock| && k.lock[i] == TurnTicket(d);
          assert k'.lock[i - 1] == TurnTicket(d);
        }
      }
    }
  }

  // The head of the lock gives up, or is done for good.
  lemma LeftLock(k: Core, c: Controller, slot: Slot, a: Option<Actor>)
    requires CoreInv(k) && AtHead(k, c)
    requires slot == k.slot || slot == Unregister(k.slot, c)
    requires a.Some? ==> !Live(a.value)
    ensures SlotInv(LeaveLock(k, c, slot, a)) && LockInv(LeaveLock(k, c, slot, a))
  {
    var k' := LeaveLock(k, c, slot, a);
    assert forall d: Controller :: LiveUnaborted(k', d) ==> LiveUnaborted(k, d) && d != c;
    Behind(k, k', c);
  }

  lemma LeaveLockKeeps(k: Core, c: Controller, slot: Slot, a: Option<Actor>)
    requires CoreInv(k) && AtHead(k, c)
    requires slot == k.slot || slot == Unregister(k.slot, c)
    requires a.Some? ==> !Live(a.value)
    ensures CoreInv(LeaveLock(k, c, slot, a))
  {
    LeftLock(k, c, slot, a);
    LeftOrder(k, c, slot, a);
  }

  lemma LeftOrder(k: Core, c: Controller, slot: Slot, a: Option<Actor>)
    requires CoreInv(k) && AtHead(k, c)
    requires slot == k.slot || slot == Unregister(k.slot, c)
    requires a.Some? ==> !Live(a.value)
    ensures OrderInv(LeaveLock(k, c, slot, a))
  {
    var k' := LeaveLock(k, c, slot, a);
    assert forall d: Controller :: LiveUnaborted(k', d) ==> LiveUnaborted(k, d) && k'.actors[d] == k.actors[d];
    forall i, j | 0 <= i < j < |k'.lock| && k'.lock[i].TurnTicket? && k'.lock[j].TurnTicket?
      ensures !LiveUnaborted(k', k'.lock[i].c) && !Drains(k', k'.lock[j].c)
    {
      assert k'.lock[i] == k.lock[i + 1] && k'.lock[j] == k.lock[j + 1];
    }
  }

  // The head of the lock starts streaming.
  lemma LaunchedLock(k: Core, c: Controller, a: Actor)
    requires CoreInv(k) && AtHead(k, c) && a.Streaming?
    ensures SlotInv(LeaveLock(k, c, k.slot, Some(a))) && LockInv(LeaveLock(k, c, k.slot, Some(a)))
  {
    var k' := LeaveLock(k, c, k.slot, Some(a));
    assert forall d: Controller :: LiveUnaborted(k', d) ==> LiveUnaborted(k, d);
    Behind(k, k', c);
  }

  lemma LaunchedKeeps(k: Core, c: Controller, a: Actor)
    requires CoreInv(k) && AtHead(k, c) && a.Streaming?
    ensures CoreInv(LeaveLock(k, c, k.slot, Some(a)))
  {
    var k' := LeaveLock(k, c, k.slot, Some(a));
    LaunchedLock(k, c, a);
    Behind(k, k', c);
    forall d: Controller, i | LiveUnaborted(k', d) && k'.actors[d].Streaming? && 0 <= i < |k'.lock|
      ensures k'.lock[i].GitTicket?
    {
      assert LiveUnaborted(k, d) && k'.lock[i] == k.lock[i + 1];
      if d == c { assert LiveUnaborted(k, k.lock[0].c); }
    }
    forall i, j | 0 <= i < j < |k'.lock| && k'.lock[i].TurnTicket? && k'.lock[j].TurnTicket?
      ensures !LiveUnaborted(k', k'.lock[i].c) && !Drains(k', k'.lock[j].c)
    {
      assert k'.lock[i] != k.lock[0] && k'.lock[j] != k.lock[0];
    }
  }

  // Code outside the lock moves on, or ends.
  lemma MoveOnKeeps(k: Core, c: Controller, slot: Slot, a: Option<Actor>)
    requires CoreInv(k) && c in k.actors && !InLock(k.actors[c])
    requires slot == k.slot || slot == Unregister(k.slot, c)
    requires a.Some? ==> !InLock(a.value)
    requires a.Some? && a.value.Streaming? ==> k.actors[c].Streaming? && slot == k.slot
    ensures CoreInv(MoveOn(k, c, slot, a))
  {
    var k' := MoveOn(k, c, slot, a);
    assert forall d: Controller :: LiveUnaborted(k', d) ==> LiveUnaborted(k, d);
    assert forall d: Controller :: Drains(k', d) ==> Drains(k, d);
    MoveOnLock(k, c, slot, a);
  }

  lemma MoveOnLock(k: Core, c: Controller, slot: Slot, a: Option<Actor>)
    requires CoreInv(k) && c in k.actors && !InLock(k.actors[c])
    requires slot == k.slot || slot == Unregister(k.slot, c)
    requires a.Some? ==> !InLock(a.value)
    requires a.Some? && a.value.Streaming? ==> k.actors[c].Streaming? && slot == k.slot
    ensures LockInv(MoveOn(k, c, slot, a))
  {
    var k' := MoveOn(k, c, slot, a);
    assert forall d: Controller :: LiveUnaborted(k', d) ==> LiveUnaborted(k, d);
  }

  // The slot's occupant loses its slot to nobody, or to a controller nothing holds.
  lemma VacateKeeps(k: Core, slot: Slot)
    requires CoreInv(k) && slot.deleting == k.slot.deleting && slot.next >= k.slot.next
    requires k.slot.aborted <= slot.aborted && forall c :: c in slot.aborted ==> c < slot.next
    requires forall d: Controller :: LiveUnaborted(k, d) ==> d in slot.aborted
    requires slot.occupant.None? || (slot.occupant.value < slot.next && !slot.deleting)
    ensures CoreInv(k.(slot := slot))
  {
    var k' := k.(slot := slot);
    forall d: Controller | LiveUnaborted(k', d) ensures false {
      assert LiveUnaborted(k, d);
    }
  }

  // A new deletion, the end of one, or another task taking an identity.
  lemma BystanderKeeps(k: Core, slot: Slot)
    requires CoreInv(k) && slot.occupant == k.slot.occupant && slot.next >= k.slot.next
    requires k.slot.aborted <= slot.aborted && forall c :: c in slot.aborted ==> c < slot.next
    requires slot.deleting && slot.occupant.Some? ==> slot.occupant.value in slot.aborted
    ensures CoreInv(k.(slot := slot))
  {
    var k' := k.(slot := slot);
    assert forall d: Controller :: LiveUnaborted(k', d) ==> LiveUnaborted(k, d);
  }

  lemma GitQueued(k: Core)
    requires CoreInv(k)
    ensures CoreInv(k.(lock := k.lock + [GitTicket]))
  {
    var k' := k.(lock := k.lock + [GitTicket]);
    assert forall d: Controller :: LiveUnaborted(k', d) == LiveUnaborted(k, d) && Drains(k', d) == Drains(k, d);
    forall d: Controller | d in k'.actors && InLock(k'.actors[d]) ensures TurnTicket(d) in k'.lock {
      assert TurnTicket(d) in k.lock;
    }
  }

  lemma GitLeaves(k: Core)
    requires CoreInv(k) && k.lock != [] && k.lock[0].GitTicket?
    ensures CoreInv(k.(lock := k.lock[1..], gitIn := false))
  {
    var k' := k.(lock := k.lock[1..], gitIn := false);
    assert forall d: Controller :: LiveUnaborted(k', d) == LiveUnaborted(k, d) && Drains(k', d) == Drains(k, d);
    assert forall i :: 0 <= i < |k'.lock| ==> k'.lock[i] == k.lock[i + 1];
    forall d: Controller | d in k'.actors && InLock(k'.actors[d]) ensures TurnTicket(d) in k'.lock {
      assert TurnTicket(d) in k.lock;
      var i :| 0 <= i < |k.lock| && k.lock[i] == TurnTicket(d);
      assert k'.lock[i - 1] == TurnTicket(d);
    }
  }

  lemma GitGranted(k: Core)
    requires CoreInv(k) && k.lock != [] && k.lock[0].GitTicket? && k.slot.occupant.None?
    ensures CoreInv(k.(gitIn := true))
  {
    var k' := k.(gitIn := true);
    assert forall d: Controller :: LiveUnaborted(k', d) == LiveUnaborted(k, d) && Drains(k', d) == Drains(k, d);
  }

  // ---------- every event ----------

  lemma PostKeeps(s: State, e: Event)
    requires Inv(s) && (e.PostClaim? || e.PostEnter? || e.ClaimRelease?)
    ensures Inv(Step(s, e))
  {
    var k, k' := s.core, Step(s, e).core;
    match e
    case PostClaim =>
      if !k.slot.deleting && !HasTurn(s) { ArriveKeeps(k, Claim(k.slot).0, PostWaiting); }
    case PostEnter(c, bail) =>
      if Enabled(s, c, e) {
        if s.row.None? || k.slot.deleting || bail { LeaveLockKeeps(k, c, k.slot, Some(Leaving)); }
        else { GrantedKeeps(k, c, k'.actors[c]); }
      }
    case ClaimRelease(c) =>
      if Enabled(s, c, e) { MoveOnKeeps(k, c, k'.slot, None); }
  }

  lemma LaunchKeeps(s: State, c: Controller, fault: bool)
    requires Inv(s) && Enabled(s, c, LaunchCommit(c, fault))
    ensures Inv(LaunchCommitStep(s, c, fault))
  {
    var k, k' := s.core, LaunchCommitStep(s, c, fault).core;
    if s.row.None? || fault { LeaveLockKeeps(k, c, k'.slot, Some(k'.actors[c])); }
    else { LaunchedKeeps(k, c, k'.actors[c]); }
  }

  lemma DrainKeeps(s: State, c: Controller, fault: bool)
    requires Inv(s) && Enabled(s, c, DrainEnter(c, fault))
    ensures Inv(DrainEnterStep(s, c, fault))
  {
    var k, k' := s.core, DrainEnterStep(s, c, fault).core;
    if fault { LeaveLockKeeps(k, c, k.slot, Some(k'.actors[c])); }
    else if Advanced(s, k.actors[c].gen) || !s.project || !Owns(s, c) { LeaveLockKeeps(k, c, k'.slot, None); }
    else { GrantedKeeps(k, c, k'.actors[c]); }
  }

  // A turn that is neither stopped nor superseded owns the slot, and nobody is
  // deleting its task.
  lemma UnstoppedOwns(s: State, c: Controller)
    requires Inv(s) && c in s.core.actors && s.core.actors[c].Streaming? && c !in s.core.slot.aborted
    ensures Owns(s, c) && !s.core.slot.deleting && Handoff(s.core.slot, c).1 == Some(s.core.slot.next)
  {
    assert LiveUnaborted(s.core, c);
  }

  lemma FreedKeeps(s: State, c: Controller, cut: Option<Cut>)
    requires Inv(s) && Enabled(s, c, TurnFinally(c, cut)) && c !in s.core.slot.aborted
    requires var o := OutcomeOf(s, c, s.core.actors[c].turn, cut);
             o.Idle? || o.Abandons? || o.Orphans? || o.OrphansPopped?
    ensures Inv(FinallyStep(s, c, cut))
  {
    var k, k' := s.core, FinallyStep(s, c, cut).core;
    UnstoppedOwns(s, c);
    assert LiveUnaborted(k, c);
    var a := if c in k'.actors then Some(Crashed(k.actors[c].turn.gen)) else None;
    MoveOnKeeps(k, c, k.slot, a);
    VacateKeeps(MoveOn(k, c, k.slot, a), k'.slot);
  }

  lemma FinallyKeeps(s: State, c: Controller, cut: Option<Cut>)
    requires Inv(s) && Enabled(s, c, TurnFinally(c, cut))
    ensures Inv(FinallyStep(s, c, cut))
  {
    var k, k' := s.core, FinallyStep(s, c, cut).core;
    var t := k.actors[c].turn;
    var crashed := Some(Crashed(t.gen));
    if c !in k.slot.aborted { UnstoppedOwns(s, c); }
    match OutcomeOf(s, c, t, cut)
    case Throws => MoveOnKeeps(k, c, k.slot, crashed);
    case Defers => MoveOnKeeps(k, c, k.slot, None);
    case HandsOff => SucceedKeeps(k, c, k'.slot, k'.actors[k.slot.next]);
    case Discards => MoveOnKeeps(k, c, k'.slot, if c in k'.actors then crashed else None);
    case Keeps => MoveOnKeeps(k, c, k'.slot, if c in k'.actors then crashed else None);
    case _ => FreedKeeps(s, c, cut);
  }

  lemma OutsideKeeps(s: State, e: Event)
    requires Inv(s) && (e.DrainFail? || e.Driver? || e.CrashHandler?)
    ensures Inv(Step(s, e))
  {
    var k, k' := s.core, Step(s, e).core;
    if Enabled(s, e.c, e) {
      MoveOnKeeps(k, e.c, k'.slot, if e.c in k'.actors then Some(k'.actors[e.c]) else None);
    }
  }

  lemma AbortKeeps(s: State, e: Event)
    requires Inv(s) && (e.Stop? || e.CancelTask? || e.ClearStop?)
    ensures Inv(Step(s, e))
  {
    var k, k' := s.core, Step(s, e).core;
    if k' != k {
      assert forall d: Controller :: LiveUnaborted(k, d) ==> Some(d) == k.slot.occupant;
      VacateKeeps(k, k'.slot);
    }
  }

  lemma OtherwiseKeeps(s: State, e: Event)
    requires Inv(s) && (e.ClearRead? || e.ClearFinish? || e.Vanish? || e.ProjectVanish? || e.CancelPending?)
    ensures Inv(Step(s, e))
  {
    assert Step(s, e).core == s.core;
  }

  lemma LockKeeps(s: State, e: Event)
    requires Inv(s)
    requires e.DeleteBegin? || e.DeleteEnd? || e.OtherTask? || e.GitArrive? || e.GitEnter? || e.GitExit?
    ensures Inv(Step(s, e))
  {
    var k, k' := s.core, Step(s, e).core;
    match e
    case GitArrive => GitQueued(k);
    case GitEnter =>
      if k.lock != [] && k.lock[0].GitTicket? && !k.gitIn {
        if k'.gitIn { GitGranted(k); } else { GitLeaves(k); }
      }
    case GitExit =>
      if k.lock != [] && k.gitIn { GitLeaves(k); }
    case _ => BystanderKeeps(k, k'.slot);
  }

  lemma StepKeeps(s: State, e: Event)
    requires Inv(s)
    ensures Inv(Step(s, e))
  {
    match e
    case PostClaim => PostKeeps(s, e);
    case PostEnter(_, _) => PostKeeps(s, e);
    case ClaimRelease(_) => PostKeeps(s, e);
    case LaunchCommit(c, fault) =>
      if Enabled(s, c, e) { LaunchKeeps(s, c, fault); }
    case DrainEnter(c, fault) =>
      if Enabled(s, c, e) { DrainKeeps(s, c, fault); }
    case TurnFinally(c, cut) =>
      if Enabled(s, c, e) { FinallyKeeps(s, c, cut); }
    case DrainFail(_, _) => OutsideKeeps(s, e);
    case Driver(_, _) => OutsideKeeps(s, e);
    case CrashHandler(_, _) => OutsideKeeps(s, e);
    case Stop => AbortKeeps(s, e);
    case CancelTask => AbortKeeps(s, e);
    case ClearStop(_) => AbortKeeps(s, e);
    case ClearRead => OtherwiseKeeps(s, e);
    case ClearFinish(_) => OtherwiseKeeps(s, e);
    case Vanish => OtherwiseKeeps(s, e);
    case ProjectVanish => OtherwiseKeeps(s, e);
    case CancelPending(_) => OtherwiseKeeps(s, e);
    case _ => LockKeeps(s, e);
  }

  lemma {:induction false} RunKeeps(s: State, es: seq<Event>)
    requires Inv(s)
    ensures Inv(Run(s, es))
    decreases |es|
  {
    if es != [] {
      StepKeeps(s, es[0]);
      RunKeeps(Step(s, es[0]), es[1..]);
    }
  }

  lemma InitInv(gen: nat)
    ensures Inv(Init(gen))
  {
  }

  // ---------- what the invariant means ----------

  // In every interleaving at most one turn is both launched and un-aborted, and
  // it is the occupant of the slot.
  lemma OneTurnAtATime(gen: nat, es: seq<Event>, c: Controller, d: Controller)
    requires var s := Run(Init(gen), es); c in s.core.actors && d in s.core.actors
    requires var s := Run(Init(gen), es); Live(s.core.actors[c]) && Live(s.core.actors[d])
    requires var s := Run(Init(gen), es); c !in s.core.slot.aborted && d !in s.core.slot.aborted
    ensures c == d && Owns(Run(Init(gen), es), c)
  {
    var s := Run(Init(gen), es);
    InitInv(gen);
    RunKeeps(Init(gen), es);
    assert LiveUnaborted(s.core, c) && LiveUnaborted(s.core, d);
  }

  // While a git operation that saw no turn is in its critical section, no
  // un-aborted turn launches or streams: the only claims are POSTs still queued.
  lemma WorktreeExclusion(gen: nat, es: seq<Event>, c: Controller)
    requires var s := Run(Init(gen), es); s.core.gitIn && c in s.core.actors && c !in s.core.slot.aborted
    ensures !Run(Init(gen), es).core.actors[c].Streaming?
    ensures !Run(Init(gen), es).core.actors[c].Launching?
    ensures !Run(Init(gen), es).core.actors[c].DrainWaiting?
  {
    var s := Run(Init(gen), es);
    InitInv(gen);
    RunKeeps(Init(gen), es);
    if Live(s.core.actors[c]) { assert LiveUnaborted(s.core, c); }
  }

  lemma DeletionStep(s: State, e: Event)
    requires s.core.slot.deleting && !e.DeleteEnd?
    ensures Step(s, e).core.slot.deleting
    ensures HasTurn(Step(s, e)) ==> Step(s, e).core.slot.occupant == s.core.slot.occupant
  {
  }

  // Between the beginning and the end of a deletion nobody new gets the slot.
  lemma {:induction false} NoOccupantDuringDeletion(s: State, es: seq<Event>)
    requires s.core.slot.deleting && DeleteEnd !in es
    ensures Run(s, es).core.slot.deleting
    ensures HasTurn(Run(s, es)) ==> Run(s, es).core.slot.occupant == s.core.slot.occupant
    decreases |es|
  {
    if es != [] {
      assert es[0] in es;
      DeletionStep(s, es[0]);
      assert forall e :: e in es[1..] ==> e in es;
      NoOccupantDuringDeletion(Step(s, es[0]), es[1..]);
    }
  }

  // From its beginning to its end a deletion leaves the slot to nobody but the
  // turn it found there, which it has told to stop; after its end the slot can be
  // claimed again.
  lemma DeletionExcludes(s: State, es: seq<Event>)
    requires Inv(s) && DeleteEnd !in es
    ensures var r := Run(Step(s, DeleteBegin), es);
            && r.core.slot.deleting
            && (HasTurn(r) ==> r.core.slot.occupant == s.core.slot.occupant
                               && r.core.slot.occupant.value in r.core.slot.aborted)
            && Step(r, PostClaim) == r
            && !Step(r, DeleteEnd).core.slot.deleting
            && Step(r, DeleteEnd).core == r.core.(slot := r.core.slot.(deleting := false))
  {
    var s' := Step(s, DeleteBegin);
    StepKeeps(s, DeleteBegin);
    NoOccupantDuringDeletion(s', es);
    RunKeeps(s', es);
  }
}
