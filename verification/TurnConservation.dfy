// Every follow-up is accounted for: parked, in hand, run, or lost for a known
// reason, and never two of these; and follow-ups run in the order they were
// parked.
module TurnConservation {
  import opened Wrappers
  import opened Abort
  import opened TurnProtocol
  import opened TurnExclusion

  function MsgOf(a: Actor): seq<nat> {
    match a
    case DrainWaiting(m, _, _) => [m]
    case Launching(_, _, _, Some(m), _) => [m]
    case _ => []
  }

  function HandOf(actors: map<Controller, Actor>, t: Ticket): seq<nat> {
    if t.TurnTicket? && t.c in actors then MsgOf(actors[t.c]) else []
  }

  // The follow-ups that have been popped and not yet launched, in lock order.
  function InHand(lock: seq<Ticket>, actors: map<Controller, Actor>): seq<nat> {
    if lock == [] then [] else HandOf(actors, lock[0]) + InHand(lock[1..], actors)
  }

  function Hand(s: State): seq<nat> {
    InHand(s.core.lock, s.core.actors)
  }

  function Pending(s: State): seq<nat> {
    s.ledger.ran + Hand(s) + s.ledger.queue
  }

  ghost predicate Increasing(xs: seq<nat>) {
    forall i, j :: 0 <= i < j < |xs| ==> xs[i] < xs[j]
  }

  // Each number handed out so far is in `kept` or has a fate, and not both.
  ghost predicate Accounted(kept: seq<nat>, fate: map<nat, Fate>, next: nat) {
    && Increasing(kept)
    && (forall m :: m in kept ==> m < next && m !in fate)
    && (forall m :: m in fate ==> m < next)
    && (forall m: nat :: m < next ==> m in kept || m in fate)
  }

  ghost predicate LedgerInv(s: State) {
    Accounted(Pending(s), s.ledger.fate, s.ledger.next)
  }

  // ---------- what a step can do to the accounts ----------

  lemma Parked(kept: seq<nat>, fate: map<nat, Fate>, next: nat)
    requires Accounted(kept, fate, next)
    ensures Accounted(kept + [next], fate, next + 1)
  {
    assert next in kept + [next];
    assert forall i :: 0 <= i < |kept| ==> kept[i] in kept;
    forall m: nat | m < next + 1 ensures m in kept + [next] || m in fate {
      if m < next && m in kept { assert m in kept + [next]; }
    }
  }

  lemma Lost(xs: seq<nat>, ys: seq<nat>, zs: seq<nat>, fate: map<nat, Fate>, fate': map<nat, Fate>, next: nat)
    requires Accounted(xs + ys + zs, fate, next)
    requires fate'.Keys == fate.Keys + set m | m in ys
    ensures Accounted(xs + zs, fate', next)
  {
    var a, b := xs + ys + zs, xs + zs;
    assert forall i :: 0 <= i < |b| ==> b[i] == a[if i < |xs| then i else i + |ys|];
    assert forall j :: 0 <= j < |ys| ==> ys[j] == a[|xs| + j];
    forall m | m in b ensures m < next && m !in fate' {
      var i :| 0 <= i < |b| && b[i] == m;
      var i' := if i < |xs| then i else i + |ys|;
      assert a[i'] == m && m in a;
      assert forall j :: 0 <= j < |ys| ==> ys[j] != a[i'];
    }
    forall m: nat | m < next ensures m in b || m in fate' {
      if m !in fate {
        assert m in a;
        if m in xs || m in zs { assert m in b; } else { assert m in ys; }
      }
    }
    forall m | m in fate' ensures m < next {
      if m in ys { assert m in a; }
    }
  }

  // ---------- the follow-ups in hand ----------

  lemma {:induction false} InHandFrame(lock: seq<Ticket>, a: map<Controller, Actor>, b: map<Controller, Actor>)
    requires forall t :: t in lock ==> HandOf(a, t) == HandOf(b, t)
    ensures InHand(lock, a) == InHand(lock, b)
    decreases |lock|
  {
    if lock != [] {
      assert lock[0] in lock;
      assert forall t :: t in lock[1..] ==> t in lock;
      InHandFrame(lock[1..], a, b);
    }
  }

  lemma {:induction false} InHandAppend(lock: seq<Ticket>, t: Ticket, a: map<Controller, Actor>)
    ensures InHand(lock + [t], a) == InHand(lock, a) + HandOf(a, t)
    decreases |lock|
  {
    if lock == [] {
      assert lock + [t] == [t];
      assert InHand([t][1..], a) == [];
    } else {
      assert (lock + [t])[1..] == lock[1..] + [t];
      InHandAppend(lock[1..], t, a);
    }
  }

  // Nothing outside the lock is in hand.
  lemma MoveOnHand(k: Core, c: Controller, slot: Slot, a: Option<Actor>)
    requires LockInv(k) && c in k.actors
    requires !InLock(k.actors[c]) || (AtHead(k, c) && a.Some? && MsgOf(k.actors[c]) == MsgOf(a.value))
    ensures InHand(k.lock, MoveOn(k, c, slot, a).actors) == InHand(k.lock, k.actors)
  {
    InHandFrame(k.lock, MoveOn(k, c, slot, a).actors, k.actors);
  }

  lemma LeaveLockHand(k: Core, c: Controller, slot: Slot, a: Option<Actor>)
    requires LockInv(k) && AtHead(k, c) && c in k.actors
    ensures InHand(k.lock, k.actors) == MsgOf(k.actors[c]) + InHand(k.lock[1..], LeaveLock(k, c, slot, a).actors)
  {
    InHandFrame(k.lock[1..], LeaveLock(k, c, slot, a).actors, k.actors);
  }

  lemma HandOffHand(k: Core, c: Controller, slot: Slot, a: Actor)
    requires LockInv(k) && SlotInv(k) && c in k.actors && !InLock(k.actors[c])
    ensures var k' := JoinLock(MoveOn(k, c, k.slot, None), k.slot.next, slot, a);
            InHand(k'.lock, k'.actors) == InHand(k.lock, k.actors) + MsgOf(a)
  {
    var k' := JoinLock(MoveOn(k, c, k.slot, None), k.slot.next, slot, a);
    InHandAppend(k.lock, TurnTicket(k.slot.next), k'.actors);
    InHandFrame(k.lock, k'.actors, k.actors);
  }

  lemma ArriveHand(k: Core, slot: Slot)
    requires LockInv(k) && SlotInv(k)
    ensures var k' := JoinLock(k, k.slot.next, slot, PostWaiting);
            InHand(k'.lock, k'.actors) == InHand(k.lock, k.actors)
  {
    var k' := JoinLock(k, k.slot.next, slot, PostWaiting);
    InHandAppend(k.lock, TurnTicket(k.slot.next), k'.actors);
    InHandFrame(k.lock, k'.actors, k.actors);
  }

  // ---------- every event ----------

  lemma Regroup(a: seq<nat>, b: seq<nat>, c: seq<nat>, d: seq<nat>)
    ensures a + (b + c) + d == a + b + (c + d) && a + c + d == a + (c + d)
  {
  }

  // The head's follow-up is lost.
  lemma HeadLost(s: State, s': State, c: Controller, a: Option<Actor>)
    requires Inv(s) && LedgerInv(s) && AtHead(s.core, c) && c in s.core.actors && |MsgOf(s.core.actors[c])| == 1
    requires s'.core == LeaveLock(s.core, c, s'.core.slot, a)
    requires s'.ledger == Drop(s.ledger, MsgOf(s.core.actors[c])[0])
    ensures LedgerInv(s')
  {
    var ms := MsgOf(s.core.actors[c]);
    LeaveLockHand(s.core, c, s'.core.slot, a);
    Regroup(s.ledger.ran, ms, Hand(s'), s.ledger.queue);
    Lost(s.ledger.ran, ms, Hand(s') + s.ledger.queue, s.ledger.fate, s'.ledger.fate, s.ledger.next);
  }

  // Nothing happened to any follow-up.
  lemma Untouched(s: State, s': State)
    requires LedgerInv(s) && s'.ledger == s.ledger && Hand(s') == Hand(s)
    ensures LedgerInv(s')
  {
  }

  lemma QueueCleared(s: State, s': State)
    requires LedgerInv(s) && s'.ledger == ClearQueue(s.ledger) && Hand(s') == Hand(s)
    ensures LedgerInv(s')
  {
    assert Pending(s) == (s.ledger.ran + Hand(s)) + s.ledger.queue + [];
    assert Pending(s') == (s.ledger.ran + Hand(s)) + [];
    Lost(s.ledger.ran + Hand(s), s.ledger.queue, [], s.ledger.fate, s'.ledger.fate, s.ledger.next);
  }

  lemma OldestDropped(s: State, s': State)
    requires LedgerInv(s) && s.ledger.queue != [] && s'.ledger == DropOldest(s.ledger) && Hand(s') == Hand(s)
    ensures LedgerInv(s')
  {
    var q := s.ledger.queue;
    assert Pending(s) == (s.ledger.ran + Hand(s)) + [q[0]] + q[1..];
    Lost(s.ledger.ran + Hand(s), [q[0]], q[1..], s.ledger.fate, s'.ledger.fate, s.ledger.next);
  }

  lemma LedgerPost(s: State, e: Event)
    requires Inv(s) && LedgerInv(s) && (e.PostClaim? || e.PostEnter? || e.ClaimRelease?)
    ensures LedgerInv(Step(s, e))
  {
    var k, s' := s.core, Step(s, e);
    match e
    case PostClaim =>
      if !k.slot.deleting && !HasTurn(s) { ArriveHand(k, s'.core.slot); }
      else if s'.ledger != s.ledger {
        assert Pending(s') == Pending(s) + [s.ledger.next];
        Parked(Pending(s), s.ledger.fate, s.ledger.next);
      }
    case PostEnter(c, bail) =>
      if Enabled(s, c, e) {
        if s.row.None? || k.slot.deleting || bail {
          LeaveLockHand(k, c, k.slot, Some(Leaving));
          assert Hand(s') == Hand(s);
        }
        else { MoveOnHand(k, c, k.slot, Some(s'.core.actors[c])); }
      }
    case ClaimRelease(c) =>
      if Enabled(s, c, e) { MoveOnHand(k, c, s'.core.slot, None); }
  }

  lemma LedgerLaunch(s: State, c: Controller, fault: bool)
    requires Inv(s) && LedgerInv(s) && Enabled(s, c, LaunchCommit(c, fault))
    ensures LedgerInv(LaunchCommitStep(s, c, fault))
  {
    var k, s' := s.core, LaunchCommitStep(s, c, fault);
    if (s.row.None? || fault) && k.actors[c].followUp.Some? {
      HeadLost(s, s', c, Some(s'.core.actors[c]));
    } else {
      LeaveLockHand(k, c, s'.core.slot, Some(s'.core.actors[c]));
      assert Pending(s') == Pending(s);
    }
  }

  lemma LedgerDrain(s: State, c: Controller, fault: bool)
    requires Inv(s) && LedgerInv(s) && Enabled(s, c, DrainEnter(c, fault))
    ensures LedgerInv(DrainEnterStep(s, c, fault))
  {
    var k, s' := s.core, DrainEnterStep(s, c, fault);
    if !fault && !Advanced(s, k.actors[c].gen) && s.project && Owns(s, c) {
      MoveOnHand(k, c, k.slot, Some(s'.core.actors[c]));
    } else {
      HeadLost(s, s', c, if fault then Some(s'.core.actors[c]) else None);
    }
  }

  lemma LedgerHandsOff(s: State, c: Controller, cut: Option<Cut>)
    requires Inv(s) && LedgerInv(s) && Enabled(s, c, TurnFinally(c, cut))
    requires OutcomeOf(s, c, s.core.actors[c].turn, cut).HandsOff?
    ensures LedgerInv(FinallyStep(s, c, cut))
  {
    var k, s' := s.core, FinallyStep(s, c, cut);
    UnstoppedOwns(s, c);
    HandOffHand(k, c, s'.core.slot, s'.core.actors[k.slot.next]);
    assert Pending(s') == Pending(s);
  }

  // Unless the block hands off, it only moves its own controller.
  lemma FinallyMoves(s: State, c: Controller, cut: Option<Cut>)
    requires Inv(s) && Enabled(s, c, TurnFinally(c, cut))
    requires !OutcomeOf(s, c, s.core.actors[c].turn, cut).HandsOff?
    ensures Hand(FinallyStep(s, c, cut)) == Hand(s)
  {
    var k' := FinallyStep(s, c, cut).core;
    MoveOnHand(s.core, c, k'.slot, if c in k'.actors then Some(k'.actors[c]) else None);
  }

  lemma LedgerFinally(s: State, c: Controller, cut: Option<Cut>)
    requires Inv(s) && LedgerInv(s) && Enabled(s, c, TurnFinally(c, cut))
    ensures LedgerInv(FinallyStep(s, c, cut))
  {
    var s' := FinallyStep(s, c, cut);
    var o := OutcomeOf(s, c, s.core.actors[c].turn, cut);
    if o.HandsOff? {
      LedgerHandsOff(s, c, cut);
    } else {
      FinallyMoves(s, c, cut);
      if o.Discards? { QueueCleared(s, s'); }
      else if o.Abandons? || o.OrphansPopped? { OldestDropped(s, s'); }
      else { Untouched(s, s'); }
    }
  }

  lemma LedgerOutside(s: State, e: Event)
    requires Inv(s) && LedgerInv(s) && (e.DrainFail? || e.Driver? || e.CrashHandler?)
    ensures LedgerInv(Step(s, e))
  {
    match e
    case Driver(c, ev) =>
      if Enabled(s, c, e) { LedgerMovesOn(s, DriverStep(s, c, ev), c, Some(DriverStep(s, c, ev).core.actors[c])); }
    case DrainFail(c, fault) => if Enabled(s, c, e) { LedgerMovesOn(s, DrainFailStep(s, c, fault), c, None); }
    case CrashHandler(c, fault) => if Enabled(s, c, e) { LedgerMovesOn(s, CrashHandlerStep(s, c, fault), c, None); }
  }

  lemma LedgerMovesOn(s: State, s': State, c: Controller, a: Option<Actor>)
    requires Inv(s) && LedgerInv(s) && c in s.core.actors && !InLock(s.core.actors[c])
    requires s'.core == MoveOn(s.core, c, s'.core.slot, a) && s'.ledger == s.ledger
    ensures LedgerInv(s')
  {
    MoveOnHand(s.core, c, s'.core.slot, a);
  }

  lemma LedgerCancel(s: State, m: nat)
    requires LedgerInv(s) && m in s.ledger.queue
    ensures LedgerInv(Step(s, CancelPending(m)))
  {
    var s' := Step(s, CancelPending(m));
    var q := s.ledger.queue;
    var i := IndexOf(q, m);
    assert Pending(s) == (s.ledger.ran + Hand(s) + q[..i]) + [m] + q[i + 1..];
    assert Pending(s') == (s.ledger.ran + Hand(s) + q[..i]) + q[i + 1..];
    Lost(s.ledger.ran + Hand(s) + q[..i], [m], q[i + 1..], s.ledger.fate, s'.ledger.fate, s.ledger.next);
  }

  lemma LedgerEnvironment(s: State, e: Event)
    requires Inv(s) && LedgerInv(s)
    requires e.Stop? || e.CancelTask? || e.ClearStop? || e.ClearFinish? || e.Vanish? || e.ProjectVanish?
    ensures LedgerInv(Step(s, e))
  {
    var s' := Step(s, e);
    if s'.ledger == s.ledger { Untouched(s, s'); } else { QueueCleared(s, s'); }
  }

  lemma LedgerLock(s: State, e: Event)
    requires Inv(s) && LedgerInv(s)
    requires e.DeleteBegin? || e.DeleteEnd? || e.OtherTask? || e.ClearRead?
    ensures LedgerInv(Step(s, e))
  {
    Untouched(s, Step(s, e));
  }

  lemma LedgerGit(s: State, e: Event)
    requires Inv(s) && LedgerInv(s) && (e.GitEnter? || e.GitExit?)
    ensures LedgerInv(Step(s, e))
  {
    GitHand(s, e);
    Untouched(s, Step(s, e));
  }

  lemma LedgerArrive(s: State)
    requires LedgerInv(s)
    ensures LedgerInv(Step(s, GitArrive))
  {
    InHandAppend(s.core.lock, GitTicket, s.core.actors);
    Untouched(s, Step(s, GitArrive));
  }

  lemma GitHand(s: State, e: Event)
    requires Inv(s) && (e.GitEnter? || e.GitExit?)
    ensures Hand(Step(s, e)) == Hand(s)
  {
  }

  lemma LedgerStep(s: State, e: Event)
    requires Inv(s) && LedgerInv(s)
    ensures LedgerInv(Step(s, e))
  {
    match e
    case PostClaim => LedgerPost(s, e);
    case PostEnter(_, _) => LedgerPost(s, e);
    case ClaimRelease(_) => LedgerPost(s, e);
    case LaunchCommit(c, fault) => if Enabled(s, c, e) { LedgerLaunch(s, c, fault); }
    case DrainEnter(c, fault) => if Enabled(s, c, e) { LedgerDrain(s, c, fault); }
    case TurnFinally(c, cut) => if Enabled(s, c, e) { LedgerFinally(s, c, cut); }
    case DrainFail(_, _) => LedgerOutside(s, e);
    case Driver(_, _) => LedgerOutside(s, e);
    case CrashHandler(_, _) => LedgerOutside(s, e);
    case Stop => LedgerEnvironment(s, e);
    case CancelTask => LedgerEnvironment(s, e);
    case ClearStop(_) => LedgerEnvironment(s, e);
    case ClearFinish(_) => LedgerEnvironment(s, e);
    case Vanish => LedgerEnvironment(s, e);
    case ProjectVanish => LedgerEnvironment(s, e);
    case CancelPending(m) => if m in s.ledger.queue { LedgerCancel(s, m); }
    case GitArrive => LedgerArrive(s);
    case GitEnter => LedgerGit(s, e);
    case GitExit => LedgerGit(s, e);
    case _ => LedgerLock(s, e);
  }

  lemma {:induction false} LedgerRun(s: State, es: seq<Event>)
    requires Inv(s) && LedgerInv(s)
    ensures Inv(Run(s, es)) && LedgerInv(Run(s, es))
    decreases |es|
  {
    if es != [] {
      StepKeeps(s, es[0]);
      LedgerStep(s, es[0]);
      LedgerRun(Step(s, es[0]), es[1..]);
    }
  }

  lemma LedgerReached(gen: nat, es: seq<Event>)
    ensures LedgerInv(Run(Init(gen), es))
  {
    InitInv(gen);
    LedgerRun(Init(gen), es);
  }

  // ---------- what the accounts mean ----------

  lemma Apart(xs: seq<nat>, ys: seq<nat>, zs: seq<nat>)
    requires Increasing(xs + ys + zs)
    ensures Increasing(xs) && Increasing(ys) && Increasing(zs)
    ensures forall x, y :: x in xs && y in ys ==> x < y
    ensures forall y, z :: y in ys && z in zs ==> y < z
    ensures forall x, z :: x in xs && z in zs ==> x < z
  {
    var a := xs + ys + zs;
    assert forall i :: 0 <= i < |xs| ==> xs[i] == a[i];
    assert forall i :: 0 <= i < |ys| ==> ys[i] == a[|xs| + i];
    assert forall i :: 0 <= i < |zs| ==> zs[i] == a[|xs| + |ys| + i];
  }

  predicate HasRun(s: State, m: nat) { m in s.ledger.ran }
  predicate IsInHand(s: State, m: nat) { m in Hand(s) }
  predicate IsParked(s: State, m: nat) { m in s.ledger.queue }
  predicate IsLost(s: State, m: nat) { m in s.ledger.fate }

  // In every run each follow-up ever parked is exactly one of: still parked,
  // popped and waiting to launch, launched, or lost (cancelled, cleared, or
  // dropped after its pop).
  lemma EveryFollowUpAccounted(gen: nat, es: seq<Event>, m: nat)
    requires m < Run(Init(gen), es).ledger.next
    ensures var s := Run(Init(gen), es);
            && (HasRun(s, m) || IsInHand(s, m) || IsParked(s, m) || IsLost(s, m))
            && (HasRun(s, m) ==> !IsInHand(s, m) && !IsParked(s, m) && !IsLost(s, m))
            && (IsInHand(s, m) ==> !IsParked(s, m) && !IsLost(s, m))
            && (IsParked(s, m) ==> !IsLost(s, m))
  {
    LedgerReached(gen, es);
    OneAccount(Run(Init(gen), es), m);
  }

  lemma OneAccount(s: State, m: nat)
    requires LedgerInv(s) && m < s.ledger.next
    ensures HasRun(s, m) || IsInHand(s, m) || IsParked(s, m) || IsLost(s, m)
    ensures HasRun(s, m) ==> !IsInHand(s, m) && !IsParked(s, m) && !IsLost(s, m)
    ensures IsInHand(s, m) ==> !IsParked(s, m) && !IsLost(s, m)
    ensures IsParked(s, m) ==> !IsLost(s, m)
  {
    Apart(s.ledger.ran, Hand(s), s.ledger.queue);
    assert m in Pending(s) <==> HasRun(s, m) || IsInHand(s, m) || IsParked(s, m);
  }

  // Follow-ups run in the order they were parked, and whatever is still waiting
  // was parked after everything that has run.
  lemma FollowUpsRunInOrder(gen: nat, es: seq<Event>)
    ensures Increasing(Run(Init(gen), es).ledger.ran)
    ensures forall m, w :: m in Run(Init(gen), es).ledger.ran && w in Run(Init(gen), es).ledger.queue ==> m < w
  {
    LedgerReached(gen, es);
    InOrder(Run(Init(gen), es));
  }

  lemma InOrder(s: State)
    requires LedgerInv(s)
    ensures Increasing(s.ledger.ran)
    ensures forall m, w :: m in s.ledger.ran && w in s.ledger.queue ==> m < w
  {
    Apart(s.ledger.ran, Hand(s), s.ledger.queue);
  }

  // A verdict is final: what has run stays run, what is lost stays lost, for
  // the same reason.
  predicate Extends(l: Ledger, l': Ledger) {
    && l.ran <= l'.ran
    && forall m :: m in l.fate ==> m in l'.fate && l'.fate[m] == l.fate[m]
  }

  lemma HeadUnjudged(s: State, c: Controller)
    requires Inv(s) && LedgerInv(s) && AtHead(s.core, c) && c in s.core.actors
    ensures forall m :: m in MsgOf(s.core.actors[c]) ==> m !in s.ledger.fate
  {
    LeaveLockHand(s.core, c, s.core.slot, None);
    assert forall m :: m in MsgOf(s.core.actors[c]) ==> m in Pending(s);
  }

  lemma HeadVerdict(s: State, e: Event)
    requires Inv(s) && LedgerInv(s) && (e.LaunchCommit? || e.DrainEnter?) && Enabled(s, e.c, e)
    ensures Extends(s.ledger, Step(s, e).ledger)
  {
    HeadUnjudged(s, e.c);
    assert forall m :: m in MsgOf(s.core.actors[e.c]) ==> Extends(s.ledger, Drop(s.ledger, m));
  }

  lemma FinalVerdict(l: Ledger, o: Outcome)
    requires forall m :: m in l.queue ==> m !in l.fate
    requires o.Abandons? || o.OrphansPopped? || o.HandsOff? ==> l.queue != []
    ensures Extends(l, FinallyLedger(l, o))
  {
  }

  lemma QueueVerdict(s: State, e: Event)
    requires forall m :: m in s.ledger.queue ==> m !in s.ledger.fate
    requires e.PostClaim? || e.Stop? || e.ClearFinish? || e.Vanish? || e.CancelPending?
    ensures Extends(s.ledger, Step(s, e).ledger)
  {
    assert Extends(s.ledger, ClearQueue(s.ledger));
  }

  lemma NoVerdict(s: State, e: Event)
    requires !(e.PostClaim? || e.Stop? || e.ClearFinish? || e.Vanish? || e.CancelPending?)
    requires !(e.LaunchCommit? || e.DrainEnter? || e.TurnFinally?)
    ensures Step(s, e).ledger == s.ledger
  {
  }

  lemma VerdictsAreFinal(s: State, e: Event)
    requires Inv(s) && LedgerInv(s)
    ensures Extends(s.ledger, Step(s, e).ledger)
  {
    assert forall m :: m in s.ledger.queue ==> m in Pending(s) && m !in s.ledger.fate;
    if e.LaunchCommit? || e.DrainEnter? {
      if Enabled(s, e.c, e) { HeadVerdict(s, e); }
    } else if e.TurnFinally? {
      if Enabled(s, e.c, e) { FinalVerdict(s.ledger, OutcomeOf(s, e.c, s.core.actors[e.c].turn, e.cut)); }
    } else if e.PostClaim? || e.Stop? || e.ClearFinish? || e.Vanish? || e.CancelPending? {
      QueueVerdict(s, e);
    } else {
      NoVerdict(s, e);
    }
  }
}
