// The runner's synchronous stretches, written the way lib/runner.ts writes them:
// reading and changing the registry, the row and the queue one after the other.
// Each is proved to be the corresponding event of TurnProtocol.
module Runner {
  import opened Wrappers
  import opened Abort
  import opened TurnProtocol

  // Outcomes after which the block ends without releasing its own controller.
  predicate Over(o: Outcome) {
    o.Orphans? || o.OrphansPopped? || o.HandsOff?
  }

  // Once the queue has been looked at: all is done, or the block still has to
  // release its controller and publish turn_end.
  function QueueDone(s: State, c: Controller, t: Turn, o: Outcome): State
    requires o.Abandons? || o.OrphansPopped? || o.HandsOff? ==> s.ledger.queue != []
  {
    s.(core := if Over(o) then FinallyCore(s.core, c, t, o, false, Oldest(s.ledger))
               else s.core.(slot := Kept(s.core.slot, c, o)),
       ledger := FinallyLedger(s.ledger, o),
       log := if Over(o) then FinallyLog(s.log, o, false) else s.log.(silent := s.log.silent + Blame(o)))
  }

  // The end of the block when nothing takes over; storage may fail once more.
  function Closed(s: State, c: Controller, t: Turn, atEnd: bool): State {
    if atEnd
    then s.(core := MoveOn(s.core, c, s.core.slot, Some(Crashed(t.gen))), log := Fault(s.log))
    else s.(core := MoveOn(s.core, c, Unregister(s.core.slot, c), None), log := s.log.(owed := false))
  }

  lemma Closing(s: State, c: Controller, t: Turn, o: Outcome, atEnd: bool)
    requires !o.Throws? && !o.Defers?
    requires o.Abandons? || o.OrphansPopped? || o.HandsOff? ==> s.ledger.queue != []
    ensures var d := if Over(o) then QueueDone(s, c, t, o) else Closed(QueueDone(s, c, t, o), c, t, atEnd);
            && d.core == FinallyCore(s.core, c, t, o, atEnd, Oldest(s.ledger))
            && d.ledger == FinallyLedger(s.ledger, o) && d.log == FinallyLog(s.log, o, atEnd)
            && d.row == s.row && d.project == s.project && d.clears == s.clears
  {
  }

  // The slot has been handed to `next`, who gets the oldest follow-up or lets go.
  function FollowUpTaken(s: State, c: Controller, next: Controller, t: Turn, cut: Option<Cut>): State {
    var k := s.core;
    if s.ledger.queue == [] then s.(core := k.(slot := Unregister(k.slot, next)))
    else if cut == Some(AfterPop) then
      s.(core := k.(actors := k.actors[c := Crashed(t.gen)]), ledger := DropOldest(s.ledger),
         log := Fault(s.log).(leaked := true))
    else if s.project then
      s.(core := JoinLock(k.(actors := k.actors - {c}), next, k.slot,
                          DrainWaiting(s.ledger.queue[0], t.gen, t.didOpen)),
         ledger := Pop(s.ledger))
    else
      s.(core := k.(slot := Unregister(k.slot, next)), ledger := DropOldest(s.ledger),
         log := Because(s.log, ProjectMissing))
  }

  lemma TakesFollowUp(s: State, c: Controller, t: Turn, cut: Option<Cut>)
    requires c !in s.core.slot.aborted && !Advanced(s, t.gen) && !t.deadLogin
    requires Handoff(s.core.slot, c).1.Some? && cut != Some(AfterHandoff)
    ensures var o := QueueOutcome(s, c, t, cut);
            var (slot, next) := Handoff(s.core.slot, c);
            && FollowUpTaken(s.(core := s.core.(slot := slot)), c, next.value, t, cut) == QueueDone(s, c, t, o)
            && (Over(o) <==> s.ledger.queue != [] && (cut == Some(AfterPop) || s.project))
  {
  }

  class TaskRunner {
    const id: TaskId
    const registry: AbortRegistry
    var row: Option<Row>
    var project: bool
    var queue: seq<nat>
    var parked: nat
    var actors: map<Controller, Actor>
    var lock: seq<Ticket>
    // What the specification remembers about the past and the other routes.
    ghost var gitIn: bool
    ghost var clears: Clears
    ghost var ran: seq<nat>
    ghost var fate: map<nat, Fate>
    ghost var log: Log

    ghost function Value(): State
      reads this, registry
    {
      State(Core(registry.View(id), actors, lock, gitIn), row, project, clears, Ledger(queue, ran, fate, parked), log)
    }

    constructor (id: TaskId, registry: AbortRegistry, gen: nat)
      requires registry.Valid() && registry.View(id) == Slot(None, false, {}, 0)
      ensures this.id == id && this.registry == registry && Value() == Init(gen)
    {
      this.id, this.registry := id, registry;
      row, project, queue, actors, lock := Some(Row(gen, false, None, false, false)), true, [], map[], [];
      gitIn, clears, ran, fate, parked := false, Clears(multiset{}, multiset{}), [], map[], 0;
      log := Log(false, {}, false, false, false);
    }

    // ---------- this task's slot ----------

    method ReleaseSlot(c: Controller)
      requires registry.Valid()
      modifies registry
      ensures registry.Valid()
      ensures registry.View(id) == Unregister(old(registry.View(id)), c)
    {
      registry.UnregisterTurn(id, c);
    }

    method PassSlot(c: Controller) returns (next: Option<Controller>)
      requires registry.Valid()
      modifies registry
      ensures registry.Valid()
      ensures (registry.View(id), next) == Handoff(old(registry.View(id)), c)
    {
      next := registry.HandoffTurn(id, c);
    }

    // ---------- the pending queue ----------

    method AddPendingMessage()
      modifies this`queue, this`parked
      ensures Ledger(queue, ran, fate, parked) == Park(old(Ledger(queue, ran, fate, parked)))
    {
      queue := queue + [parked];
      parked := parked + 1;
    }

    method PopPendingMessage() returns (m: Option<nat>)
      modifies this`queue
      ensures old(queue) == [] ==> m.None? && queue == []
      ensures old(queue) != [] ==> m.Some? && old(queue) == [m.value] + queue
    {
      if queue == [] { return None; }
      m := Some(queue[0]);
      queue := queue[1..];
    }

    method ClearPendingMessages()
      modifies this`queue, this`fate
      ensures Ledger(queue, ran, fate, parked) == ClearQueue(old(Ledger(queue, ran, fate, parked)))
    {
      fate := fate + map m | m in queue :: Cleared;
      queue := [];
    }

    // ---------- the finally block ----------

    // A throw out of the block: the controller is left to startTurn's handler.
    method Throw(c: Controller, gen: nat)
      modifies this`actors, this`log
      ensures actors == old(actors)[c := Crashed(gen)] && log == Fault(old(log))
    {
      actors := actors[c := Crashed(gen)];
      log := Fault(log);
    }

    // The end of the block when nothing takes over.
    method Close(c: Controller, t: Turn, cut: Option<Cut>)
      requires registry.Valid()
      modifies this`actors, this`log, registry
      ensures registry.Valid()
      ensures Value() == Closed(old(Value()), c, t, cut == Some(AtEnd))
    {
      if cut == Some(AtEnd) {
        Throw(c, t.gen);
      } else {
        ReleaseSlot(c);
        actors := actors - {c};
        log := log.(owed := false);
      }
    }

    // Storage fails behind the pop: the message is gone, the slot handed on.
    method LosePopped(c: Controller, t: Turn, msg: nat)
      modifies this`fate, this`actors, this`log
      ensures fate == old(fate)[msg := Dropped] && actors == old(actors)[c := Crashed(t.gen)]
      ensures log == Fault(old(log)).(leaked := true)
    {
      fate := fate[msg := Dropped];
      Throw(c, t.gen);
      log := log.(leaked := true);
    }

    // The popped follow-up queues on the lock, holding the slot.
    method QueueUp(c: Controller, next: Controller, t: Turn, msg: nat)
      modifies this`actors, this`lock
      ensures actors == (old(actors) - {c})[next := DrainWaiting(msg, t.gen, t.didOpen)]
      ensures lock == old(lock) + [TurnTicket(next)]
    {
      actors := (actors - {c})[next := DrainWaiting(msg, t.gen, t.didOpen)];
      lock := lock + [TurnTicket(next)];
    }

    // There is no project to run the popped follow-up in.
    method Abandon(msg: nat)
      modifies this`fate, this`log
      ensures fate == old(fate)[msg := Dropped] && log == Because(old(log), ProjectMissing)
    {
      fate := fate[msg := Dropped];
      log := Because(log, ProjectMissing);
    }

    // The slot has been handed to `next`: find the follow-up to give it to.
    // True when one is on its way, or when storage failed.
    method TakeFollowUp(c: Controller, next: Controller, t: Turn, cut: Option<Cut>) returns (over: bool)
      requires registry.Valid() && registry.View(id).occupant == Some(next)
      modifies this, registry
      ensures registry.Valid()
      ensures Value() == FollowUpTaken(old(Value()), c, next, t, cut)
      ensures over <==> old(queue) != [] && (cut == Some(AfterPop) || project)
    {
      var msg := PopPendingMessage();
      over := msg.Some? && (cut == Some(AfterPop) || project);
      if msg.None? {
        ReleaseSlot(next);
      } else if cut == Some(AfterPop) {
        LosePopped(c, t, msg.value);
      } else if project {
        QueueUp(c, next, t, msg.value);
      } else {
        Abandon(msg.value);
        ReleaseSlot(next);
      }
    }

    // The slot is handed on before the queue is looked at.
    method HandOn(c: Controller, t: Turn, cut: Option<Cut>) returns (over: bool)
      requires registry.Valid() && c in actors && actors[c] == Streaming(t)
      requires !Superseded(Value(), c) && c !in registry.tripped && !Advanced(Value(), t.gen) && !t.deadLogin
      modifies this, registry
      ensures registry.Valid()
      ensures Value() == QueueDone(old(Value()), c, t, QueueOutcome(old(Value()), c, t, cut))
      ensures over <==> Over(QueueOutcome(old(Value()), c, t, cut))
    {
      ghost var s := Value();
      var next := PassSlot(c);
      if next.None? {
        over := false;
      } else if cut == Some(AfterHandoff) {
        Throw(c, t.gen);
        log := log.(leaked := true);
        over := true;
      } else {
        TakesFollowUp(s, c, t, cut);
        assert Value() == s.(core := s.core.(slot := Handoff(s.core.slot, c).0));
        over := TakeFollowUp(c, next.value, t, cut);
      }
    }

    // What becomes of the queue.  True when the block ends here.
    method DecideQueue(c: Controller, t: Turn, cut: Option<Cut>) returns (over: bool)
      requires registry.Valid() && c in actors && actors[c] == Streaming(t)
      requires !Superseded(Value(), c)
      modifies this, registry
      ensures registry.Valid()
      ensures Value() == QueueDone(old(Value()), c, t, QueueOutcome(old(Value()), c, t, cut))
      ensures over <==> Over(QueueOutcome(old(Value()), c, t, cut))
    {
      over := false;
      if c in registry.tripped || row.None? || row.value.gen != t.gen {
        ClearPendingMessages();
      } else if t.deadLogin {
        log := Because(log, LoginDead);
      } else {
        over := HandOn(c, t, cut);
      }
    }

    // The row is settled only by a turn nobody has overtaken.  True when
    // storage fails.
    method SettleRow(c: Controller, t: Turn, cut: Option<Cut>) returns (threw: bool)
      modifies this`row
      ensures var settles := !old(Advanced(Value(), t.gen)) && !old(Superseded(Value(), c));
              && threw == (cut == Some(AfterSettle) || (cut == Some(AtSettle) && settles))
              && row == (if settles && cut != Some(AtSettle)
                         then Some(old(row).value.(running := false, session := t.session, awaiting := t.didOpen))
                         else old(row))
    {
      var superseded := id in registry.registry && registry.registry[id] != c;
      var generationAdvanced := row.None? || row.value.gen != t.gen;
      if !generationAdvanced && !superseded {
        if cut == Some(AtSettle) { return true; }
        row := Some(row.value.(running := false, session := t.session, awaiting := t.didOpen));
      }
      threw := cut == Some(AfterSettle);
    }

    method DecideAndClose(c: Controller, t: Turn, cut: Option<Cut>)
      requires registry.Valid() && c in actors && actors[c] == Streaming(t)
      requires !Superseded(Value(), c)
      modifies this, registry
      ensures registry.Valid()
      ensures var s, o, atEnd := old(Value()), QueueOutcome(old(Value()), c, t, cut), cut == Some(AtEnd);
              Value() == s.(core := FinallyCore(s.core, c, t, o, atEnd, Oldest(s.ledger)),
                            ledger := FinallyLedger(s.ledger, o), log := FinallyLog(s.log, o, atEnd))
    {
      ghost var s := Value();
      var over := DecideQueue(c, t, cut);
      Closing(s, c, t, QueueOutcome(s, c, t, cut), cut == Some(AtEnd));
      if !over { Close(c, t, cut); }
    }

    method Finally(c: Controller, cut: Option<Cut>)
      requires registry.Valid() && c in actors && actors[c].Streaming?
      modifies this, registry
      ensures registry.Valid()
      ensures Value() == FinallyStep(old(Value()), c, cut)
    {
      var t := actors[c].turn;
      ghost var o := OutcomeOf(Value(), c, t, cut);
      var threw := SettleRow(c, t, cut);
      if threw {
        assert o.Throws?;
        Throw(c, t.gen);
      } else if id in registry.registry && registry.registry[id] != c {
        assert o.Defers?;
        actors := actors - {c};
      } else {
        assert o == QueueOutcome(Value(), c, t, cut);
        DecideAndClose(c, t, cut);
      }
    }

    // ---------- the handler behind `run` ----------

    method AfterCrash(c: Controller, fault: bool)
      requires registry.Valid() && c in actors && actors[c].Crashed?
      modifies this, registry
      ensures registry.Valid()
      ensures Value() == CrashHandlerStep(old(Value()), c, fault)
    {
      var gen := actors[c].gen;
      actors := actors - {c};
      ReleaseSlot(c);
      if id in registry.registry {
        log := Because(log, TurnCrashed);
      } else if fault {
        log := Because(Fault(log), SettleLost);
      } else {
        if row.Some? && row.value.gen == gen && row.value.running {
          row := Some(row.value.(running := false));
        }
        log := TurnEnd(log, {TurnCrashed});
      }
    }

    // ---------- the drainer ----------

    method DrainCallback(c: Controller, fault: bool)
      requires registry.Valid() && AtHead(Value().core, c) && c in actors && actors[c].DrainWaiting?
      modifies this, registry
      ensures registry.Valid()
      ensures Value() == DrainEnterStep(old(Value()), c, fault)
    {
      var d := actors[c];
      if fault {
        fate, actors, lock := fate[d.msg := Dropped], actors[c := Failing(d.didOpen)], lock[1..];
        log := Fault(log);
        return;
      }
      if row.None? || row.value.gen != d.gen {
        ReleaseSlot(c);
        fate, actors, lock := fate[d.msg := Dropped], actors - {c}, lock[1..];
        log := Because(log, StaleDrain);
        return;
      }
      if !project {
        ReleaseSlot(c);
        fate, actors, lock := fate[d.msg := Dropped], actors - {c}, lock[1..];
        log := TurnEnd(log, {ProjectMissing});
        return;
      }
      if id !in registry.registry || registry.registry[id] != c {
        if id !in registry.registry { log := TurnEnd(log, {StoppedDrain}); }
        fate, actors, lock := fate[d.msg := Dropped], actors - {c}, lock[1..];
        return;
      }
      actors := actors[c := Launching(row.value.gen, row.value.session, false, Some(d.msg), d.didOpen)];
    }

    method DrainCatch(c: Controller, fault: bool)
      requires registry.Valid() && c in actors && actors[c].Failing?
      modifies this, registry
      ensures registry.Valid()
      ensures Value() == DrainFailStep(old(Value()), c, fault)
    {
      var didOpen := actors[c].didOpen;
      ReleaseSlot(c);
      actors := actors - {c};
      if row.None? || fault {
        if fault { log := Fault(log); }
        log := Because(log, LaunchLost);
        return;
      }
      row := Some(row.value.(running := false, awaiting := didOpen));
      log := TurnEnd(log, {LaunchFailed});
    }

    // ---------- launching ----------

    method FailLaunch(c: Controller, l: Actor, fault: bool)
      requires registry.Valid() && l.Launching?
      modifies this`actors, this`fate, this`log, registry
      ensures registry.Valid()
      ensures registry.View(id) == (if l.initial then old(registry.View(id)) else Unregister(old(registry.View(id)), c))
      ensures actors == old(actors)[c := if l.followUp.None? then Leaving else Failing(l.didOpen)]
      ensures fate == if l.followUp.None? then old(fate) else old(fate)[l.followUp.value := Dropped]
      ensures log == if fault then Fault(old(log)) else old(log)
    {
      if !l.initial { ReleaseSlot(c); }
      if fault { log := Fault(log); }
      actors := actors[c := if l.followUp.None? then Leaving else Failing(l.didOpen)];
      if l.followUp.Some? { fate := fate[l.followUp.value := Dropped]; }
    }

    method CommitLaunch(c: Controller, fault: bool)
      requires registry.Valid() && AtHead(Value().core, c) && c in actors && actors[c].Launching?
      modifies this, registry
      ensures registry.Valid()
      ensures Value() == LaunchCommitStep(old(Value()), c, fault)
    {
      var l := actors[c];
      lock := lock[1..];
      if row.None? || fault {
        FailLaunch(c, l, fault);
      } else {
        row := Some(row.value.(running := true, awaiting := false));
        actors := actors[c := Streaming(Turn(l.gen, l.session, false, {}, {}, false))];
        if l.followUp.Some? { ran := ran + [l.followUp.value]; }
        log := log.(owed := true, silent := {});
      }
    }

    // ---------- POST and Stop ----------

    method Post()
      requires registry.Valid()
      modifies this, registry
      ensures registry.Valid()
      ensures Value() == PostClaimStep(old(Value()))
    {
      var c := registry.ClaimTurn(id);
      if c.Some? {
        actors := actors[c.value := PostWaiting];
        lock := lock + [TurnTicket(c.value)];
      } else if id !in registry.deletingTasks && row.Some? {
        AddPendingMessage();
      }
    }

    method Stop() returns (aborted: bool)
      requires registry.Valid()
      modifies this, registry
      ensures registry.Valid()
      ensures Value() == StopStep(old(Value()))
      ensures aborted <==> old(HasTurn(Value()))
    {
      aborted := registry.AbortTurn(id);
      if aborted { ClearPendingMessages(); }
    }
  }
}
