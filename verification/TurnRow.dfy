// The columns of the task row over whole runs: who raised a flag last, who
// lowered it since, and that a request of /clear writes once.
module TurnRow {
  import opened Wrappers
  import opened Abort
  import opened TurnProtocol
  import opened TurnLosses

  // ---------- a flag is what its last writer made it ----------

  // Event k raised the flag, and none has lowered it since.
  ghost predicate RaisedLast(
    states: seq<State>, es: seq<Event>, raises: (State, Event) -> bool, lowers: (State, Event) -> bool, k: nat)
  {
    && k < |es| <= |states|
    && raises(states[k], es[k]) && forall j :: k < j < |es| ==> !lowers(states[j], es[j])
  }

  lemma {:induction false} LastWriterWins(
    states: seq<State>, es: seq<Event>,
    up: State -> bool, raises: (State, Event) -> bool, lowers: (State, Event) -> bool)
    requires |states| == |es| + 1 && !up(states[0])
    requires forall k :: 0 <= k < |es| ==>
               (up(states[k + 1]) <==> raises(states[k], es[k]) || (up(states[k]) && !lowers(states[k], es[k])))
    ensures up(states[|es|]) <==> exists k :: RaisedLast(states, es, raises, lowers, k)
    decreases |es|
  {
    if es != [] {
      var n := |es| - 1;
      var before, past := states[..n + 1], es[..n];
      LastWriterWins(before, past, up, raises, lowers);
      if raises(states[n], es[n]) { assert RaisedLast(states, es, raises, lowers, n); }
      if k: nat :| RaisedLast(before, past, raises, lowers, k) {
        if !lowers(states[n], es[n]) { assert RaisedLast(states, es, raises, lowers, k); }
      }
      if k: nat :| RaisedLast(states, es, raises, lowers, k) {
        if k < n { assert RaisedLast(before, past, raises, lowers, k); }
      }
    }
  }

  // The finally block of the turn writes the row.
  predicate SettlesRow(s: State, e: Event) {
    && e.TurnFinally? && Enabled(s, e.c, e) && e.cut != Some(AtSettle)
    && s.row.Some? && s.row.value.gen == s.core.actors[e.c].turn.gen
    && (HasTurn(s) ==> Owns(s, e.c))
  }

  predicate Writes(s: State, e: Event) {
    s.row.Some? && e.LaunchCommit? && Enabled(s, e.c, e) && !e.fault
  }

  // The drainer's failsafe writes the row.
  predicate FailsafeWrites(s: State, e: Event) {
    s.row.Some? && e.DrainFail? && Enabled(s, e.c, e) && !e.fault
  }

  // /clear writes the row, or it goes.
  predicate StartsOver(s: State, e: Event) {
    e.Vanish? || (e.ClearFinish? && s.row.Some? && e.gen in s.clears.stopped)
  }

  // ---------- running ----------

  predicate RunningUp(s: State) {
    s.row.Some? && s.row.value.running
  }

  // The handler behind `run` writes the row, unless somebody else is in the slot.
  predicate HandlerWrites(s: State, e: Event) {
    && e.CrashHandler? && Enabled(s, e.c, e) && !e.fault
    && s.row.Some? && s.row.value.gen == s.core.actors[e.c].gen
    && (HasTurn(s) ==> Owns(s, e.c))
  }

  predicate RunningOff(s: State, e: Event) {
    SettlesRow(s, e) || FailsafeWrites(s, e) || HandlerWrites(s, e) || StartsOver(s, e)
  }

  lemma RunningStep(s: State, e: Event)
    ensures RunningUp(Step(s, e)) <==> Writes(s, e) || (RunningUp(s) && !RunningOff(s, e))
  {
    if e.TurnFinally? {
      RunningFinally(s, e);
    } else if e.LaunchCommit? || e.DrainFail? || e.CrashHandler? || e.DrainEnter? || e.Driver? {
      RunningMoved(s, e);
    } else {
      RunningRest(s, e);
    }
  }

  lemma RunningRest(s: State, e: Event)
    requires !e.TurnFinally? && !e.LaunchCommit? && !e.DrainFail? && !e.CrashHandler? && !e.DrainEnter? && !e.Driver?
    ensures RunningUp(Step(s, e)) <==> RunningUp(s) && !StartsOver(s, e)
  {
  }

  lemma RunningFinally(s: State, e: Event)
    requires e.TurnFinally?
    ensures RunningUp(Step(s, e)) <==> RunningUp(s) && !SettlesRow(s, e)
  {
  }

  lemma RunningMoved(s: State, e: Event)
    requires e.LaunchCommit? || e.DrainFail? || e.CrashHandler? || e.DrainEnter? || e.Driver?
    ensures RunningUp(Step(s, e)) <==> Writes(s, e) || (RunningUp(s) && !RunningOff(s, e))
  {
  }

  // In every run: running is on exactly if a launch came after the last write that
  // turns it off.
  lemma RunningExactly(gen: nat, es: seq<Event>)
    ensures RunningUp(Run(Init(gen), es)) <==>
            exists k :: RaisedLast(Trace(gen, es), es, Writes, RunningOff, k)
  {
    var states := Trace(gen, es);
    assert es[..|es|] == es && es[..0] == [];
    forall k | 0 <= k < |es|
      ensures RunningUp(states[k + 1]) <==>
              Writes(states[k], es[k]) || (RunningUp(states[k]) && !RunningOff(states[k], es[k]))
    {
      TraceStep(gen, es, k);
      RunningStep(states[k], es[k]);
    }
    LastWriterWins(states, es, RunningUp, Writes, RunningOff);
  }

  // ---------- awaiting_input ----------

  predicate AwaitingUp(s: State) {
    s.row.Some? && s.row.value.awaiting
  }

  // A question is stored, or a turn settles after it opened a session.
  predicate AwaitingOn(s: State, e: Event) {
    || (s.row.Some? && e.Driver? && Enabled(s, e.c, e) && e.ev.Ask?)
    || (SettlesRow(s, e) && s.core.actors[e.c].turn.didOpen)
    || (FailsafeWrites(s, e) && s.core.actors[e.c].didOpen)
  }

  // The last open question is answered, a launch, a cancelled task, /clear, or a
  // turn that settles without a session.
  predicate AwaitingOff(s: State, e: Event) {
    || (&& e.Driver? && Enabled(s, e.c, e) && e.ev.Answered?
        && e.ev.id in s.core.actors[e.c].turn.known && s.core.actors[e.c].turn.asks <= {e.ev.id})
    || Writes(s, e) || e.CancelTask? || StartsOver(s, e)
    || (SettlesRow(s, e) && !s.core.actors[e.c].turn.didOpen)
    || (FailsafeWrites(s, e) && !s.core.actors[e.c].didOpen)
  }

  lemma AwaitingStep(s: State, e: Event)
    ensures AwaitingUp(Step(s, e)) <==> AwaitingOn(s, e) || (AwaitingUp(s) && !AwaitingOff(s, e))
  {
    if e.TurnFinally? {
      AwaitingFinally(s, e);
    } else if e.Driver? {
      AwaitingDriver(s, e);
    } else if e.LaunchCommit? || e.DrainFail? || e.CrashHandler? || e.DrainEnter? {
      AwaitingMoved(s, e);
    } else {
      AwaitingRest(s, e);
    }
  }

  lemma AwaitingRest(s: State, e: Event)
    requires !e.TurnFinally? && !e.Driver? && !e.LaunchCommit? && !e.DrainFail? && !e.CrashHandler? && !e.DrainEnter?
    ensures AwaitingUp(Step(s, e)) <==> AwaitingUp(s) && !e.CancelTask? && !StartsOver(s, e)
  {
  }

  lemma AwaitingFinally(s: State, e: Event)
    requires e.TurnFinally?
    ensures AwaitingUp(Step(s, e)) <==> AwaitingOn(s, e) || (AwaitingUp(s) && !AwaitingOff(s, e))
  {
  }

  lemma AwaitingDriver(s: State, e: Event)
    requires e.Driver?
    ensures AwaitingUp(Step(s, e)) <==> AwaitingOn(s, e) || (AwaitingUp(s) && !AwaitingOff(s, e))
  {
    if Enabled(s, e.c, e) && e.ev.Answered? {
      var asks := s.core.actors[e.c].turn.asks;
      assert asks - {e.ev.id} == {} <==> asks <= {e.ev.id} by {
        if asks - {e.ev.id} == {} { assert forall a :: a in asks ==> a == e.ev.id || a in asks - {e.ev.id}; }
      }
    }
  }

  lemma AwaitingMoved(s: State, e: Event)
    requires e.LaunchCommit? || e.DrainFail? || e.CrashHandler? || e.DrainEnter?
    ensures AwaitingUp(Step(s, e)) <==> AwaitingOn(s, e) || (AwaitingUp(s) && !AwaitingOff(s, e))
  {
  }

  // In every run: the task waits for the user exactly if one of these came after
  // the last of those.
  lemma AwaitingExactly(gen: nat, es: seq<Event>)
    ensures AwaitingUp(Run(Init(gen), es)) <==>
            exists k :: RaisedLast(Trace(gen, es), es, AwaitingOn, AwaitingOff, k)
  {
    var states := Trace(gen, es);
    assert es[..|es|] == es && es[..0] == [];
    forall k | 0 <= k < |es|
      ensures AwaitingUp(states[k + 1]) <==>
              AwaitingOn(states[k], es[k]) || (AwaitingUp(states[k]) && !AwaitingOff(states[k], es[k]))
    {
      TraceStep(gen, es, k);
      AwaitingStep(states[k], es[k]);
    }
    LastWriterWins(states, es, AwaitingUp, AwaitingOn, AwaitingOff);
  }

  // ---------- requests and deletion ----------

  // The requests of /clear that read generation `g` and have been through stage n.
  function Stage(gen: nat, es: seq<Event>, g: nat, n: nat): nat {
    if es == [] then 0
    else
      var s, e := Run(Init(gen), es[..|es| - 1]), es[|es| - 1];
      Stage(gen, es[..|es| - 1], g, n)
      + if || (n == 0 && e.ClearRead? && s.row.Some? && s.row.value.gen == g)
           || (n == 1 && e == ClearStop(g) && g in s.clears.asked)
           || (n == 2 && e == ClearFinish(g) && g in s.clears.stopped) then 1 else 0
  }

  // In every run each request stops the turn once and writes once: what has been
  // read is waiting to stop, waiting to write, or written.
  lemma {:induction false} RequestsActOnce(gen: nat, es: seq<Event>, g: nat)
    ensures var clears := Run(Init(gen), es).clears;
            && Stage(gen, es, g, 0) == Stage(gen, es, g, 1) + clears.asked[g]
            && Stage(gen, es, g, 1) == Stage(gen, es, g, 2) + clears.stopped[g]
    decreases |es|
  {
    if es != [] {
      var n := |es| - 1;
      RequestsActOnce(gen, es[..n], g);
      RunSnoc(Init(gen), es, n);
      assert es[..n + 1] == es;
      RequestStep(Run(Init(gen), es[..n]), es[n], g);
    }
  }

  // How a step moves requests on.
  predicate Moves(s: State, e: Event, g: nat) {
    var c, c' := s.clears, Step(s, e).clears;
    var read := e.ClearRead? && s.row.Some? && s.row.value.gen == g;
    var stopped := e == ClearStop(g) && g in c.asked;
    var written := e == ClearFinish(g) && g in c.stopped;
    && c'.asked[g] == c.asked[g] + (if read then 1 else 0) - (if stopped then 1 else 0)
    && c'.stopped[g] == c.stopped[g] + (if stopped then 1 else 0) - (if written then 1 else 0)
  }

  lemma RequestStep(s: State, e: Event, g: nat)
    ensures Moves(s, e, g)
  {
    match e
    case ClearRead => ReadMoves(s, g);
    case ClearStop(h) => StopMoves(s, h, g);
    case ClearFinish(h) => FinishMoves(s, h, g);
    case _ => ClearsUntouched(s, e);
  }

  lemma ReadMoves(s: State, g: nat)
    ensures Moves(s, ClearRead, g)
  {
  }

  lemma StopMoves(s: State, h: nat, g: nat)
    ensures Moves(s, ClearStop(h), g)
  {
  }

  lemma FinishMoves(s: State, h: nat, g: nat)
    ensures Moves(s, ClearFinish(h), g)
  {
  }

  lemma ClearsUntouched(s: State, e: Event)
    requires !e.ClearRead? && !e.ClearStop? && !e.ClearFinish?
    ensures Step(s, e).clears == s.clears
  {
  }

  // A deleted task has no row again, whatever still runs.
  lemma {:induction false} DeletedStaysDeleted(s: State, es: seq<Event>)
    ensures Run(Step(s, Vanish), es).row.None?
  {
    NoRowAgain(Step(s, Vanish), es);
  }

  lemma {:induction false} NoRowAgain(s: State, es: seq<Event>)
    requires s.row.None?
    ensures Run(s, es).row.None?
    decreases |es|
  {
    if es != [] {
      NoRowStep(s, es[0]);
      NoRowAgain(Step(s, es[0]), es[1..]);
    }
  }

  lemma NoRowStep(s: State, e: Event)
    requires s.row.None?
    ensures Step(s, e).row.None?
  {
  }
}
