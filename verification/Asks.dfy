// The registry of questions a turn is parked on (lib/asks.ts).  A waiter is
// one call of waitForAnswer, that is, one promise; it is named by the order of
// the calls.
module Asks {
  import opened Wrappers

  type Signal = nat

  datatype Outcome = Waiting | Answered(answers: string) | Superseded | Aborted

  // listening: the abort listener was registered, which it is not when the
  // signal had fired before the call.
  datatype Waiter = Waiter(task: string, ask: string, signal: Option<Signal>, listening: bool, outcome: Outcome)

  datatype Pending = Pending(questions: string, waiter: nat)

  type Registry = map<string, map<string, Pending>>

  datatype State = State(asks: Registry, waiters: seq<Waiter>, aborted: set<Signal>)

  const INIT := State(map[], [], {})

  // ---------- the operations as functions of the state ----------

  function Lookup(asks: Registry, task: string, ask: string): Option<Pending> {
    if task in asks && ask in asks[task] then Some(asks[task][ask]) else None
  }

  function Removed(asks: Registry, task: string, ask: string): Registry {
    if Lookup(asks, task, ask).None? then asks
    else if asks[task] - {ask} == map[] then asks - {task}
    else asks[task := asks[task] - {ask}]
  }

  function Added(asks: Registry, task: string, ask: string, p: Pending): Registry {
    asks[task := (if task in asks then asks[task] else map[])[ask := p]]
  }

  // A promise keeps the first outcome it is given.
  function Settled(ws: seq<Waiter>, w: nat, o: Outcome): (r: seq<Waiter>)
    ensures |r| == |ws|
  {
    if w < |ws| && ws[w].outcome == Waiting then ws[w := ws[w].(outcome := o)] else ws
  }

  function Waited(s: State, task: string, ask: string, questions: string, signal: Option<Signal>): State {
    if signal.Some? && signal.value in s.aborted then
      s.(waiters := s.waiters + [Waiter(task, ask, signal, false, Aborted)])
    else
      var clash := Lookup(s.asks, task, ask);
      var ws := if clash.Some? then Settled(s.waiters, clash.value.waiter, Superseded) else s.waiters;
      s.(asks := Added(s.asks, task, ask, Pending(questions, |s.waiters|)),
         waiters := ws + [Waiter(task, ask, signal, signal.Some?, Waiting)])
  }

  // persists: the beforeResolve callback returned.
  function Submitted(s: State, task: string, ask: string, answers: string, persists: bool): State {
    var p := Lookup(s.asks, task, ask);
    if p.None? || !persists then s
    else s.(asks := Removed(s.asks, task, ask), waiters := Settled(s.waiters, p.value.waiter, Answered(answers)))
  }

  predicate Hears(w: Waiter, signal: Signal) {
    w.listening && w.signal == Some(signal)
  }

  // The first n listeners of the signal have run, in order of registration.
  function Notified(s: State, signal: Signal, n: nat): (r: State)
    requires n <= |s.waiters|
    ensures |r.waiters| == |s.waiters|
  {
    if n == 0 then s
    else
      var p := Notified(s, signal, n - 1);
      var w := p.waiters[n - 1];
      if Hears(w, signal)
      then p.(asks := Removed(p.asks, w.task, w.ask), waiters := Settled(p.waiters, n - 1, Aborted))
      else p
  }

  function Fired(s: State, signal: Signal): State {
    if signal in s.aborted then s
    else Notified(s.(aborted := s.aborted + {signal}), signal, |s.waiters|)
  }

  // ---------- the code ----------

  class AskRegistry {
    var asks: Registry
    var waiters: seq<Waiter>
    var aborted: set<Signal>

    constructor ()
      ensures View() == INIT
    {
      asks, waiters, aborted := map[], [], {};
    }

    ghost function View(): State
      reads this
    {
      State(asks, waiters, aborted)
    }

    method Remove(task: string, ask: string) returns (pending: Option<Pending>)
      modifies this`asks
      ensures pending == Lookup(old(asks), task, ask)
      ensures asks == Removed(old(asks), task, ask)
    {
      pending := None;
      if task in asks && ask in asks[task] {
        pending := Some(asks[task][ask]);
        asks := asks[task := asks[task] - {ask}];
        if |asks[task]| == 0 {
          asks := asks - {task};
        }
      }
    }

    method Settle(w: nat, outcome: Outcome)
      modifies this`waiters
      ensures waiters == Settled(old(waiters), w, outcome)
    {
      if w < |waiters| && waiters[w].outcome == Waiting {
        waiters := waiters[w := waiters[w].(outcome := outcome)];
      }
    }

    method WaitForAnswer(task: string, ask: string, questions: string, signal: Option<Signal>) returns (w: nat)
      modifies this
      ensures View() == Waited(old(View()), task, ask, questions, signal)
      ensures w == |old(waiters)| < |waiters|
    {
      w := |waiters|;
      if signal.Some? && signal.value in aborted {
        waiters := waiters + [Waiter(task, ask, signal, false, Aborted)];
      } else {
        var byAsk := if task in asks then asks[task] else map[];
        if ask in byAsk {
          Settle(byAsk[ask].waiter, Superseded);
        }
        asks := asks[task := byAsk[ask := Pending(questions, w)]];
        waiters := waiters + [Waiter(task, ask, signal, signal.Some?, Waiting)];
      }
    }

    // Err: the callback threw, and the error goes to the caller.
    method SubmitAnswer(task: string, ask: string, answers: string, persists: bool) returns (found: Result<bool, ()>)
      modifies this
      ensures View() == Submitted(old(View()), task, ask, answers, persists)
      ensures found == if Lookup(old(asks), task, ask).None? then Ok(false) else if persists then Ok(true) else Err(())
    {
      if task !in asks || ask !in asks[task] {
        found := Ok(false);
      } else if !persists {
        found := Err(());
      } else {
        var pending := Remove(task, ask);
        Settle(pending.value.waiter, Answered(answers));
        found := Ok(true);
      }
    }

    method Abort(signal: Signal)
      modifies this
      ensures View() == Fired(old(View()), signal)
    {
      if signal !in aborted {
        aborted := aborted + {signal};
        ghost var start := View();
        var i := 0;
        while i < |waiters|
          invariant i <= |waiters| == |start.waiters|
          invariant View() == Notified(start, signal, i)
        {
          if waiters[i].listening && waiters[i].signal == Some(signal) {
            var _ := Remove(waiters[i].task, waiters[i].ask);
            Settle(i, Aborted);
          }
          i := i + 1;
        }
      }
    }
  }

  // ---------- the invariant ----------

  datatype Event =
    | Wait(task: string, ask: string, questions: string, signal: Option<Signal>)
    | Submit(task: string, ask: string, answers: string, persists: bool)
    | Abort(fired: Signal)

  function Step(s: State, e: Event): State {
    match e
    case Wait(t, a, q, sig) => Waited(s, t, a, q, sig)
    case Submit(t, a, ans, ok) => Submitted(s, t, a, ans, ok)
    case Abort(sig) => Fired(s, sig)
  }

  ghost predicate NoEmptyInner(asks: Registry) {
    forall t :: t in asks ==> asks[t] != map[]
  }

  // The ask registered under (task, ask) is waiter w, which is still waiting.
  ghost predicate EntryOk(s: State, t: string, a: string) {
    var p := Lookup(s.asks, t, a);
    p.Some? ==>
      && p.value.waiter < |s.waiters|
      && s.waiters[p.value.waiter].task == t
      && s.waiters[p.value.waiter].ask == a
      && s.waiters[p.value.waiter].outcome == Waiting
  }

  ghost predicate WaiterOk(s: State, w: nat)
    requires w < |s.waiters|
  {
    var x := s.waiters[w];
    && (x.outcome == Waiting ==> Registered(s, w))
    && (x.outcome == Waiting && x.signal.Some? ==> x.listening && x.signal.value !in s.aborted)
  }

  ghost predicate Registered(s: State, w: nat)
    requires w < |s.waiters|
  {
    var p := Lookup(s.asks, s.waiters[w].task, s.waiters[w].ask);
    p.Some? && p.value.waiter == w
  }

  // The registry holds exactly the unsettled waiters.
  ghost predicate Inv(s: State) {
    && NoEmptyInner(s.asks)
    && (forall t, a :: EntryOk(s, t, a))
    && (forall w :: 0 <= w < |s.waiters| ==> WaiterOk(s, w))
  }

  lemma RemovedLooks(asks: Registry, t: string, a: string)
    requires NoEmptyInner(asks)
    ensures NoEmptyInner(Removed(asks, t, a))
    ensures forall u, b :: Lookup(Removed(asks, t, a), u, b) == if (u, b) == (t, a) then None else Lookup(asks, u, b)
  {
    if Lookup(asks, t, a).Some? && asks[t] - {a} == map[] {
      assert forall b :: b in asks[t] && b != a ==> b in asks[t] - {a};
    }
  }

  lemma AddedLooks(asks: Registry, t: string, a: string, p: Pending)
    requires NoEmptyInner(asks)
    ensures NoEmptyInner(Added(asks, t, a, p))
    ensures forall u, b ::
              Lookup(Added(asks, t, a, p), u, b) == if (u, b) == (t, a) then Some(p) else Lookup(asks, u, b)
  {
    assert a in Added(asks, t, a, p)[t];
  }

  lemma WaitKeeps(s: State, t: string, a: string, q: string, sig: Option<Signal>)
    requires Inv(s)
    ensures Inv(Waited(s, t, a, q, sig))
  {
    var r := Waited(s, t, a, q, sig);
    if sig.Some? && sig.value in s.aborted {
      forall u, b ensures EntryOk(r, u, b) { assert EntryOk(s, u, b); }
      forall w | 0 <= w < |r.waiters| ensures WaiterOk(r, w) {
        if w < |s.waiters| { assert WaiterOk(s, w); }
      }
    } else {
      AddedLooks(s.asks, t, a, Pending(q, |s.waiters|));
      assert EntryOk(s, t, a);
      forall u, b ensures EntryOk(r, u, b) { assert EntryOk(s, u, b); }
      forall w | 0 <= w < |r.waiters| ensures WaiterOk(r, w) {
        if w < |s.waiters| { assert WaiterOk(s, w); }
      }
    }
  }

  // Both ways of taking an entry out with its waiter keep the invariant.
  lemma TakeKeeps(s: State, t: string, a: string, o: Outcome)
    requires Inv(s) && o != Waiting && Lookup(s.asks, t, a).Some?
    ensures var w := Lookup(s.asks, t, a).value.waiter;
            Inv(s.(asks := Removed(s.asks, t, a), waiters := Settled(s.waiters, w, o)))
  {
    var w := Lookup(s.asks, t, a).value.waiter;
    var r := s.(asks := Removed(s.asks, t, a), waiters := Settled(s.waiters, w, o));
    assert EntryOk(s, t, a);
    RemovedLooks(s.asks, t, a);
    forall u, b ensures EntryOk(r, u, b) { assert EntryOk(s, u, b); }
    forall v | 0 <= v < |r.waiters| ensures WaiterOk(r, v) {
      assert WaiterOk(s, v);
    }
  }

  lemma SubmitKeeps(s: State, t: string, a: string, answers: string, persists: bool)
    requires Inv(s)
    ensures Inv(Submitted(s, t, a, answers, persists))
  {
    if Lookup(s.asks, t, a).Some? { TakeKeeps(s, t, a, Answered(answers)); }
  }

  // ---------- aborting ----------

  // Every ask that a listener of the signal would remove was made under it.
  ghost predicate NoForeignAsk(s: State, signal: Signal) {
    forall w :: 0 <= w < |s.waiters| && Hears(s.waiters[w], signal) ==> OwnAsk(s, signal, w)
  }

  ghost predicate OwnAsk(s: State, signal: Signal, w: nat)
    requires w < |s.waiters|
  {
    var p := Lookup(s.asks, s.waiters[w].task, s.waiters[w].ask);
    p.Some? && p.value.waiter < |s.waiters| ==> s.waiters[p.value.waiter].signal == Some(signal)
  }

  // What the first n listeners leave behind.
  ghost predicate HalfNotified(s: State, r: State, signal: Signal, n: nat) {
    && |r.waiters| == |s.waiters|
    && r.aborted == s.aborted
    && NoEmptyInner(r.asks)
    && (forall w :: 0 <= w < |s.waiters| ==>
          r.waiters[w] == if w < n && Hears(s.waiters[w], signal) && s.waiters[w].outcome == Waiting
                          then s.waiters[w].(outcome := Aborted) else s.waiters[w])
    && (forall t, a :: Lookup(r.asks, t, a) == if Silenced(s, signal, n, t, a) then None else Lookup(s.asks, t, a))
  }

  // One of the first n listeners of the signal was for this ask.
  ghost predicate Silenced(s: State, signal: Signal, n: nat, t: string, a: string) {
    exists w ::
      && 0 <= w < n && w < |s.waiters| && Hears(s.waiters[w], signal)
      && s.waiters[w].task == t && s.waiters[w].ask == a
  }

  lemma {:induction false} NotifiedIs(s: State, signal: Signal, n: nat)
    requires n <= |s.waiters| && NoEmptyInner(s.asks)
    ensures HalfNotified(s, Notified(s, signal, n), signal, n)
  {
    if n > 0 {
      NotifiedIs(s, signal, n - 1);
      var p := Notified(s, signal, n - 1);
      var r := Notified(s, signal, n);
      var w := s.waiters[n - 1];
      if Hears(w, signal) {
        RemovedLooks(p.asks, w.task, w.ask);
      }
      forall t, a ensures Lookup(r.asks, t, a) == if Silenced(s, signal, n, t, a) then None else Lookup(s.asks, t, a) {
        SilencedStep(s, signal, n, t, a);
      }
    }
  }

  lemma SilencedStep(s: State, signal: Signal, n: nat, t: string, a: string)
    requires 0 < n <= |s.waiters|
    ensures Silenced(s, signal, n, t, a) <==>
            || Silenced(s, signal, n - 1, t, a)
            || (Hears(s.waiters[n - 1], signal) && s.waiters[n - 1].task == t && s.waiters[n - 1].ask == a)
  {
  }

  // An abort keeps the registry and the waiters in step exactly when it does
  // not reach an ask that was re-made under another signal.
  lemma AbortKeepsExactly(s: State, signal: Signal)
    requires Inv(s) && signal !in s.aborted
    ensures Inv(Fired(s, signal)) <==> NoForeignAsk(s, signal)
  {
    var m := s.(aborted := s.aborted + {signal});
    var r := Fired(s, signal);
    NotifiedIs(m, signal, |s.waiters|);
    if NoForeignAsk(s, signal) {
      forall t, a ensures EntryOk(r, t, a) {
        assert EntryOk(s, t, a);
        var p := Lookup(s.asks, t, a);
        if p.Some? { assert WaiterOk(s, p.value.waiter); }
      }
      forall w | 0 <= w < |r.waiters| ensures WaiterOk(r, w) {
        assert WaiterOk(s, w);
        if r.waiters[w].outcome == Waiting { StaysRegistered(s, signal, w); }
      }
    } else {
      var w :| 0 <= w < |s.waiters| && Hears(s.waiters[w], signal) && !OwnAsk(s, signal, w);
      var t, a := s.waiters[w].task, s.waiters[w].ask;
      var v := Lookup(s.asks, t, a).value.waiter;
      assert EntryOk(s, t, a);
      assert Silenced(m, signal, |s.waiters|, t, a);
      assert r.waiters[v].outcome == Waiting && !Registered(r, v);
      assert !WaiterOk(r, v);
    }
  }

  lemma StaysRegistered(s: State, signal: Signal, w: nat)
    requires Inv(s) && signal !in s.aborted && NoForeignAsk(s, signal)
    requires w < |s.waiters| && s.waiters[w].outcome == Waiting && !Hears(s.waiters[w], signal)
    ensures !Silenced(s.(aborted := s.aborted + {signal}), signal, |s.waiters|, s.waiters[w].task, s.waiters[w].ask)
    ensures s.waiters[w].signal != Some(signal)
  {
    assert WaiterOk(s, w);
    forall v | 0 <= v < |s.waiters| && Hears(s.waiters[v], signal)
      ensures s.waiters[v].task != s.waiters[w].task || s.waiters[v].ask != s.waiters[w].ask
    {
      assert OwnAsk(s, signal, v);
    }
  }

  // ---------- every run without reuse ----------

  function Run(s: State, es: seq<Event>): State
    decreases |es|
  {
    if es == [] then s else Step(Run(s, es[..|es| - 1]), es[|es| - 1])
  }

  // No ask id is used again under a different signal.
  ghost predicate NoReuse(ws: seq<Waiter>) {
    forall v, w ::
      0 <= v < w < |ws| && ws[v].task == ws[w].task && ws[v].ask == ws[w].ask ==> ws[v].signal == ws[w].signal
  }

  // A waiter never changes who it is.
  ghost predicate SameWaiters(a: seq<Waiter>, b: seq<Waiter>) {
    && |a| <= |b|
    && forall w :: 0 <= w < |a| ==> a[w].task == b[w].task && a[w].ask == b[w].ask && a[w].signal == b[w].signal
  }

  // A settled waiter keeps its outcome.
  ghost predicate OutcomesKept(a: seq<Waiter>, b: seq<Waiter>) {
    && |a| <= |b|
    && forall w :: 0 <= w < |a| && a[w].outcome != Waiting ==> b[w].outcome == a[w].outcome
  }

  lemma {:induction false} NotifiedGrows(s: State, signal: Signal, n: nat)
    requires n <= |s.waiters|
    ensures SameWaiters(s.waiters, Notified(s, signal, n).waiters)
    ensures OutcomesKept(s.waiters, Notified(s, signal, n).waiters)
  {
    if n > 0 { NotifiedGrows(s, signal, n - 1); }
  }

  lemma StepGrows(s: State, e: Event)
    ensures SameWaiters(s.waiters, Step(s, e).waiters)
    ensures OutcomesKept(s.waiters, Step(s, e).waiters)
  {
    if e.Abort? && e.fired !in s.aborted {
      NotifiedGrows(s.(aborted := s.aborted + {e.fired}), e.fired, |s.waiters|);
    }
  }

  lemma {:induction false} RunKeeps(es: seq<Event>)
    requires NoReuse(Run(INIT, es).waiters)
    ensures Inv(Run(INIT, es))
    decreases |es|
  {
    if es != [] {
      var s, e := Run(INIT, es[..|es| - 1]), es[|es| - 1];
      StepGrows(s, e);
      forall v, w
        | 0 <= v < w < |s.waiters| && s.waiters[v].task == s.waiters[w].task && s.waiters[v].ask == s.waiters[w].ask
        ensures s.waiters[v].signal == s.waiters[w].signal
      {
        var r := Run(INIT, es).waiters;
        assert r[v].task == r[w].task && r[v].ask == r[w].ask;
      }
      RunKeeps(es[..|es| - 1]);
      match e
      case Wait(t, a, q, sig) => WaitKeeps(s, t, a, q, sig);
      case Submit(t, a, ans, ok) => SubmitKeeps(s, t, a, ans, ok);
      case Abort(sig) =>
        if sig !in s.aborted {
          forall w | 0 <= w < |s.waiters| && Hears(s.waiters[w], sig) ensures OwnAsk(s, sig, w) {
            assert EntryOk(s, s.waiters[w].task, s.waiters[w].ask);
          }
          AbortKeepsExactly(s, sig);
        }
    }
  }

  // Without reuse the registry holds exactly the unsettled waiters: a waiter is
  // registered exactly while it waits, and every entry is such a waiter's.
  lemma RegistryIsTheWaiters(es: seq<Event>, w: nat)
    requires NoReuse(Run(INIT, es).waiters) && w < |Run(INIT, es).waiters|
    ensures Run(INIT, es).waiters[w].outcome == Waiting <==> Registered(Run(INIT, es), w)
    ensures NoEmptyInner(Run(INIT, es).asks)
    ensures forall t, a :: EntryOk(Run(INIT, es), t, a)
  {
    var s := Run(INIT, es);
    RunKeeps(es);
    assert WaiterOk(s, w) && EntryOk(s, s.waiters[w].task, s.waiters[w].ask);
  }

  // With or without reuse: once settled, a waiter stays as it is.
  lemma {:induction false} SettlesOnce(s: State, es: seq<Event>)
    ensures OutcomesKept(s.waiters, Run(s, es).waiters)
    ensures SameWaiters(s.waiters, Run(s, es).waiters)
    decreases |es|
  {
    if es != [] {
      SettlesOnce(s, es[..|es| - 1]);
      StepGrows(Run(s, es[..|es| - 1]), es[|es| - 1]);
    }
  }

  // With or without reuse: nothing waits under a signal that has fired.
  ghost predicate NoneBehind(s: State) {
    forall w :: 0 <= w < |s.waiters| && s.waiters[w].signal.Some? && s.waiters[w].outcome == Waiting
      ==> s.waiters[w].listening && s.waiters[w].signal.value !in s.aborted
  }

  lemma {:induction false} NotifiedNone(s: State, signal: Signal, n: nat)
    requires n <= |s.waiters|
    ensures forall w :: 0 <= w < |s.waiters| ==>
      Notified(s, signal, n).waiters[w] == if w < n && Hears(s.waiters[w], signal) && s.waiters[w].outcome == Waiting
                                           then s.waiters[w].(outcome := Aborted) else s.waiters[w]
    ensures Notified(s, signal, n).aborted == s.aborted
  {
    if n > 0 { NotifiedNone(s, signal, n - 1); }
  }

  lemma {:induction false} AbortLeavesNone(es: seq<Event>)
    ensures NoneBehind(Run(INIT, es))
    decreases |es|
  {
    if es != [] {
      var s, e := Run(INIT, es[..|es| - 1]), es[|es| - 1];
      AbortLeavesNone(es[..|es| - 1]);
      if e.Abort? && e.fired !in s.aborted {
        NotifiedNone(s.(aborted := s.aborted + {e.fired}), e.fired, |s.waiters|);
      }
    }
  }

  // ---------- what becomes of a promise ----------

  // A call registers its ask and waits, unless its signal has fired: then it is
  // rejected and nothing is registered.
  lemma WaitRegistersExactly(s: State, t: string, a: string, q: string, sig: Option<Signal>)
    requires NoEmptyInner(s.asks)
    ensures var r, n := Step(s, Wait(t, a, q, sig)), |s.waiters|;
            var rejected := sig.Some? && sig.value in s.aborted;
            && |r.waiters| == n + 1 && r.aborted == s.aborted
            && r.waiters[n] == Waiter(t, a, sig, sig.Some? && !rejected, if rejected then Aborted else Waiting)
            && (forall u, b :: Lookup(r.asks, u, b)
                               == if (u, b) == (t, a) && !rejected then Some(Pending(q, n)) else Lookup(s.asks, u, b))
  {
    AddedLooks(s.asks, t, a, Pending(q, |s.waiters|));
  }

  // A waiting promise is answered with what was submitted for its entry,
  // superseded by a call for the same entry, or aborted by a signal it listens
  // to, and by nothing else.
  lemma OutcomeChangesExactly(s: State, e: Event, w: nat)
    requires w < |s.waiters| && s.waiters[w].outcome == Waiting
    ensures w < |Step(s, e).waiters|
    ensures Step(s, e).waiters[w].outcome ==
              match e
              case Wait(t, a, _, sig) =>
                var p := Lookup(s.asks, t, a);
                if p.Some? && p.value.waiter == w && !(sig.Some? && sig.value in s.aborted) then Superseded else Waiting
              case Submit(t, a, ans, persists) =>
                var p := Lookup(s.asks, t, a);
                if p.Some? && p.value.waiter == w && persists then Answered(ans) else Waiting
              case Abort(sig) =>
                if sig !in s.aborted && s.waiters[w].listening && s.waiters[w].signal == Some(sig) then Aborted
                else Waiting
  {
    if e.Abort? && e.fired !in s.aborted {
      NotifiedNone(s.(aborted := s.aborted + {e.fired}), e.fired, |s.waiters|);
    }
  }

  // A submit whose persist step throws leaves the ask answerable: the retry
  // reaches the same waiter.
  lemma ThrowingPersistKeepsAsk(es: seq<Event>, w: nat, first: string, second: string)
    requires NoReuse(Run(INIT, es).waiters) && w < |Run(INIT, es).waiters|
    requires Run(INIT, es).waiters[w].outcome == Waiting
    ensures var s := Run(INIT, es);
            var x := s.waiters[w];
            var r := Step(Step(s, Submit(x.task, x.ask, first, false)), Submit(x.task, x.ask, second, true));
            r.waiters == s.waiters[w := x.(outcome := Answered(second))] && Lookup(r.asks, x.task, x.ask).None?
  {
    var s := Run(INIT, es);
    RunKeeps(es);
    assert WaiterOk(s, w);
    RemovedLooks(s.asks, s.waiters[w].task, s.waiters[w].ask);
  }

  // ---------- what reuse does ----------

  // Turn 1 answers an ask; turn 2 asks again under the same id; aborting turn
  // 1 then takes turn 2's ask out of the registry and leaves its promise
  // waiting for ever.
  lemma ReuseOrphansAnAsk()
    ensures var s := Run(INIT, [
              Wait("t", "a", "q", Some(1)), Submit("t", "a", "yes", true), Wait("t", "a", "q", Some(2)), Abort(1)]);
            && |s.waiters| == 2 && s.waiters[1].outcome == Waiting && !Registered(s, 1)
            && Submitted(s, "t", "a", "again", true) == s
  {
    var e0, e1, e2 := Wait("t", "a", "q", Some(1)), Submit("t", "a", "yes", true), Wait("t", "a", "q", Some(2));
    var s1 := Step(INIT, e0);
    assert s1.asks == map["t" := map["a" := Pending("q", 0)]];
    var s2 := Step(s1, e1);
    assert s2.asks == map[];
    var s3 := Step(s2, e2);
    assert s3.asks == map["t" := map["a" := Pending("q", 1)]];
    assert s3.waiters == [
      Waiter("t", "a", Some(1), true, Answered("yes")), Waiter("t", "a", Some(2), true, Waiting)];
    RunFour(e0, e1, e2, Abort(1));
    OrphanByAbort(s3);
  }

  lemma RunFour(a: Event, b: Event, c: Event, d: Event)
    ensures Run(INIT, [a, b, c, d]) == Step(Step(Step(Step(INIT, a), b), c), d)
  {
    assert [a, b, c, d][..3] == [a, b, c];
    assert [a, b, c][..2] == [a, b];
    assert [a, b][..1] == [a];
    assert Run(INIT, [a]) == Step(INIT, a);
    assert Run(INIT, [a, b]) == Step(Step(INIT, a), b);
  }

  lemma OrphanByAbort(s: State)
    requires s.asks == map["t" := map["a" := Pending("q", 1)]] && s.aborted == {}
    requires s.waiters == [
      Waiter("t", "a", Some(1), true, Answered("yes")), Waiter("t", "a", Some(2), true, Waiting)]
    ensures Fired(s, 1) == State(map[], s.waiters, {1})
  {
    var m := s.(aborted := s.aborted + {1});
    assert Notified(m, 1, 1) == State(map[], s.waiters, {1});
    assert Notified(m, 1, 2) == Notified(m, 1, 1);
  }
}
