// Asking the user from a stdio tool: startAskUser in lib/agentTools.ts parks a
// detached waiter, and the bridge polls for its outcome (settleAsk and
// takeAskOutcome in lib/asks.ts).
module AskUser {
  import opened Wrappers
  import Asks

  // The text an ask settles with: the formatted answers or the note that the
  // user dismissed the question.
  datatype Text = Formatted(questions: string, answers: string) | Dismissed

  // One call of startAskUser: the card in the transcript and the continuation
  // behind its promise.  told: the continuation has run.  failed: it had an
  // answer and threw on the way, so the catch behind it ran too.
  datatype Card = Card(
    task: string, ask: string, questions: string, waiter: nat, shown: Option<string>, told: bool, failed: bool)

  // Where the continuation of an answered ask throws: storing the message,
  // storing the task row, or after both.
  datatype Fault = AtMessage | AtTask | AtPublish

  // taken is the history of what the wait endpoint handed out, oldest first.
  datatype Handed = Handed(key: string, text: Text)

  datatype State = State(
    reg: Asks.State, cards: seq<Card>, outcomes: map<string, Text>, awaiting: map<string, bool>, taken: seq<Handed>)

  const INIT := State(Asks.INIT, [], map[], map[], [])

  function Key(task: string, ask: string): string {
    task + ":" + ask
  }

  function TextOf(c: Card, o: Asks.Outcome): Text {
    if o.Answered? && !c.failed then Formatted(c.questions, o.answers) else Dismissed
  }

  // ---------- the steps ----------

  datatype Event =
    | Start(task: string, ask: string, questions: string, signal: Option<Asks.Signal>)
    | Registry(e: Asks.Event)
    | Continue(card: nat, fault: Option<Fault>)
    | Take(task: string, ask: string)

  function Started(s: State, task: string, ask: string, questions: string, signal: Option<Asks.Signal>): State {
    s.(reg := Asks.Waited(s.reg, task, ask, questions, signal),
       cards := s.cards + [Card(task, ask, questions, |s.reg.waiters|, None, false, false)],
       awaiting := s.awaiting[task := true])
  }

  // The card when the continuation is through.
  function Told(c: Card, o: Asks.Outcome, fault: Option<Fault>): Card {
    if !o.Answered? then c.(told := true, failed := false)
    else
      c.(told := true, failed := fault.Some?,
         shown := if fault == Some(AtMessage) then c.shown else Some(o.answers))
  }

  function Continued(s: State, i: nat, fault: Option<Fault>): State
    requires i < |s.cards| && s.cards[i].waiter < |s.reg.waiters|
  {
    var o := s.reg.waiters[s.cards[i].waiter].outcome;
    var c := Told(s.cards[i], o, fault);
    s.(cards := s.cards[i := c],
       outcomes := s.outcomes[Key(c.task, c.ask) := TextOf(c, o)],
       awaiting := if o.Answered? && fault != Some(AtMessage) && fault != Some(AtTask)
                   then s.awaiting[c.task := false] else s.awaiting)
  }

  function Took(s: State, task: string, ask: string): State {
    var key := Key(task, ask);
    if key in s.outcomes
    then s.(outcomes := s.outcomes - {key}, taken := s.taken + [Handed(key, s.outcomes[key])])
    else s
  }

  predicate CanContinue(s: State, i: nat) {
    && i < |s.cards| && s.cards[i].waiter < |s.reg.waiters|
    && !s.cards[i].told && s.reg.waiters[s.cards[i].waiter].outcome != Asks.Waiting
  }

  // Task ids hold no colon and every ask id is new.
  predicate Enabled(s: State, e: Event) {
    match e
    case Start(t, a, _, _) => ':' !in t && forall i :: 0 <= i < |s.cards| ==> s.cards[i].ask != a
    case Continue(i, _) => CanContinue(s, i)
    case _ => true
  }

  function Step(s: State, e: Event): State
    requires Enabled(s, e)
  {
    match e
    case Start(t, a, q, sig) => Started(s, t, a, q, sig)
    case Registry(re) => s.(reg := Asks.Step(s.reg, re))
    case Continue(i, fault) => Continued(s, i, fault)
    case Take(t, a) => Took(s, t, a)
  }

  // ---------- the code ----------

  class Bridge {
    const registry: Asks.AskRegistry
    var cards: seq<Card>
    var outcomes: map<string, Text>
    var awaiting: map<string, bool>
    ghost var taken: seq<Handed>

    constructor ()
      ensures fresh(registry) && View() == INIT
    {
      registry := new Asks.AskRegistry();
      cards, outcomes, awaiting, taken := [], map[], map[], [];
    }

    ghost function View(): State
      reads this, registry
    {
      State(registry.View(), cards, outcomes, awaiting, taken)
    }

    method StartAskUser(task: string, ask: string, questions: string, signal: Option<Asks.Signal>)
      modifies this, registry
      ensures View() == Started(old(View()), task, ask, questions, signal)
    {
      awaiting := awaiting[task := true];
      var w := registry.WaitForAnswer(task, ask, questions, signal);
      cards := cards + [Card(task, ask, questions, w, None, false, false)];
    }

    // The then of the promise, with the catch behind it, or the catch alone.
    method RunContinuation(i: nat, fault: Option<Fault>)
      requires CanContinue(View(), i)
      modifies this
      ensures View() == Continued(old(View()), i, fault)
    {
      var outcome := registry.waiters[cards[i].waiter].outcome;
      var threw := true;
      if outcome.Answered? {
        threw := Deliver(i, outcome.answers, fault);
      }
      cards := cards[i := cards[i].(told := true, failed := threw && outcome.Answered?)];
      if threw {
        SettleAsk(cards[i].task, cards[i].ask, Dismissed);
      }
    }

    // What `.then` does with an answer; true when it throws.
    method Deliver(i: nat, answers: string, fault: Option<Fault>) returns (threw: bool)
      requires i < |cards|
      modifies this`cards, this`awaiting, this`outcomes
      ensures threw == fault.Some?
      ensures cards == if fault == Some(AtMessage) then old(cards)
                       else old(cards)[i := old(cards)[i].(shown := Some(answers))]
      ensures awaiting == if fault == Some(AtMessage) || fault == Some(AtTask) then old(awaiting)
                          else old(awaiting)[old(cards)[i].task := false]
      ensures outcomes == if fault.Some? then old(outcomes)
                          else
                            var c := old(cards)[i];
                            old(outcomes)[Key(c.task, c.ask) := Formatted(c.questions, answers)]
    {
      var c := cards[i];
      if fault == Some(AtMessage) { return true; }
      cards := cards[i := c.(shown := Some(answers))];
      if fault == Some(AtTask) { return true; }
      awaiting := awaiting[c.task := false];
      if fault.Some? { return true; }
      SettleAsk(c.task, c.ask, Formatted(c.questions, answers));
      threw := false;
    }

    method SettleAsk(task: string, ask: string, text: Text)
      modifies this`outcomes
      ensures outcomes == old(outcomes)[Key(task, ask) := text]
    {
      outcomes := outcomes[task + ":" + ask := text];
    }

    method TakeAskOutcome(task: string, ask: string) returns (text: Option<Text>)
      modifies this
      ensures View() == Took(old(View()), task, ask)
      ensures text == if Key(task, ask) in old(outcomes) then Some(old(outcomes)[Key(task, ask)]) else None
    {
      var key := task + ":" + ask;
      text := None;
      if key in outcomes {
        text := Some(outcomes[key]);
        taken := taken + [Handed(key, outcomes[key])];
        outcomes := outcomes - {key};
      }
    }
  }

  // ---------- keys ----------

  lemma KeyInjective(t: string, a: string, u: string, b: string)
    requires ':' !in t && ':' !in u
    ensures Key(t, a) == Key(u, b) <==> t == u && a == b
  {
    var k, l := Key(t, a), Key(u, b);
    assert k[|t|] == ':' && l[|u|] == ':';
    assert forall i :: 0 <= i < |t| ==> k[i] == t[i] && t[i] != ':';
    assert forall i :: 0 <= i < |u| ==> l[i] == u[i] && u[i] != ':';
    if k == l {
      assert |t| == |u|;
      assert t == k[..|t|] && u == l[..|u|];
      assert a == k[|t| + 1..] && b == l[|u| + 1..];
    }
  }

  lemma ColonsCollide()
    ensures Key("a:b", "c") == Key("a", "b:c")
  {
    assert Key("a:b", "c") == "a:b:c";
    assert Key("a", "b:c") == "a:b:c";
  }

  // ---------- every run ----------

  ghost predicate CardOk(s: State, i: nat)
    requires i < |s.cards|
  {
    var c := s.cards[i];
    && ':' !in c.task
    && c.waiter < |s.reg.waiters|
    && s.reg.waiters[c.waiter].task == c.task && s.reg.waiters[c.waiter].ask == c.ask
    && (c.told ==> s.reg.waiters[c.waiter].outcome != Asks.Waiting)
    && (c.failed ==> c.told && s.reg.waiters[c.waiter].outcome.Answered?)
    && (c.told && s.reg.waiters[c.waiter].outcome.Answered? && !c.failed ==> c.shown.Some?)
    && (c.shown.Some? ==>
          && c.told && s.reg.waiters[c.waiter].outcome.Answered?
          && s.reg.waiters[c.waiter].outcome.answers == c.shown.value)
  }

  ghost function CardKey(s: State, i: nat): string
    requires i < |s.cards|
  {
    Key(s.cards[i].task, s.cards[i].ask)
  }

  ghost function CardText(s: State, i: nat): Text
    requires i < |s.cards| && CardOk(s, i)
  {
    TextOf(s.cards[i], s.reg.waiters[s.cards[i].waiter].outcome)
  }

  // The text is that of a card whose continuation has run.
  ghost predicate FromCard(s: State, key: string, text: Text) {
    exists i :: 0 <= i < |s.cards| && CardOk(s, i) && s.cards[i].told && CardKey(s, i) == key && CardText(s, i) == text
  }

  ghost predicate HandedOut(s: State, key: string) {
    exists k :: 0 <= k < |s.taken| && s.taken[k].key == key
  }

  // A card's outcome is not settled, waiting to be taken, or taken.
  ghost predicate CardPlace(s: State, i: nat)
    requires i < |s.cards|
  {
    s.cards[i].told <==> CardKey(s, i) in s.outcomes || HandedOut(s, CardKey(s, i))
  }

  ghost predicate CardsInv(s: State) {
    && (forall i, j :: 0 <= i < j < |s.cards| ==> s.cards[i].ask != s.cards[j].ask)
    && (forall i :: 0 <= i < |s.cards| ==> CardOk(s, i))
    && (forall i :: 0 <= i < |s.cards| ==> CardPlace(s, i))
  }

  ghost predicate OutcomesInv(s: State) {
    && (forall k :: k in s.outcomes ==> FromCard(s, k, s.outcomes[k]))
    && (forall k :: k in s.outcomes ==> !HandedOut(s, k))
  }

  ghost predicate TakenInv(s: State) {
    && (forall k :: 0 <= k < |s.taken| ==> FromCard(s, s.taken[k].key, s.taken[k].text))
    && (forall k, l :: 0 <= k < l < |s.taken| ==> s.taken[k].key != s.taken[l].key)
  }

  ghost predicate Inv(s: State) {
    CardsInv(s) && OutcomesInv(s) && TakenInv(s)
  }

  // Cards keep what they are while waiters only gain outcomes.
  ghost predicate Extends(s: State, r: State) {
    && |s.cards| <= |r.cards|
    && (forall i :: 0 <= i < |s.cards| && CardOk(s, i) ==>
          && CardOk(r, i)
          && r.cards[i].task == s.cards[i].task && r.cards[i].ask == s.cards[i].ask
          && r.cards[i].questions == s.cards[i].questions && r.cards[i].waiter == s.cards[i].waiter
          && (s.cards[i].told ==> r.cards[i].told && CardText(r, i) == CardText(s, i)))
  }

  lemma FromCardStays(s: State, r: State, key: string, text: Text)
    requires Extends(s, r) && FromCard(s, key, text)
    ensures FromCard(r, key, text)
  {
    var i :| 0 <= i < |s.cards| && CardOk(s, i) && s.cards[i].told && CardKey(s, i) == key && CardText(s, i) == text;
    assert CardKey(r, i) == key && CardText(r, i) == text;
  }

  lemma RegistryExtends(s: State, e: Asks.Event)
    requires Inv(s)
    ensures Extends(s, s.(reg := Asks.Step(s.reg, e)))
  {
    Asks.StepGrows(s.reg, e);
  }

  lemma RegistryKeeps(s: State, e: Asks.Event)
    requires Inv(s)
    ensures Inv(s.(reg := Asks.Step(s.reg, e)))
  {
    var r := s.(reg := Asks.Step(s.reg, e));
    RegistryExtends(s, e);
    forall i | 0 <= i < |r.cards| ensures CardOk(r, i) && CardPlace(r, i) {
      assert CardOk(s, i) && CardPlace(s, i);
    }
    forall k | k in r.outcomes ensures FromCard(r, k, r.outcomes[k]) && !HandedOut(r, k) {
      FromCardStays(s, r, k, s.outcomes[k]);
      assert !HandedOut(s, k);
    }
    forall k | 0 <= k < |r.taken| ensures FromCard(r, r.taken[k].key, r.taken[k].text) {
      FromCardStays(s, r, s.taken[k].key, s.taken[k].text);
    }
  }

  lemma NewKey(s: State, task: string, ask: string)
    requires Inv(s) && Enabled(s, Start(task, ask, "", None))
    ensures Key(task, ask) !in s.outcomes && !HandedOut(s, Key(task, ask))
  {
    var key := Key(task, ask);
    forall text ensures !FromCard(s, key, text) {
      forall i | 0 <= i < |s.cards| && CardOk(s, i) ensures CardKey(s, i) != key {
        KeyInjective(s.cards[i].task, s.cards[i].ask, task, ask);
      }
    }
  }

  lemma StartKeeps(s: State, t: string, a: string, q: string, sig: Option<Asks.Signal>)
    requires Inv(s) && Enabled(s, Start(t, a, q, sig))
    ensures Inv(Started(s, t, a, q, sig))
  {
    var m := s.(reg := Asks.Step(s.reg, Asks.Wait(t, a, q, sig)));
    RegistryKeeps(s, Asks.Wait(t, a, q, sig));
    NewKey(m, t, a);
    var r := Started(s, t, a, q, sig);
    forall i | 0 <= i < |r.cards| ensures CardOk(r, i) && CardPlace(r, i) {
      if i < |s.cards| {
        assert CardOk(m, i) && CardPlace(m, i);
        assert CardKey(r, i) == CardKey(m, i);
        assert HandedOut(r, CardKey(r, i)) <==> HandedOut(m, CardKey(m, i));
      } else {
        assert HandedOut(r, CardKey(r, i)) <==> HandedOut(m, CardKey(r, i));
      }
    }
    assert Extends(m, r) by {
      forall i | 0 <= i < |m.cards| ensures CardOk(m, i) && CardOk(r, i) {
        assert CardOk(m, i);
      }
    }
    forall k | k in r.outcomes ensures FromCard(r, k, r.outcomes[k]) && !HandedOut(r, k) {
      FromCardStays(m, r, k, m.outcomes[k]);
      assert !HandedOut(m, k);
    }
    forall k | 0 <= k < |r.taken| ensures FromCard(r, r.taken[k].key, r.taken[k].text) {
      FromCardStays(m, r, m.taken[k].key, m.taken[k].text);
    }
  }

  lemma ContinueExtends(s: State, i: nat, fault: Option<Fault>)
    requires Inv(s) && CanContinue(s, i)
    ensures Extends(s, Continued(s, i, fault))
    ensures forall j :: 0 <= j < |s.cards| ==> CardOk(s, j) && CardOk(Continued(s, i, fault), j)
  {
    forall j | 0 <= j < |s.cards| ensures CardOk(s, j) && CardOk(Continued(s, i, fault), j) {
      assert CardOk(s, j);
    }
  }

  lemma ContinueKeeps(s: State, i: nat, fault: Option<Fault>)
    requires Inv(s) && CanContinue(s, i)
    ensures Inv(Continued(s, i, fault))
  {
    var r := Continued(s, i, fault);
    ContinueExtends(s, i, fault);
    forall j | 0 <= j < |r.cards| ensures CardPlace(r, j) {
      assert CardPlace(s, j);
      KeyInjective(s.cards[i].task, s.cards[i].ask, s.cards[j].task, s.cards[j].ask);
      assert HandedOut(r, CardKey(r, j)) <==> HandedOut(s, CardKey(s, j));
    }
    forall k | k in r.outcomes ensures FromCard(r, k, r.outcomes[k]) && !HandedOut(r, k) {
      assert HandedOut(r, k) <==> HandedOut(s, k);
      if k == CardKey(s, i) {
        assert CardPlace(s, i);
        assert CardText(r, i) == r.outcomes[k] && CardKey(r, i) == k && r.cards[i].told;
      } else {
        FromCardStays(s, r, k, s.outcomes[k]);
      }
    }
    forall k | 0 <= k < |r.taken| ensures FromCard(r, r.taken[k].key, r.taken[k].text) {
      FromCardStays(s, r, s.taken[k].key, s.taken[k].text);
    }
  }

  lemma TakePlaces(s: State, t: string, a: string, i: nat)
    requires Inv(s) && Key(t, a) in s.outcomes && i < |s.cards|
    ensures CardOk(Took(s, t, a), i) && CardPlace(Took(s, t, a), i)
  {
    assert CardOk(s, i) && CardPlace(s, i);
    TakenGrows(s, Took(s, t, a), CardKey(s, i));
  }

  lemma TakeOutcomes(s: State, t: string, a: string)
    requires Inv(s) && Key(t, a) in s.outcomes && Extends(s, Took(s, t, a))
    ensures OutcomesInv(Took(s, t, a))
  {
    var r := Took(s, t, a);
    forall k | k in r.outcomes ensures FromCard(r, k, r.outcomes[k]) && !HandedOut(r, k) {
      FromCardStays(s, r, k, s.outcomes[k]);
      TakenGrows(s, r, k);
    }
  }

  lemma TakeHistory(s: State, t: string, a: string)
    requires Inv(s) && Key(t, a) in s.outcomes && Extends(s, Took(s, t, a))
    ensures TakenInv(Took(s, t, a))
  {
    var key := Key(t, a);
    var r := Took(s, t, a);
    forall k | 0 <= k < |s.taken| ensures FromCard(r, s.taken[k].key, s.taken[k].text) && s.taken[k].key != key {
      OldHistory(s, r, k, key);
    }
    FromCardStays(s, r, key, s.outcomes[key]);
  }

  lemma OldHistory(s: State, r: State, k: nat, key: string)
    requires Inv(s) && Extends(s, r) && k < |s.taken| && key in s.outcomes
    ensures FromCard(r, s.taken[k].key, s.taken[k].text) && s.taken[k].key != key
  {
    FromCardStays(s, r, s.taken[k].key, s.taken[k].text);
    assert !HandedOut(s, key);
  }

  lemma TakeKeeps(s: State, t: string, a: string)
    requires Inv(s)
    ensures Inv(Took(s, t, a))
  {
    var r := Took(s, t, a);
    if Key(t, a) in s.outcomes {
      forall i | 0 <= i < |r.cards| ensures CardOk(r, i) && CardPlace(r, i) {
        TakePlaces(s, t, a, i);
      }
      TakeOutcomes(s, t, a);
      TakeHistory(s, t, a);
    }
  }

  lemma TakenGrows(s: State, r: State, key: string)
    requires |r.taken| == |s.taken| + 1 && r.taken[..|s.taken|] == s.taken
    ensures HandedOut(r, key) <==> HandedOut(s, key) || r.taken[|s.taken|].key == key
  {
    if HandedOut(s, key) {
      var k :| 0 <= k < |s.taken| && s.taken[k].key == key;
      assert r.taken[..|s.taken|][k].key == key;
    }
    if HandedOut(r, key) && r.taken[|s.taken|].key != key {
      var k :| 0 <= k < |r.taken| && r.taken[k].key == key;
      assert r.taken[..|s.taken|][k].key == key;
    }
  }

  lemma StepKeeps(s: State, e: Event)
    requires Inv(s) && Enabled(s, e)
    ensures Inv(Step(s, e))
  {
    match e
    case Start(t, a, q, sig) => StartKeeps(s, t, a, q, sig);
    case Registry(re) => RegistryKeeps(s, re);
    case Continue(i, fault) => ContinueKeeps(s, i, fault);
    case Take(t, a) => TakeKeeps(s, t, a);
  }

  // The state after the events, or None when one of them could not happen.
  function Run(es: seq<Event>): Option<State>
    decreases |es|
  {
    if es == [] then Some(INIT)
    else
      match Run(es[..|es| - 1])
      case None => None
      case Some(s) => if Enabled(s, es[|es| - 1]) then Some(Step(s, es[|es| - 1])) else None
  }

  lemma {:induction false} RunKeeps(es: seq<Event>)
    requires Run(es).Some?
    ensures Inv(Run(es).value)
    decreases |es|
  {
    if es != [] {
      RunKeeps(es[..|es| - 1]);
      StepKeeps(Run(es[..|es| - 1]).value, es[|es| - 1]);
    }
  }

  // The wait endpoint hands out each ask's outcome at most once, and what it
  // hands out is what the waiter settled with.
  lemma TakenAtMostOnce(es: seq<Event>, k: nat)
    requires Run(es).Some? && k < |Run(es).value.taken|
    ensures var s := Run(es).value;
            && FromCard(s, s.taken[k].key, s.taken[k].text)
            && s.taken[k].key !in s.outcomes
            && forall l :: 0 <= l < |s.taken| && s.taken[l].key == s.taken[k].key ==> l == k
  {
    RunKeeps(es);
    var s := Run(es).value;
    assert HandedOut(s, s.taken[k].key);
  }

  // An outcome is never lost: once the continuation has run it is there to be
  // taken, until it is taken.
  lemma SettledUntilTaken(es: seq<Event>, i: nat)
    requires Run(es).Some? && i < |Run(es).value.cards|
    ensures var s := Run(es).value;
            && CardOk(s, i)
            && (s.cards[i].told ==> (CardKey(s, i) in s.outcomes <==> !HandedOut(s, CardKey(s, i))))
            && (!s.cards[i].told ==> CardKey(s, i) !in s.outcomes && !HandedOut(s, CardKey(s, i)))
  {
    RunKeeps(es);
    var s := Run(es).value;
    assert CardOk(s, i) && CardPlace(s, i);
    if CardKey(s, i) in s.outcomes { assert !HandedOut(s, CardKey(s, i)); }
  }

  // What is settled is the answer exactly if there was one and nothing threw
  // while it was written down; otherwise the ask reads as dismissed.
  lemma AnswerReachesModelExactly(es: seq<Event>, i: nat)
    requires Run(es).Some? && i < |Run(es).value.cards| && Run(es).value.cards[i].told
    ensures CardOk(Run(es).value, i)
    ensures var s := Run(es).value;
            var o := s.reg.waiters[s.cards[i].waiter].outcome;
            && (CardKey(s, i) in s.outcomes ==>
                  && (s.outcomes[CardKey(s, i)].Formatted? <==> o.Answered? && !s.cards[i].failed)
                  && (o.Answered? && !s.cards[i].failed ==>
                        s.outcomes[CardKey(s, i)] == Formatted(s.cards[i].questions, o.answers)))
  {
    RunKeeps(es);
    var s := Run(es).value;
    assert CardOk(s, i);
    if CardKey(s, i) in s.outcomes {
      var key := CardKey(s, i);
      assert FromCard(s, key, s.outcomes[key]);
      var j :| 0 <= j < |s.cards| && CardOk(s, j) && s.cards[j].told && CardKey(s, j) == key
               && CardText(s, j) == s.outcomes[key];
      KeyInjective(s.cards[i].task, s.cards[i].ask, s.cards[j].task, s.cards[j].ask);
    }
  }

  // The answer clears the task's awaiting flag whether or not another ask of
  // the task is still parked, so the flag is right exactly when none is.
  ghost predicate Parked(s: State, task: string) {
    exists i :: 0 <= i < |s.cards| && s.cards[i].waiter < |s.reg.waiters|
                && s.cards[i].task == task && s.reg.waiters[s.cards[i].waiter].outcome == Asks.Waiting
  }

  lemma ContinueKeepsParked(s: State, i: nat, fault: Option<Fault>, task: string)
    requires CanContinue(s, i)
    ensures Parked(Continued(s, i, fault), task) <==> Parked(s, task)
  {
    var r := Continued(s, i, fault);
    forall j | 0 <= j < |s.cards|
      ensures r.cards[j].task == s.cards[j].task && r.cards[j].waiter == s.cards[j].waiter
    {
    }
    if Parked(s, task) {
      var j :| 0 <= j < |s.cards| && s.cards[j].waiter < |s.reg.waiters|
               && s.cards[j].task == task && s.reg.waiters[s.cards[j].waiter].outcome == Asks.Waiting;
      assert r.cards[j].task == task;
    }
  }

  lemma AnswerClearsTheFlag(s: State, i: nat)
    requires CanContinue(s, i) && s.reg.waiters[s.cards[i].waiter].outcome.Answered?
    ensures var r := Continued(s, i, None);
            var task := s.cards[i].task;
            task in r.awaiting && (r.awaiting[task] == Parked(r, task) <==> !Parked(s, task))
  {
    ContinueKeepsParked(s, i, None, s.cards[i].task);
  }

  // ---------- the card over every run ----------

  // The event runs the continuation of card `i` with an answer and the given fault.
  predicate Delivers(s: State, e: Event, i: nat) {
    e.Continue? && e.card == i && CanContinue(s, i) && s.reg.waiters[s.cards[i].waiter].outcome.Answered?
  }

  predicate Shows(s: State, e: Event, i: nat) {
    Delivers(s, e, i) && e.fault != Some(AtMessage)
  }

  predicate Fails(s: State, e: Event, i: nat) {
    Delivers(s, e, i) && e.fault.Some?
  }

  lemma CardStep(s: State, e: Event, i: nat)
    requires Inv(s) && Enabled(s, e) && i < |s.cards|
    ensures var r := Step(s, e);
            && i < |r.cards|
            && (r.cards[i].shown.Some? <==> s.cards[i].shown.Some? || Shows(s, e, i))
            && (r.cards[i].failed <==> s.cards[i].failed || Fails(s, e, i))
  {
    assert CardOk(s, i);
  }

  ghost predicate ShownIn(es: seq<Event>, i: nat) {
    exists k :: 0 <= k < |es| && Run(es[..k]).Some? && Shows(Run(es[..k]).value, es[k], i)
  }

  ghost predicate FailedIn(es: seq<Event>, i: nat) {
    exists k :: 0 <= k < |es| && Run(es[..k]).Some? && Fails(Run(es[..k]).value, es[k], i)
  }

  lemma HistorySnoc(es: seq<Event>, i: nat)
    requires es != [] && Run(es[..|es| - 1]).Some?
    ensures var n := |es| - 1;
            && (ShownIn(es, i) <==> ShownIn(es[..n], i) || Shows(Run(es[..n]).value, es[n], i))
            && (FailedIn(es, i) <==> FailedIn(es[..n], i) || Fails(Run(es[..n]).value, es[n], i))
  {
    var p := es[..|es| - 1];
    assert forall k :: 0 <= k < |p| ==> p[..k] == es[..k];
  }

  lemma NoCardYet(es: seq<Event>, i: nat)
    requires Run(es).Some? && i >= |Run(es).value.cards|
    ensures !ShownIn(es, i) && !FailedIn(es, i)
    decreases |es|
  {
    if es != [] {
      PrefixesRun(es, |es| - 1);
      CardsGrow(Run(es[..|es| - 1]).value, es[|es| - 1]);
      NoCardYet(es[..|es| - 1], i);
      HistorySnoc(es, i);
    }
  }

  lemma CardsGrow(s: State, e: Event)
    requires Enabled(s, e)
    ensures |s.cards| <= |Step(s, e).cards| <= |s.cards| + 1
    ensures |Step(s, e).cards| > |s.cards| ==>
              e.Start? && Step(s, e).cards[|s.cards|].shown.None? && !Step(s, e).cards[|s.cards|].failed
  {
  }

  // In every run: a card shows an answer exactly if its continuation had one and
  // stored the message, and counts as failed exactly if something threw.
  lemma {:induction false} CardShowsExactly(es: seq<Event>, i: nat)
    requires Run(es).Some? && i < |Run(es).value.cards|
    ensures Run(es).value.cards[i].shown.Some? <==> ShownIn(es, i)
    ensures Run(es).value.cards[i].failed <==> FailedIn(es, i)
    decreases |es|
  {
    if es != [] {
      var n := |es| - 1;
      PrefixesRun(es, n);
      RunKeeps(es[..n]);
      var s := Run(es[..n]).value;
      HistorySnoc(es, i);
      CardsGrow(s, es[n]);
      if i < |s.cards| {
        CardShowsExactly(es[..n], i);
        CardStep(s, es[n], i);
      } else {
        NoCardYet(es[..n], i);
      }
    }
  }

  // ---------- the flag over every run ----------

  // The event puts a question of the task up.
  predicate Asked(e: Event, task: string) {
    e.Start? && e.task == task
  }

  // The event stores an answer to a question of the task, as far as the task row.
  predicate AnswerStored(s: State, e: Event, task: string) {
    && e.Continue? && CanContinue(s, e.card) && s.cards[e.card].task == task
    && s.reg.waiters[s.cards[e.card].waiter].outcome.Answered?
    && (e.fault.None? || e.fault.value.AtPublish?)
  }

  predicate FlagUp(s: State, task: string) {
    task in s.awaiting && s.awaiting[task]
  }

  lemma FlagStep(s: State, e: Event, task: string)
    requires Enabled(s, e)
    ensures FlagUp(Step(s, e), task) <==> Asked(e, task) || (FlagUp(s, task) && !AnswerStored(s, e, task))
  {
  }

  // A question was put up, and no answer to one of the task's has been stored since.
  ghost predicate AskedSince(es: seq<Event>, task: string, k: nat) {
    && k < |es| && Asked(es[k], task)
    && forall j :: k < j < |es| ==> Run(es[..j]).Some? && !AnswerStored(Run(es[..j]).value, es[j], task)
  }

  lemma PrefixesRun(es: seq<Event>, j: nat)
    requires Run(es).Some? && j <= |es|
    ensures Run(es[..j]).Some?
    decreases |es| - j
  {
    if j < |es| {
      PrefixesRun(es, j + 1);
      assert es[..j + 1][..j] == es[..j];
    } else {
      assert es[..j] == es;
    }
  }

  lemma AskedBefore(es: seq<Event>, task: string, k: nat)
    requires k < |es| - 1 && Run(es[..|es| - 1]).Some?
    ensures AskedSince(es, task, k) <==>
            && AskedSince(es[..|es| - 1], task, k)
            && !AnswerStored(Run(es[..|es| - 1]).value, es[|es| - 1], task)
  {
    var p := es[..|es| - 1];
    assert forall j :: 0 <= j < |p| ==> p[..j] == es[..j];
  }

  // In every run the flag is up exactly if a question came after the last answer
  // that was stored.
  lemma {:induction false} FlagUpExactly(es: seq<Event>, task: string)
    requires Run(es).Some?
    ensures FlagUp(Run(es).value, task) <==> exists k :: AskedSince(es, task, k)
    decreases |es|
  {
    if es != [] {
      var n := |es| - 1;
      PrefixesRun(es, n);
      FlagUpExactly(es[..n], task);
      FlagStep(Run(es[..n]).value, es[n], task);
      AskedBeforeLast(es, task);
    }
  }

  lemma AskedBeforeLast(es: seq<Event>, task: string)
    requires es != [] && Run(es[..|es| - 1]).Some?
    ensures var n := |es| - 1;
            (exists k :: AskedSince(es, task, k)) <==>
            || Asked(es[n], task)
            || (&& (exists k :: AskedSince(es[..n], task, k))
                && !AnswerStored(Run(es[..n]).value, es[n], task))
  {
    var n := |es| - 1;
    if Asked(es[n], task) { assert AskedSince(es, task, n); }
    if k: nat :| AskedSince(es[..n], task, k) { AskedBefore(es, task, k); }
    if k: nat :| AskedSince(es, task, k) {
      if k < n { AskedBefore(es, task, k); }
    }
  }

  // Two questions of one task, one of them answered: the flag is down while the
  // other is still parked.
  const TWO_ASKS: seq<Event> := [
    Start("t", "a", "first", None), Start("t", "b", "second", None),
    Registry(Asks.Submit("t", "a", "yes", true)), Continue(0, None)]

  lemma FlagDownWhileParked()
    ensures Run(TWO_ASKS).Some?
    ensures var s := Run(TWO_ASKS).value; "t" in s.awaiting && !s.awaiting["t"] && Parked(s, "t")
  {
    TwoAsked();
    OneAnswered(Step(Step(INIT, TWO_ASKS[0]), TWO_ASKS[1]));
    RunFour(TWO_ASKS[0], TWO_ASKS[1], TWO_ASKS[2], TWO_ASKS[3]);
  }

  lemma TwoAsked()
    ensures var s := Step(Step(INIT, TWO_ASKS[0]), TWO_ASKS[1]);
            && s.reg.waiters == [Asks.Waiter("t", "a", None, false, Asks.Waiting),
                                 Asks.Waiter("t", "b", None, false, Asks.Waiting)]
            && s.reg.asks == map["t" := map["a" := Asks.Pending("first", 0), "b" := Asks.Pending("second", 1)]]
            && s.cards == [Card("t", "a", "first", 0, None, false, false),
                           Card("t", "b", "second", 1, None, false, false)]
  {
    var s1 := Step(INIT, TWO_ASKS[0]);
    assert s1.reg.waiters == [Asks.Waiter("t", "a", None, false, Asks.Waiting)];
    assert s1.reg.asks == map["t" := map["a" := Asks.Pending("first", 0)]];
  }

  lemma OneAnswered(s: State)
    requires s.reg.waiters == [Asks.Waiter("t", "a", None, false, Asks.Waiting),
                               Asks.Waiter("t", "b", None, false, Asks.Waiting)]
    requires s.reg.asks == map["t" := map["a" := Asks.Pending("first", 0), "b" := Asks.Pending("second", 1)]]
    requires s.cards == [Card("t", "a", "first", 0, None, false, false),
                         Card("t", "b", "second", 1, None, false, false)]
    ensures var s3 := Step(s, TWO_ASKS[2]);
            var s4 := Step(s3, TWO_ASKS[3]);
            && Enabled(s, TWO_ASKS[2]) && Enabled(s3, TWO_ASKS[3])
            && "t" in s4.awaiting && !s4.awaiting["t"] && Parked(s4, "t")
  {
    var s3 := Step(s, TWO_ASKS[2]);
    assert s3.reg.waiters[0].outcome == Asks.Answered("yes") && s3.reg.waiters[1].outcome == Asks.Waiting;
    var s4 := Step(s3, TWO_ASKS[3]);
    assert s4.cards[1].task == "t" && s4.reg.waiters[s4.cards[1].waiter].outcome == Asks.Waiting;
  }

  // An answered question whose continuation throws at storing the task row.
  const LOST_ANSWER: seq<Event> := [
    Start("t", "a", "first", None), Registry(Asks.Submit("t", "a", "yes", true)), Continue(0, Some(AtTask)),
    Take("t", "a")]

  // The answer stands on the card, and the model is told that there was none.
  lemma AnswerReadsAsDismissed()
    ensures Run(LOST_ANSWER).Some?
    ensures var s := Run(LOST_ANSWER).value;
            && |s.reg.waiters| == |s.cards| == 1 && s.reg.waiters[0].outcome == Asks.Answered("yes")
            && s.cards[0].shown == Some("yes") && s.taken == [Handed(Key("t", "a"), Dismissed)]
  {
    var s1 := Step(INIT, LOST_ANSWER[0]);
    assert s1.reg.waiters == [Asks.Waiter("t", "a", None, false, Asks.Waiting)];
    assert s1.reg.asks == map["t" := map["a" := Asks.Pending("first", 0)]];
    AnswerThrows(s1);
    RunFour(LOST_ANSWER[0], LOST_ANSWER[1], LOST_ANSWER[2], LOST_ANSWER[3]);
  }

  lemma AnswerThrows(s: State)
    requires s.reg.waiters == [Asks.Waiter("t", "a", None, false, Asks.Waiting)] && s.taken == []
    requires s.reg.asks == map["t" := map["a" := Asks.Pending("first", 0)]]
    requires s.cards == [Card("t", "a", "first", 0, None, false, false)]
    ensures var s2 := Step(s, LOST_ANSWER[1]);
            Enabled(s, LOST_ANSWER[1]) && Enabled(s2, LOST_ANSWER[2]) &&
            var s3 := Step(s2, LOST_ANSWER[2]);
            var s4 := Step(s3, LOST_ANSWER[3]);
            && Enabled(s3, LOST_ANSWER[3])
            && |s4.reg.waiters| == |s4.cards| == 1 && s4.reg.waiters[0].outcome == Asks.Answered("yes")
            && s4.cards[0].shown == Some("yes") && s4.taken == [Handed(Key("t", "a"), Dismissed)]
  {
    var s2 := Step(s, LOST_ANSWER[1]);
    assert s2.reg.waiters == [Asks.Waiter("t", "a", None, false, Asks.Answered("yes"))];
  }

  lemma RunFour(a: Event, b: Event, c: Event, d: Event)
    requires Enabled(INIT, a) && Enabled(Step(INIT, a), b) && Enabled(Step(Step(INIT, a), b), c)
    requires Enabled(Step(Step(Step(INIT, a), b), c), d)
    ensures Run([a, b, c, d]) == Some(Step(Step(Step(Step(INIT, a), b), c), d))
  {
    assert [a, b, c, d][..3] == [a, b, c] && [a, b, c][..2] == [a, b] && [a, b][..1] == [a];
    assert Run([a]) == Some(Step(INIT, a));
    assert Run([a, b]) == Some(Step(Step(INIT, a), b));
  }
}
