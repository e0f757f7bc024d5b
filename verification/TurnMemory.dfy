// What a turn's local variables hold when its finally block reads them: exactly
// what its driver has reported since the launch, and what that settles on the row.
module TurnMemory {
  import opened Wrappers
  import opened Abort
  import opened TurnProtocol
  import opened TurnExclusion

  // ---------- what a driver has reported ----------

  predicate Says(e: Event, c: Controller, ev: DriverEvent) {
    e == Driver(c, ev)
  }

  predicate NamesTool(e: Event, c: Controller, id: nat) {
    Says(e, c, Tool(id)) || Says(e, c, Ask(id)) || Says(e, c, AskUnstored(id))
  }

  predicate Asks(e: Event, c: Controller, id: nat) {
    Says(e, c, Ask(id)) || Says(e, c, AskUnstored(id))
  }

  predicate Answers(e: Event, c: Controller, id: nat) {
    Says(e, c, Answered(id)) || Says(e, c, AnsweredUnstored(id))
  }

  predicate Opens(e: Event, c: Controller) {
    e.Driver? && e.c == c && (e.ev.Opened? || e.ev.OpenedUnstored?)
  }

  predicate NamesSession(e: Event, c: Controller) {
    Opens(e, c) || (e.Driver? && e.c == c && e.ev.Done?)
  }

  // The driver of `c` has reported this tool call.
  ghost predicate Named(es: seq<Event>, c: Controller, id: nat) {
    exists i :: 0 <= i < |es| && NamesTool(es[i], c, id)
  }

  // It has asked this question and not reported an answer since.
  ghost predicate Open(es: seq<Event>, c: Controller, id: nat) {
    exists i :: AskedAt(es, c, id, i)
  }

  ghost predicate AskedAt(es: seq<Event>, c: Controller, id: nat, i: nat) {
    i < |es| && Asks(es[i], c, id) && !AnsweredIn(es[i + 1..], c, id)
  }

  ghost predicate AnsweredIn(es: seq<Event>, c: Controller, id: nat) {
    exists i :: 0 <= i < |es| && Answers(es[i], c, id)
  }

  ghost predicate Opened(es: seq<Event>, c: Controller) {
    exists i :: 0 <= i < |es| && Opens(es[i], c)
  }

  ghost predicate LoginDied(es: seq<Event>, c: Controller) {
    exists i :: 0 <= i < |es| && Says(es[i], c, Fail(true))
  }

  // The last session it has named, or the one the turn was launched with.
  function LastSession(es: seq<Event>, c: Controller, gen: nat, launched: Option<Session>): Option<Session> {
    if es == [] then launched
    else
      var e := es[|es| - 1];
      if NamesSession(e, c) then Some(Session(gen, e.ev.sid))
      else LastSession(es[..|es| - 1], c, gen, launched)
  }

  // ---------- what the turn remembers ----------

  predicate Streams(s: State, c: Controller) {
    c in s.core.actors && s.core.actors[c].Streaming?
  }

  // The turn as its launch made it.
  predicate JustLaunched(s: State, c: Controller, gen: nat, session: Option<Session>) {
    Streams(s, c) && s.core.actors[c].turn == Turn(gen, session, false, {}, {}, false)
  }

  ghost predicate Remembers(t: Turn, es: seq<Event>, c: Controller, gen: nat, session: Option<Session>) {
    && t.gen == gen
    && t.session == LastSession(es, c, gen, session)
    && (t.didOpen <==> Opened(es, c))
    && (t.deadLogin <==> LoginDied(es, c))
    && (forall id :: id in t.known <==> Named(es, c, id))
    && (forall id :: id in t.asks <==> Open(es, c, id))
  }

  // A turn streams, and only its driver changes it, until its finally block.
  lemma StaysStreaming(s: State, e: Event, c: Controller)
    requires Streams(s, c) && c < s.core.slot.next
    requires !(e.TurnFinally? && e.c == c)
    ensures Streams(Step(s, e), c) && c < Step(s, e).core.slot.next
    ensures Step(s, e).core.actors[c].turn
         == if e.Driver? && e.c == c then TurnAfter(s.core.actors[c].turn, e.ev) else s.core.actors[c].turn
  {
    match e
    case TurnFinally(d, cut) => if Enabled(s, d, e) { FinallyLeavesOthers(s, d, cut, c); }
    case Driver(_, _) => StaysMoved(s, e, c);
    case PostEnter(_, _) => StaysMoved(s, e, c);
    case LaunchCommit(_, _) => StaysMoved(s, e, c);
    case DrainEnter(_, _) => StaysMoved(s, e, c);
    case _ => StaysOther(s, e, c);
  }

  lemma FinallyLeavesOthers(s: State, d: Controller, cut: Option<Cut>, c: Controller)
    requires Streams(s, c) && c < s.core.slot.next && d != c && Enabled(s, d, TurnFinally(d, cut))
    ensures Streams(FinallyStep(s, d, cut), c) && c < FinallyStep(s, d, cut).core.slot.next
    ensures FinallyStep(s, d, cut).core.actors[c] == s.core.actors[c]
  {
  }

  lemma StaysMoved(s: State, e: Event, c: Controller)
    requires Streams(s, c) && c < s.core.slot.next
    requires e.Driver? || e.PostEnter? || e.LaunchCommit? || e.DrainEnter?
    ensures Streams(Step(s, e), c) && c < Step(s, e).core.slot.next
    ensures Step(s, e).core.actors[c].turn
         == if e.Driver? && e.c == c then TurnAfter(s.core.actors[c].turn, e.ev) else s.core.actors[c].turn
  {
  }

  lemma StaysOther(s: State, e: Event, c: Controller)
    requires Streams(s, c) && c < s.core.slot.next
    requires !e.TurnFinally? && !e.Driver? && !e.PostEnter? && !e.LaunchCommit? && !e.DrainEnter?
    ensures Streams(Step(s, e), c) && c < Step(s, e).core.slot.next
    ensures Step(s, e).core.actors[c] == s.core.actors[c]
  {
  }

  lemma NamedSnoc(es: seq<Event>, c: Controller, id: nat)
    requires es != []
    ensures Named(es, c, id) <==> Named(es[..|es| - 1], c, id) || NamesTool(es[|es| - 1], c, id)
  {
    var p := es[..|es| - 1];
    assert forall i :: 0 <= i < |p| ==> p[i] == es[i];
  }

  lemma AskedAtSnoc(es: seq<Event>, c: Controller, id: nat, i: nat)
    requires i < |es| - 1
    ensures AskedAt(es, c, id, i) <==> AskedAt(es[..|es| - 1], c, id, i) && !Answers(es[|es| - 1], c, id)
  {
    var n := |es| - 1;
    AnsweredSnoc(es[i + 1..], es[..n][i + 1..], es[n], c, id);
  }

  lemma OpenSnoc(es: seq<Event>, c: Controller, id: nat)
    requires es != []
    ensures var n := |es| - 1;
            Open(es, c, id) <==> Asks(es[n], c, id) || (Open(es[..n], c, id) && !Answers(es[n], c, id))
  {
    var n := |es| - 1;
    if Asks(es[n], c, id) { assert AskedAt(es, c, id, n); }
    if i: nat :| AskedAt(es[..n], c, id, i) { AskedAtSnoc(es, c, id, i); }
    if i: nat :| AskedAt(es, c, id, i) {
      if i < n { AskedAtSnoc(es, c, id, i); }
    }
  }

  lemma AnsweredSnoc(es: seq<Event>, p: seq<Event>, e: Event, c: Controller, id: nat)
    requires es == p + [e]
    ensures AnsweredIn(es, c, id) <==> AnsweredIn(p, c, id) || Answers(e, c, id)
  {
    assert es[|p|] == e && forall i :: 0 <= i < |p| ==> es[i] == p[i];
  }

  lemma FlagsSnoc(es: seq<Event>, c: Controller)
    requires es != []
    ensures var n := |es| - 1;
            && (Opened(es, c) <==> Opened(es[..n], c) || Opens(es[n], c))
            && (LoginDied(es, c) <==> LoginDied(es[..n], c) || Says(es[n], c, Fail(true)))
  {
    var p := es[..|es| - 1];
    assert forall i :: 0 <= i < |p| ==> p[i] == es[i];
  }

  // In every run from its launch to its finally block: the turn remembers exactly
  // the session its driver named last, whether one was opened, whether the login
  // died, the tool calls named and the questions still open.
  lemma {:induction false} TurnRemembersExactly(
    s: State, es: seq<Event>, k: nat, c: Controller, gen: nat, session: Option<Session>)
    requires JustLaunched(s, c, gen, session) && c < s.core.slot.next && k <= |es|
    requires forall e :: e in es ==> !(e.TurnFinally? && e.c == c)
    ensures Streams(Run(s, es[..k]), c) && c < Run(s, es[..k]).core.slot.next
    ensures Remembers(Run(s, es[..k]).core.actors[c].turn, es[..k], c, gen, session)
    decreases k
  {
    if k == 0 {
      assert es[..0] == [];
    } else {
      TurnRemembersExactly(s, es, k - 1, c, gen, session);
      RunSnoc(s, es, k - 1);
      assert es[k - 1] in es && es[..k][..k - 1] == es[..k - 1];
      StaysStreaming(Run(s, es[..k - 1]), es[k - 1], c);
      RemembersNext(Run(s, es[..k - 1]).core.actors[c].turn, es[..k], c, gen, session);
    }
  }

  function After(t: Turn, e: Event, c: Controller): Turn {
    if e.Driver? && e.c == c then TurnAfter(t, e.ev) else t
  }

  lemma ReportStep(t: Turn, e: Event, c: Controller, id: nat)
    ensures var t' := After(t, e, c);
            && (id in t'.known <==> id in t.known || NamesTool(e, c, id))
            && (id in t'.asks <==> Asks(e, c, id) || (id in t.asks && !(Answers(e, c, id) && id in t.known)))
  {
  }

  lemma IdNext(t: Turn, es: seq<Event>, c: Controller, gen: nat, session: Option<Session>, id: nat)
    requires es != [] && Remembers(t, es[..|es| - 1], c, gen, session)
    ensures var t' := After(t, es[|es| - 1], c);
            (id in t'.known <==> Named(es, c, id)) && (id in t'.asks <==> Open(es, c, id))
  {
    NamedSnoc(es, c, id);
    OpenSnoc(es, c, id);
    ReportStep(t, es[|es| - 1], c, id);
    AskedIsNamed(es[..|es| - 1], c, id);
  }

  lemma RemembersNext(t: Turn, es: seq<Event>, c: Controller, gen: nat, session: Option<Session>)
    requires es != [] && Remembers(t, es[..|es| - 1], c, gen, session)
    ensures Remembers(After(t, es[|es| - 1], c), es, c, gen, session)
  {
    FlagsSnoc(es, c);
    var t' := After(t, es[|es| - 1], c);
    forall id: nat ensures (id in t'.known <==> Named(es, c, id)) && (id in t'.asks <==> Open(es, c, id)) {
      IdNext(t, es, c, gen, session, id);
    }
  }

  lemma AskedIsNamed(es: seq<Event>, c: Controller, id: nat)
    ensures Open(es, c, id) ==> Named(es, c, id)
  {
    if i: nat :| AskedAt(es, c, id, i) { assert NamesTool(es[i], c, id); }
  }

  // ---------- and what that settles ----------

  // A turn that settles puts what its driver reported on the row: running off, the
  // session named last, and waiting for the user exactly if a session was opened.
  lemma SettlesWhatWasReported(
    s: State, es: seq<Event>, c: Controller, gen: nat, session: Option<Session>, cut: Option<Cut>)
    requires JustLaunched(s, c, gen, session) && c < s.core.slot.next
    requires forall e :: e in es ==> !(e.TurnFinally? && e.c == c)
    requires cut != Some(AtSettle)
    ensures var r := Run(s, es);
            var r' := Step(r, TurnFinally(c, cut));
            r.row.Some? && r.row.value.gen == gen && (HasTurn(r) ==> Owns(r, c)) ==>
              && r'.row.Some? && !r'.row.value.running && r'.row.value.gen == gen
              && r'.row.value.session == LastSession(es, c, gen, session)
              && (r'.row.value.awaiting <==> Opened(es, c))
              && r'.row.value.started == r.row.value.started
  {
    TurnRemembersExactly(s, es, |es|, c, gen, session);
    assert es[..|es|] == es;
  }

  // What a launch makes: a turn that resumes the row's session as it was under
  // the lock, and a row that runs and does not wait for the user.
  lemma LaunchMakes(s: State, c: Controller)
    requires Enabled(s, c, LaunchCommit(c, false)) && s.row.Some?
    ensures var l := s.core.actors[c];
            var r := Step(s, LaunchCommit(c, false));
            && JustLaunched(r, c, l.gen, l.session)
            && r.row == Some(Row(s.row.value.gen, true, s.row.value.session, false, s.row.value.started))
            && r.log.owed && r.log.silent == {} && r.core.slot == s.core.slot
            && r.ledger == (if l.followUp.None? then s.ledger
                            else s.ledger.(ran := s.ledger.ran + [l.followUp.value]))
  {
  }

  // A launch that fails changes no row; only a first turn still holds its claim
  // afterwards, and the follow-up it was to run is dropped.
  lemma LaunchThatFails(s: State, c: Controller, fault: bool)
    requires Enabled(s, c, LaunchCommit(c, fault)) && (fault || s.row.None?)
    ensures var l := s.core.actors[c];
            var r := Step(s, LaunchCommit(c, fault));
            && r.row == s.row && r.log.owed == s.log.owed && !Streams(r, c)
            && (Owns(r, c) <==> Owns(s, c) && l.initial)
            && (forall d: Controller :: d != c ==> (Owns(r, d) <==> Owns(s, d)))
            && r.log.faulted == (s.log.faulted || fault)
            && r.ledger.queue == s.ledger.queue && r.ledger.ran == s.ledger.ran
            && (l.followUp.None? ==> r.ledger == s.ledger && r.core.actors == s.core.actors[c := Leaving])
            && (l.followUp.Some? ==>
                  && r.ledger.fate == s.ledger.fate[l.followUp.value := Dropped]
                  && r.core.actors == s.core.actors[c := Failing(l.didOpen)])
  {
  }

  lemma EnterReads(s: State, c: Controller)
    requires Enabled(s, c, PostEnter(c, false)) && s.row.Some? && !s.core.slot.deleting
    ensures var r := s.row.value;
            Step(s, PostEnter(c, false)).core.actors
            == s.core.actors[c := Launching(r.gen, r.session, !r.started, None, false)]
  {
  }
}
