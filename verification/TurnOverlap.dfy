// When a turn overlaps a git section that saw no turn.
module TurnOverlap {
  import opened Wrappers
  import opened Abort
  import opened TurnProtocol
  import opened TurnExclusion

  predicate Streams(s: State, c: Controller) {
    c in s.core.actors && s.core.actors[c].Streaming?
  }

  predicate InSection(s: State) {
    s.core.gitIn && s.core.lock != [] && s.core.lock[0].GitTicket?
  }

  // Inside the section nobody starts streaming, and only GitExit ends it.
  lemma SectionStep(s: State, e: Event)
    requires InSection(s) && !e.GitExit?
    ensures InSection(Step(s, e))
    ensures forall c: Controller :: Streams(Step(s, e), c) ==> Streams(s, c)
  {
  }

  lemma {:induction false} SectionRun(s: State, es: seq<Event>)
    requires InSection(s) && GitExit !in es
    ensures InSection(Run(s, es))
    ensures forall c: Controller :: Streams(Run(s, es), c) ==> Streams(s, c)
    decreases |es|
  {
    if es != [] {
      assert es[0] in es;
      assert forall e :: e in es[1..] ==> e in es;
      SectionStep(s, es[0]);
      SectionRun(Step(s, es[0]), es[1..]);
    }
  }

  // A git operation at the head of the lock gets in exactly if the task is there,
  // its row does not run and nobody is in the slot; otherwise it leaves the lock
  // to the next in line.
  lemma EntersExactly(s: State)
    requires s.core.lock != [] && s.core.lock[0].GitTicket? && !s.core.gitIn
    ensures var enters := s.row.Some? && !s.row.value.running && !HasTurn(s);
            Step(s, GitEnter) == s.(core := if enters then s.core.(gitIn := true)
                                            else s.core.(lock := s.core.lock[1..]))
  {
  }

  // Leaving lets the next in line in.
  lemma LeavesToNext(s: State)
    requires InSection(s)
    ensures Step(s, GitExit) == s.(core := s.core.(lock := s.core.lock[1..], gitIn := false))
  {
  }

  // A git operation that gets in does so without an un-aborted turn.
  lemma EntrySeesOnlyAborted(gen: nat, before: seq<Event>, c: Controller)
    requires var s := Run(Init(gen), before); !s.core.gitIn && Step(s, GitEnter).core.gitIn
    requires Streams(Run(Init(gen), before), c)
    ensures c in Run(Init(gen), before).core.slot.aborted
    ensures InSection(Step(Run(Init(gen), before), GitEnter))
  {
    var s := Run(Init(gen), before);
    InitInv(gen);
    RunKeeps(Init(gen), before);
    if c !in s.core.slot.aborted { assert LiveUnaborted(s.core, c); }
  }

  // Some turn streams at some point between the entry and the end of `during`.
  ghost predicate Overlapped(entered: State, during: seq<Event>) {
    exists j, c: Controller :: 0 <= j <= |during| && Streams(Run(entered, during[..j]), c)
  }

  // From the entry to the exit, whoever streams inside streamed, aborted, at the
  // entry; so a turn overlaps the section exactly if such a one was there then.
  lemma OverlapExactly(gen: nat, before: seq<Event>, during: seq<Event>)
    requires var s := Run(Init(gen), before); !s.core.gitIn && Step(s, GitEnter).core.gitIn
    requires GitExit !in during
    ensures var s := Run(Init(gen), before);
            && InSection(Run(Step(s, GitEnter), during))
            && (forall c: Controller :: Streams(Run(Step(s, GitEnter), during), c) ==>
                  Streams(s, c) && c in s.core.slot.aborted)
            && (Overlapped(Step(s, GitEnter), during) <==>
                  exists c: Controller :: Streams(s, c) && c in s.core.slot.aborted)
  {
    var s := Run(Init(gen), before);
    var s' := Step(s, GitEnter);
    SectionRun(s', during);
    forall c: Controller | Streams(s, c) ensures c in s.core.slot.aborted {
      EntrySeesOnlyAborted(gen, before, c);
    }
    assert forall c: Controller :: Streams(s', c) <==> Streams(s, c);
    if Overlapped(s', during) {
      var j, c: Controller :| 0 <= j <= |during| && Streams(Run(s', during[..j]), c);
      assert forall e :: e in during[..j] ==> e in during;
      SectionRun(s', during[..j]);
      assert Streams(s, c) && c in s.core.slot.aborted;
    }
    if c: Controller :| Streams(s, c) && c in s.core.slot.aborted {
      assert during[..0] == [] && Streams(Run(s', during[..0]), c);
    }
  }
}
