// The two promise-chain locks (lib/taskLock.ts, lib/repoLock.ts), and the one
// first-in first-out lock per key that both of them are.
//
// A promise reaction runs at some later point, so each synchronous stretch of a
// call is one step, and the settling of a promise is a step of its own.
module Locks {
  import opened Wrappers

  type Key = string

  datatype Promise = Pending | Fulfilled | Rejected

  datatype Phase =
    | Waiting
    | Inside
    | Left(ok: bool)    // the section is over: it returned, or it threw
    | Refused           // the wait itself threw, so the section never ran

  // One call, numbered by arrival.  `prev` is the tail it found in the table;
  // `tail` is the promise it put there.
  datatype Call = Call(key: Key, prev: Option<nat>, phase: Phase, tail: Promise)

  datatype Chain = Chain(calls: seq<Call>, tails: map<Key, nat>)

  datatype Event =
    | Arrive(key: Key)
    | Enter(i: nat)
    | Leave(i: nat, ok: bool)
    | Settle(i: nat)      // the tail's promise settles
    | Forget(i: nat)      // repo lock only: the reaction that drops the entry

  datatype Kind = TaskLock | RepoLock

  function PrevOf(s: Chain, i: nat): Promise
    requires i < |s.calls|
  {
    match s.calls[i].prev
    case None => Fulfilled
    case Some(j) => if j < |s.calls| then s.calls[j].tail else Fulfilled
  }

  function Update(s: Chain, i: nat, c: Call): Chain
    requires i < |s.calls|
  {
    s.(calls := s.calls[i := c])
  }

  function DropEntry(s: Chain, i: nat): Chain
    requires i < |s.calls|
  {
    var k := s.calls[i].key;
    if k in s.tails && s.tails[k] == i then s.(tails := s.tails - {k}) else s
  }

  function Step(kind: Kind, s: Chain, e: Event): Chain {
    match e
    case Arrive(k) =>
      Chain(s.calls + [Call(k, if k in s.tails then Some(s.tails[k]) else None, Waiting, Pending)],
            s.tails[k := |s.calls|])
    case Enter(i) =>
      if i < |s.calls| && s.calls[i].phase.Waiting? then
        match (kind, PrevOf(s, i))
        case (_, Pending) => s
        case (_, Fulfilled) => Update(s, i, s.calls[i].(phase := Inside))
        case (TaskLock, Rejected) => Update(s, i, s.calls[i].(phase := Refused))   // await prev throws
        case (RepoLock, Rejected) => Update(s, i, s.calls[i].(phase := Inside))    // prev.then(fn, fn)
      else s
    case Leave(i, ok) =>
      if i < |s.calls| && s.calls[i].phase.Inside? then
        var s1 := Update(s, i, s.calls[i].(phase := Left(ok)));
        if kind.TaskLock? then DropEntry(s1, i) else s1
      else s
    case Settle(i) =>
      if i < |s.calls| && s.calls[i].tail.Pending? then
        match kind
        case TaskLock =>                                // prev.then(() => gate)
          if PrevOf(s, i).Rejected? then Update(s, i, s.calls[i].(tail := Rejected))
          else if PrevOf(s, i).Fulfilled? && s.calls[i].phase.Left? then Update(s, i, s.calls[i].(tail := Fulfilled))
          else s
        case RepoLock =>                                // run.then(() => {}, () => {})
          if s.calls[i].phase.Left? then Update(s, i, s.calls[i].(tail := Fulfilled)) else s
      else s
    case Forget(i) =>
      if kind.RepoLock? && i < |s.calls| && s.calls[i].tail.Fulfilled? then DropEntry(s, i) else s
  }

  function Run(kind: Kind, s: Chain, es: seq<Event>): Chain
    decreases |es|
  {
    if es == [] then s else Run(kind, Step(kind, s, es[0]), es[1..])
  }

  const EMPTY: Chain := Chain([], map[])

  // ---------- the invariant ----------

  predicate Over(c: Call) {
    c.phase.Left?
  }

  // Every earlier call for the same key is over.
  ghost predicate Clear(s: Chain, i: nat)
    requires i < |s.calls|
  {
    forall j :: 0 <= j < i && s.calls[j].key == s.calls[i].key ==> Over(s.calls[j])
  }

  // `p` is the last call before `i` for the same key.
  ghost predicate Precedes(s: Chain, p: nat, i: nat)
    requires i < |s.calls|
  {
    && p < i && s.calls[p].key == s.calls[i].key
    && forall j :: p < j < i ==> s.calls[j].key != s.calls[i].key
  }

  ghost predicate CallInv(s: Chain, i: nat)
    requires i < |s.calls|
  {
    var c := s.calls[i];
    && !c.phase.Refused? && !c.tail.Rejected?
    && (c.tail.Fulfilled? ==> Over(c))
    && (!c.phase.Waiting? || c.prev.None? ==> Clear(s, i))
    && (c.prev.Some? ==> Precedes(s, c.prev.value, i))
  }

  // An entry names the last call for its key; without one they are all over.
  ghost predicate EntryInv(kind: Kind, s: Chain, k: Key) {
    if k in s.tails then
      && s.tails[k] < |s.calls| && s.calls[s.tails[k]].key == k
      && (forall j :: s.tails[k] < j < |s.calls| ==> s.calls[j].key != k)
      && (kind.TaskLock? ==> !Over(s.calls[s.tails[k]]))
    else
      forall j :: 0 <= j < |s.calls| && s.calls[j].key == k ==> Over(s.calls[j])
  }

  ghost predicate Inv(kind: Kind, s: Chain) {
    && (forall i :: 0 <= i < |s.calls| ==> CallInv(s, i))
    && (forall k :: EntryInv(kind, s, k))
  }

  lemma EmptyInv(kind: Kind)
    ensures Inv(kind, EMPTY)
  {
  }

  // A call whose wait is over is next in line.
  lemma NextInLine(kind: Kind, s: Chain, i: nat)
    requires Inv(kind, s) && i < |s.calls| && PrevOf(s, i).Fulfilled?
    ensures Clear(s, i)
  {
    assert CallInv(s, i);
    if s.calls[i].prev.Some? {
      assert CallInv(s, s.calls[i].prev.value);
    }
  }

  lemma ArriveKeeps(kind: Kind, s: Chain, k: Key)
    requires Inv(kind, s)
    ensures Inv(kind, Step(kind, s, Arrive(k)))
  {
    var s' := Step(kind, s, Arrive(k));
    assert EntryInv(kind, s, k);
    forall i | 0 <= i < |s'.calls| ensures CallInv(s', i) {
      if i < |s.calls| {
        assert CallInv(s, i);
        assert Clear(s, i) ==> Clear(s', i);
      }
    }
    forall k' ensures EntryInv(kind, s', k') { assert EntryInv(kind, s, k'); }
  }

  // A call moves on once everyone before it for its key is over, or its tail settles.
  lemma CallKeeps(kind: Kind, s: Chain, i: nat, c: Call)
    requires Inv(kind, s) && i < |s.calls| && Clear(s, i)
    requires c.key == s.calls[i].key && c.prev == s.calls[i].prev && (Over(s.calls[i]) ==> Over(c))
    requires !c.phase.Refused? && !c.tail.Rejected? && (c.tail.Fulfilled? ==> Over(c))
    ensures forall j :: 0 <= j < |s.calls| ==> CallInv(Update(s, i, c), j)
  {
    var s' := Update(s, i, c);
    forall j | 0 <= j < |s'.calls| ensures CallInv(s', j) {
      assert CallInv(s, j);
      assert Clear(s, j) ==> Clear(s', j);
    }
  }

  lemma EntryKeeps(kind: Kind, s: Chain, i: nat, c: Call)
    requires Inv(kind, s) && i < |s.calls| && c.key == s.calls[i].key && (Over(s.calls[i]) ==> Over(c))
    requires kind.TaskLock? && Over(c) && !Over(s.calls[i]) ==> !(c.key in s.tails && s.tails[c.key] == i)
    ensures forall k :: EntryInv(kind, Update(s, i, c), k)
  {
    var s' := Update(s, i, c);
    forall k ensures EntryInv(kind, s', k) { assert EntryInv(kind, s, k); }
  }

  // The entry may go when its call is over.
  lemma DropKeeps(kind: Kind, s: Chain, i: nat)
    requires i < |s.calls| && Over(s.calls[i])
    requires forall j :: 0 <= j < |s.calls| ==> CallInv(s, j)
    requires forall k :: EntryInv(RepoLock, s, k)
    requires kind.TaskLock? ==>
               forall k :: k != s.calls[i].key || k !in s.tails || s.tails[k] != i ==> EntryInv(kind, s, k)
    ensures Inv(kind, DropEntry(s, i))
  {
    var s' := DropEntry(s, i);
    forall j | 0 <= j < |s'.calls| ensures CallInv(s', j) {
      assert CallInv(s, j);
      assert Clear(s, j) ==> Clear(s', j);
    }
    forall k ensures EntryInv(kind, s', k) {
      assert EntryInv(RepoLock, s, k);
      assert kind.TaskLock? && (k != s.calls[i].key || k !in s.tails || s.tails[k] != i) ==> EntryInv(kind, s, k);
      assert CallInv(s, i);
    }
  }

  lemma StepKeeps(kind: Kind, s: Chain, e: Event)
    requires Inv(kind, s)
    ensures Inv(kind, Step(kind, s, e))
  {
    match e
    case Arrive(k) => ArriveKeeps(kind, s, k);
    case Enter(i) =>
      if i < |s.calls| && s.calls[i].phase.Waiting? && PrevOf(s, i).Fulfilled? {
        assert CallInv(s, i);
        NextInLine(kind, s, i);
        CallKeeps(kind, s, i, s.calls[i].(phase := Inside));
        EntryKeeps(kind, s, i, s.calls[i].(phase := Inside));
      }
      NoneRejected(kind, s, i);
    case Leave(i, ok) =>
      if i < |s.calls| && s.calls[i].phase.Inside? { LeaveKeeps(kind, s, i, ok); }
    case Settle(i) =>
      NoneRejected(kind, s, i);
      if i < |s.calls| && s.calls[i].tail.Pending? && s.calls[i].phase.Left? {
        assert CallInv(s, i);
        CallKeeps(kind, s, i, s.calls[i].(tail := Fulfilled));
        EntryKeeps(kind, s, i, s.calls[i].(tail := Fulfilled));
      }
    case Forget(i) =>
      if kind.RepoLock? && i < |s.calls| && s.calls[i].tail.Fulfilled? {
        assert CallInv(s, i);
        DropKeeps(kind, s, i);
      }
  }

  // No wait ever throws.
  lemma NoneRejected(kind: Kind, s: Chain, i: nat)
    requires Inv(kind, s)
    ensures i < |s.calls| ==> !PrevOf(s, i).Rejected?
  {
    if i < |s.calls| {
      assert CallInv(s, i);
      if s.calls[i].prev.Some? { assert CallInv(s, s.calls[i].prev.value); }
    }
  }

  lemma LeaveKeeps(kind: Kind, s: Chain, i: nat, ok: bool)
    requires Inv(kind, s) && i < |s.calls| && s.calls[i].phase.Inside?
    ensures Inv(kind, Step(kind, s, Leave(i, ok)))
  {
    var c := s.calls[i].(phase := Left(ok));
    var s1 := Update(s, i, c);
    assert CallInv(s, i);
    CallKeeps(kind, s, i, c);
    if kind.TaskLock? {
      forall k ensures EntryInv(RepoLock, s1, k) { assert EntryInv(kind, s, k); }
      forall k | k != c.key || k !in s1.tails || s1.tails[k] != i ensures EntryInv(kind, s1, k) {
        assert EntryInv(kind, s, k);
      }
      DropKeeps(kind, s1, i);
    } else {
      EntryKeeps(kind, s, i, c);
    }
  }

  lemma {:induction false} RunKeeps(kind: Kind, s: Chain, es: seq<Event>)
    requires Inv(kind, s)
    ensures Inv(kind, Run(kind, s, es))
    decreases |es|
  {
    if es != [] {
      StepKeeps(kind, s, es[0]);
      RunKeeps(kind, Step(kind, s, es[0]), es[1..]);
    }
  }

  // ---------- the first-in first-out lock both refine ----------

  // Holder and waiters of a key, in arrival order.
  function Line(calls: seq<Call>, k: Key): seq<nat> {
    if calls == [] then []
    else
      var n := |calls| - 1;
      Line(calls[..n], k) + if calls[n].key == k && !Over(calls[n]) then [n] else []
  }

  lemma {:induction false} LineContent(calls: seq<Call>, k: Key)
    ensures forall a :: 0 <= a < |Line(calls, k)| ==>
              Line(calls, k)[a] < |calls| && calls[Line(calls, k)[a]].key == k && !Over(calls[Line(calls, k)[a]])
    ensures forall i :: 0 <= i < |calls| && calls[i].key == k && !Over(calls[i]) ==> i in Line(calls, k)
    ensures forall a, b :: 0 <= a < b < |Line(calls, k)| ==> Line(calls, k)[a] < Line(calls, k)[b]
    decreases |calls|
  {
    if calls != [] {
      var n := |calls| - 1;
      LineContent(calls[..n], k);
      var line, shorter := Line(calls, k), Line(calls[..n], k);
      forall i | 0 <= i < |calls| && calls[i].key == k && !Over(calls[i]) ensures i in line {
        if i < n { assert i in shorter; } else { assert line[|shorter|] == n; }
      }
    }
  }

  lemma {:induction false} LineSame(a: seq<Call>, b: seq<Call>, k: Key)
    requires |a| == |b|
    requires forall i :: 0 <= i < |a| ==> a[i].key == b[i].key && (a[i].key == k ==> Over(a[i]) == Over(b[i]))
    ensures Line(a, k) == Line(b, k)
    decreases |a|
  {
    if a != [] { LineSame(a[..|a| - 1], b[..|b| - 1], k); }
  }

  lemma FirstInLine(calls: seq<Call>, k: Key)
    ensures Line(calls, k) != [] ==>
              var h := Line(calls, k)[0];
              h < |calls| && calls[h].key == k && !Over(calls[h]) &&
              forall j :: 0 <= j < h && calls[j].key == k ==> Over(calls[j])
  {
    LineContent(calls, k);
    var line := Line(calls, k);
    if line != [] {
      assert Line(calls, k)[0] < |calls|;
      forall j | 0 <= j < line[0] && calls[j].key == k ensures Over(calls[j]) {
        assert !Over(calls[j]) ==> j in line;
      }
    }
  }

  // The head of the line leaves it.
  lemma {:induction false} LineLeave(a: seq<Call>, b: seq<Call>, k: Key, i: nat)
    requires |a| == |b| && i < |a| && forall j :: 0 <= j < |a| && j != i ==> a[j] == b[j]
    requires a[i].key == k == b[i].key && !Over(a[i]) && Over(b[i])
    requires forall j :: 0 <= j < i && a[j].key == k ==> Over(a[j])
    ensures Line(a, k) == [i] + Line(b, k)
    decreases |a|
  {
    var n := |a| - 1;
    if i < n {
      LineLeave(a[..n], b[..n], k, i);
    } else {
      LineSame(a[..n], b[..n], k);
      LineContent(a[..n], k);
      FirstInLine(a[..n], k);
    }
  }

  // What one step does to the line of key `k`: the newcomer goes to the end,
  // only the head enters, only the head leaves, and whether its section failed
  // makes no difference to anybody else.
  ghost predicate TicketStep(e: Event, k: Key, s: Chain, s': Chain) {
    var line, line' := Line(s.calls, k), Line(s'.calls, k);
    match e
    case Arrive(key) => line' == (if key == k then line + [|s.calls|] else line)
    case Enter(i) =>
      && line' == line
      && (s' != s && i < |s.calls| && s.calls[i].key == k ==>
            line != [] && line[0] == i && i < |s'.calls| && s'.calls[i].phase.Inside?)
    case Leave(i, ok) =>
      if s' != s && i < |s.calls| && s.calls[i].key == k
      then line == [i] + line' && i < |s'.calls| && s'.calls[i].phase == Left(ok)
      else line' == line
    case _ => line' == line
  }

  lemma EnterIsHead(kind: Kind, s: Chain, i: nat, k: Key)
    requires Inv(kind, s)
    ensures TicketStep(Enter(i), k, s, Step(kind, s, Enter(i)))
  {
    var s' := Step(kind, s, Enter(i));
    NoneRejected(kind, s, i);
    LineSame(s.calls, s'.calls, k);
    if s' != s && s.calls[i].key == k {
      NextInLine(kind, s, i);
      LineContent(s.calls, k);
      assert i in Line(s.calls, k);
      FirstInLine(s.calls, k);
    }
  }

  lemma LeaveIsHead(kind: Kind, s: Chain, i: nat, ok: bool, k: Key)
    requires Inv(kind, s)
    ensures TicketStep(Leave(i, ok), k, s, Step(kind, s, Leave(i, ok)))
  {
    var s' := Step(kind, s, Leave(i, ok));
    if i < |s.calls| && s.calls[i].phase.Inside? && s.calls[i].key == k {
      assert CallInv(s, i);
      LineLeave(s.calls, s'.calls, k, i);
    } else {
      LineSame(s.calls, s'.calls, k);
    }
  }

  lemma RefinesTicketLock(kind: Kind, s: Chain, e: Event, k: Key)
    requires Inv(kind, s)
    ensures TicketStep(e, k, s, Step(kind, s, e))
  {
    var s' := Step(kind, s, e);
    match e
    case Arrive(key) =>
      assert s'.calls[..|s.calls|] == s.calls;
    case Enter(i) => EnterIsHead(kind, s, i, k);
    case Leave(i, ok) => LeaveIsHead(kind, s, i, ok, k);
    case Settle(i) => LineSame(s.calls, s'.calls, k);
    case Forget(i) =>
  }

  // ---------- what callers rely on ----------

  lemma MutualExclusion(kind: Kind, es: seq<Event>, i: nat, j: nat)
    requires var s := Run(kind, EMPTY, es); i < |s.calls| && j < |s.calls|
    requires var s := Run(kind, EMPTY, es); s.calls[i].key == s.calls[j].key
    requires var s := Run(kind, EMPTY, es); s.calls[i].phase.Inside? && s.calls[j].phase.Inside?
    ensures i == j
  {
    EmptyInv(kind);
    RunKeeps(kind, EMPTY, es);
    var s := Run(kind, EMPTY, es);
    assert CallInv(s, i) && CallInv(s, j);
  }

  // isTaskLocked is true exactly when someone holds or waits for the lock.
  lemma LockedWhenSomeoneIsInLine(es: seq<Event>, k: Key)
    ensures var s := Run(TaskLock, EMPTY, es); k in s.tails <==> Line(s.calls, k) != []
  {
    EmptyInv(TaskLock);
    RunKeeps(TaskLock, EMPTY, es);
    var s := Run(TaskLock, EMPTY, es);
    LineContent(s.calls, k);
    FirstInLine(s.calls, k);
    assert EntryInv(TaskLock, s, k);
    if k in s.tails { assert s.tails[k] in Line(s.calls, k); }
  }

  // The repo lock's entry may outlive its last section for a moment, never the reverse.
  lemma EntryWhileInLine(es: seq<Event>, k: Key)
    requires Line(Run(RepoLock, EMPTY, es).calls, k) != []
    ensures k in Run(RepoLock, EMPTY, es).tails
  {
    EmptyInv(RepoLock);
    RunKeeps(RepoLock, EMPTY, es);
    var s := Run(RepoLock, EMPTY, es);
    FirstInLine(s.calls, k);
    assert EntryInv(RepoLock, s, k);
  }

  lemma ReactionsKeepLine(s: Chain, i: nat, k: Key)
    requires Line(s.calls, k) != []
    ensures Line(Step(RepoLock, Step(RepoLock, s, Settle(i)), Forget(i)).calls, k) != []
  {
    var s' := Step(RepoLock, Step(RepoLock, s, Settle(i)), Forget(i));
    FirstInLine(s.calls, k);
    LineContent(s'.calls, k);
    var h := Line(s.calls, k)[0];
    assert s'.calls[h].key == k && !Over(s'.calls[h]);
  }

  // The reactions that are due drop the entry exactly when nobody is in line, so
  // the table does not grow with the keys it has seen.
  lemma EntryGoesExactly(es: seq<Event>, k: Key)
    requires k in Run(RepoLock, EMPTY, es).tails
    ensures var s := Run(RepoLock, EMPTY, es);
            var i := s.tails[k];
            k !in Step(RepoLock, Step(RepoLock, s, Settle(i)), Forget(i)).tails <==> Line(s.calls, k) == []
  {
    var s := Run(RepoLock, EMPTY, es);
    var i := s.tails[k];
    EmptyInv(RepoLock);
    RunKeeps(RepoLock, EMPTY, es);
    assert EntryInv(RepoLock, s, k);
    assert CallInv(s, i);
    LineContent(s.calls, k);
    if Line(s.calls, k) != [] {
      RunAppend(RepoLock, EMPTY, es, Settle(i));
      RunAppend(RepoLock, EMPTY, es + [Settle(i)], Forget(i));
      ReactionsKeepLine(s, i, k);
      EntryWhileInLine(es + [Settle(i)] + [Forget(i)], k);
    }
  }

  // ---------- nobody is blocked by what has ended ----------

  lemma {:induction false} RunAppend(kind: Kind, s: Chain, a: seq<Event>, e: Event)
    ensures Run(kind, s, a + [e]) == Step(kind, Run(kind, s, a), e)
    decreases |a|
  {
    if a == [] {
      assert a + [e] == [e];
      assert Run(kind, s, [e]) == Run(kind, Step(kind, s, e), [e][1..]);
    } else {
      assert (a + [e])[1..] == a[1..] + [e];
      RunAppend(kind, Step(kind, s, a[0]), a[1..], e);
    }
  }

  // Promise reactions change nothing but promises.
  predicate SamePhases(s: Chain, t: Chain) {
    |s.calls| == |t.calls| &&
    forall i :: 0 <= i < |s.calls| ==>
      s.calls[i].phase == t.calls[i].phase && s.calls[i].prev == t.calls[i].prev && s.calls[i].key == t.calls[i].key
  }

  // Once a call and everyone before it for its key are over, promise reactions
  // alone settle its tail, whether the sections succeeded or failed.
  lemma {:induction false} TailSettles(kind: Kind, s: Chain, j: nat) returns (es: seq<Event>)
    requires Inv(kind, s) && j < |s.calls| && Over(s.calls[j])
    ensures forall e :: e in es ==> e.Settle?
    ensures Inv(kind, Run(kind, s, es)) && SamePhases(s, Run(kind, s, es))
    ensures Run(kind, s, es).calls[j].tail.Fulfilled?
    decreases j
  {
    es := [];
    assert CallInv(s, j);
    if s.calls[j].tail.Pending? {
      if kind.TaskLock? && s.calls[j].prev.Some? {
        assert CallInv(s, j);
        es := TailSettles(kind, s, s.calls[j].prev.value);
      }
      var t := Run(kind, s, es);
      RunAppend(kind, s, es, Settle(j));
      StepKeeps(kind, t, Settle(j));
      es := es + [Settle(j)];
      assert CallInv(t, j);
    }
  }

  // Whoever is at the head of the line gets in by promise reactions alone: no
  // other call has to do anything, and no failure before it is felt.
  lemma HeadGetsIn(kind: Kind, s: Chain, k: Key) returns (es: seq<Event>)
    requires Inv(kind, s) && Line(s.calls, k) != [] && s.calls[Head(s, k)].phase.Waiting?
    ensures forall e :: e in es ==> e.Settle?
    ensures SamePhases(s, Run(kind, s, es))
    ensures Step(kind, Run(kind, s, es), Enter(Head(s, k))).calls[Head(s, k)].phase.Inside?
  {
    var i := Head(s, k);
    es := [];
    if s.calls[i].prev.Some? {
      var p := s.calls[i].prev.value;
      assert CallInv(s, i);
      FirstInLine(s.calls, k);
      es := TailSettles(kind, s, p);
    }
  }

  function Head(s: Chain, k: Key): (i: nat)
    requires Line(s.calls, k) != []
    ensures i < |s.calls| && s.calls[i].key == k && !Over(s.calls[i])
  {
    FirstInLine(s.calls, k);
    Line(s.calls, k)[0]
  }

  // ---------- the tables, changed in place ----------

  class LockTable {
    const kind: Kind
    var tails: map<Key, nat>
    var calls: seq<Call>

    ghost function Value(): Chain
      reads this
    {
      Chain(calls, tails)
    }

    ghost predicate Valid()
      reads this
    {
      Inv(kind, Value())
    }

    constructor (kind: Kind)
      ensures Valid() && this.kind == kind && Value() == EMPTY
    {
      this.kind := kind;
      tails, calls := map[], [];
    }

    // A call up to its wait.
    method Arrive(k: Key) returns (me: nat)
      requires Valid()
      modifies this
      ensures Valid() && Value() == Step(kind, old(Value()), Event.Arrive(k))
      ensures Line(calls, k) == old(Line(calls, k)) + [me]
      ensures forall k' :: k' != k ==> Line(calls, k') == old(Line(calls, k'))
    {
      ghost var s := Value();
      var prev := if k in tails then Some(tails[k]) else None;
      me := |calls|;
      calls := calls + [Call(k, prev, Waiting, Pending)];
      tails := tails[k := me];
      StepKeeps(kind, s, Event.Arrive(k));
      forall k' ensures TicketStep(Event.Arrive(k), k', s, Value()) { RefinesTicketLock(kind, s, Event.Arrive(k), k'); }
    }

    // The call's continuation after its wait.
    method Enter(me: nat)
      requires Valid() && me < |calls| && calls[me].phase.Waiting? && PrevOf(Value(), me).Fulfilled?
      modifies this`calls
      ensures Valid() && Value() == Step(kind, old(Value()), Event.Enter(me))
      ensures Line(calls, calls[me].key) == old(Line(calls, calls[me].key))
      ensures Line(calls, calls[me].key) != [] && Line(calls, calls[me].key)[0] == me
    {
      ghost var s := Value();
      calls := calls[me := calls[me].(phase := Inside)];
      StepKeeps(kind, s, Event.Enter(me));
      RefinesTicketLock(kind, s, Event.Enter(me), s.calls[me].key);
    }

    // The finally block of withTaskLock; the end of `run` in withRepoLock.
    method Leave(me: nat, ok: bool)
      requires Valid() && me < |calls| && calls[me].phase.Inside?
      modifies this
      ensures Valid() && Value() == Step(kind, old(Value()), Event.Leave(me, ok))
      ensures old(Line(calls, calls[me].key)) == [me] + Line(calls, old(calls[me].key))
    {
      ghost var s := Value();
      calls := calls[me := calls[me].(phase := Left(ok))];
      if kind.TaskLock? && calls[me].key in tails && tails[calls[me].key] == me {
        tails := tails - {calls[me].key};
      }
      StepKeeps(kind, s, Event.Leave(me, ok));
      RefinesTicketLock(kind, s, Event.Leave(me, ok), s.calls[me].key);
    }
  }
}
