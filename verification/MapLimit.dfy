// mapLimit in lib/git.ts: a fixed number of workers share one counter, each
// awaiting one call at a time.  Code between two awaits is one step, so a run
// is decided by the order in which the awaited calls resolve.
module MapLimit {
  import opened Basics
  import opened Wrappers

  datatype Worker = Ready | Calling(index: nat) | Stopped

  datatype Claim = Claim(worker: nat, index: nat)

  // claims is the history of every `next++`, oldest first.
  datatype State<R> = State(next: nat, out: seq<Option<R>>, workers: seq<Worker>, claims: seq<Claim>)

  // ---------- the steps, as functions of the state ----------

  function Created<R>(size: nat, limit: nat): State<R> {
    State(0, seq(size, _ => None), seq(Min(limit, size), _ => Ready), [])
  }

  // One pass through the loop's test: claim the next index or stop.
  function Advanced<R>(s: State<R>, w: nat): State<R>
    requires w < |s.workers|
  {
    if s.next < |s.out| then
      s.(next := s.next + 1, workers := s.workers[w := Calling(s.next)], claims := s.claims + [Claim(w, s.next)])
    else
      s.(workers := s.workers[w := Stopped])
  }

  // The first n workers run to their first await.
  function Launched<R>(s: State<R>, n: nat): (r: State<R>)
    requires n <= |s.workers|
    ensures |r.workers| == |s.workers| && |r.out| == |s.out|
  {
    if n == 0 then s else Advanced(Launched(s, n - 1), n - 1)
  }

  function Started<R>(size: nat, limit: nat): State<R> {
    Launched(Created(size, limit), Min(limit, size))
  }

  // The call worker w awaits resolves.
  function Resumed<T, R>(s: State<R>, items: seq<T>, f: T -> R, w: nat): State<R>
    requires w < |s.workers| && s.workers[w].Calling?
    requires |s.out| == |items| && s.workers[w].index < |items|
  {
    var i := s.workers[w].index;
    Advanced(s.(out := s.out[i := Some(f(items[i]))]), w)
  }

  // ---------- the code ----------

  class Pool<T, R> {
    const items: seq<T>
    const f: T -> R
    const out: array<Option<R>>
    var next: nat
    var workers: seq<Worker>
    ghost var claims: seq<Claim>

    ghost predicate Valid()
      reads this, out
    {
      && out.Length == |items|
      && forall w :: 0 <= w < |workers| && workers[w].Calling? ==> workers[w].index < |items|
    }

    ghost function View(): State<R>
      reads this, out
    {
      State(next, out[..], workers, claims)
    }

    constructor (items: seq<T>, limit: nat, f: T -> R)
      ensures Valid() && fresh(out)
      ensures this.items == items && this.f == f
      ensures View() == Started<R>(|items|, limit)
    {
      this.items := items;
      this.f := f;
      out := new Option<R>[|items|](_ => None);
      next := 0;
      workers := seq(Min(limit, |items|), _ => Ready);
      claims := [];
      new;
      assert View() == Created<R>(|items|, limit);
      var w := 0;
      while w < |workers|
        invariant w <= |workers| == Min(limit, |items|)
        invariant Valid() && fresh(out)
        invariant View() == Launched(Created<R>(|items|, limit), w)
      {
        Advance(w);
        w := w + 1;
      }
    }

    method Advance(w: nat)
      requires Valid() && w < |workers|
      modifies this
      ensures Valid() && View() == Advanced(old(View()), w)
    {
      if next < |items| {
        var i := next;
        next := next + 1;
        claims := claims + [Claim(w, i)];
        workers := workers[w := Calling(i)];
      } else {
        workers := workers[w := Stopped];
      }
    }

    method Resume(w: nat)
      requires Valid() && w < |workers| && workers[w].Calling?
      modifies this, out
      ensures Valid() && View() == Resumed(old(View()), items, f, w)
    {
      var i := workers[w].index;
      out[i] := Some(f(items[i]));
      Advance(w);
    }
  }

  // ---------- every completion order ----------

  ghost predicate Busy<R>(s: State<R>, i: nat) {
    exists w :: 0 <= w < |s.workers| && s.workers[w] == Calling(i)
  }

  ghost predicate WorkerOk<R>(s: State<R>, w: nat)
    requires w < |s.workers|
  {
    match s.workers[w]
    case Ready => true
    case Calling(i) => i < s.next <= |s.out| && s.out[i] == None
    case Stopped => s.next == |s.out|
  }

  ghost predicate SlotOk<T, R>(s: State<R>, items: seq<T>, f: T -> R, i: nat)
    requires i < |s.out| == |items|
  {
    && (s.out[i] == None || s.out[i] == Some(f(items[i])))
    && (i < s.next && s.out[i] == None ==> Busy(s, i))
    && (i >= s.next ==> s.out[i] == None)
  }

  ghost predicate Inv<T, R>(s: State<R>, items: seq<T>, f: T -> R) {
    && |s.out| == |items|
    && s.next == |s.claims| <= |items|
    && (forall k :: 0 <= k < |s.claims| ==> s.claims[k].index == k)
    && (forall w :: 0 <= w < |s.workers| ==> WorkerOk(s, w))
    && (forall v, w :: 0 <= v < w < |s.workers| && s.workers[v].Calling? ==> s.workers[v] != s.workers[w])
    && (forall i :: 0 <= i < |items| ==> SlotOk(s, items, f, i))
  }

  lemma AdvanceKeeps<T, R>(s: State<R>, items: seq<T>, f: T -> R, w: nat)
    requires w < |s.workers|
    requires |s.out| == |items| && s.next == |s.claims| <= |items|
    requires forall k :: 0 <= k < |s.claims| ==> s.claims[k].index == k
    requires forall v :: 0 <= v < |s.workers| && v != w ==> WorkerOk(s, v)
    requires forall u, v :: 0 <= u < v < |s.workers| && u != w && v != w && s.workers[u].Calling?
                      ==> s.workers[u] != s.workers[v]
    requires forall i :: 0 <= i < |items| ==>
               && (s.out[i] == None || s.out[i] == Some(f(items[i])))
               && (i < s.next && s.out[i] == None ==>
                     exists v :: 0 <= v < |s.workers| && v != w && s.workers[v] == Calling(i))
               && (i >= s.next ==> s.out[i] == None)
    ensures Inv(Advanced(s, w), items, f)
  {
    var t := Advanced(s, w);
    forall v | 0 <= v < |t.workers| ensures WorkerOk(t, v) {
      if v != w { assert WorkerOk(s, v); }
    }
    forall u, v | 0 <= u < v < |t.workers| && t.workers[u].Calling? ensures t.workers[u] != t.workers[v] {
      if u == w { assert WorkerOk(s, v); }
      if v == w { assert WorkerOk(s, u); }
    }
    forall i | 0 <= i < |items| ensures SlotOk(t, items, f, i) {
      if i < s.next && s.out[i] == None {
        var v :| 0 <= v < |s.workers| && v != w && s.workers[v] == Calling(i);
        assert t.workers[v] == Calling(i);
      } else if i < t.next && t.out[i] == None {
        assert t.workers[w] == Calling(i);
      }
    }
  }

  lemma ResumeKeeps<T, R>(s: State<R>, items: seq<T>, f: T -> R, w: nat)
    requires Inv(s, items, f)
    requires w < |s.workers| && s.workers[w].Calling?
    ensures WorkerOk(s, w)
    ensures Inv(Resumed(s, items, f, w), items, f)
  {
    assert WorkerOk(s, w);
    var j := s.workers[w].index;
    var m := s.(out := s.out[j := Some(f(items[j]))]);
    forall v | 0 <= v < |m.workers| && v != w ensures WorkerOk(m, v) {
      assert WorkerOk(s, v);
      assert s.workers[v] != s.workers[w];
    }
    forall i | 0 <= i < |items|
      ensures (m.out[i] == None || m.out[i] == Some(f(items[i])))
      ensures (i < m.next && m.out[i] == None ==>
                 exists v :: 0 <= v < |m.workers| && v != w && m.workers[v] == Calling(i))
      ensures (i >= m.next ==> m.out[i] == None)
    {
      assert SlotOk(s, items, f, i);
    }
    AdvanceKeeps(m, items, f, w);
  }

  lemma {:induction false} LaunchKeeps<T, R>(items: seq<T>, f: T -> R, limit: nat, n: nat)
    requires n <= Min(limit, |items|)
    ensures Inv(Launched(Created<R>(|items|, limit), n), items, f)
    ensures forall w :: 0 <= w < Min(limit, |items|) ==>
              Launched(Created<R>(|items|, limit), n).workers[w] == if w < n then Calling(w) else Ready
    ensures Launched(Created<R>(|items|, limit), n).next == n
  {
    if n > 0 {
      LaunchKeeps(items, f, limit, n - 1);
      var s := Launched(Created<R>(|items|, limit), n - 1);
      forall i | 0 <= i < |items| && i < s.next && s.out[i] == None
        ensures exists v :: 0 <= v < |s.workers| && v != n - 1 && s.workers[v] == Calling(i)
      {
        assert SlotOk(s, items, f, i);
      }
      forall i | 0 <= i < |items| ensures s.out[i] == None || s.out[i] == Some(f(items[i])) {
        assert SlotOk(s, items, f, i);
      }
      forall i | 0 <= i < |items| && i >= s.next ensures s.out[i] == None {
        assert SlotOk(s, items, f, i);
      }
      AdvanceKeeps(s, items, f, n - 1);
    }
  }

  predicate CanResume<T, R>(s: State<R>, items: seq<T>, w: nat) {
    w < |s.workers| && s.workers[w].Calling? && |s.out| == |items| && s.workers[w].index < |items|
  }

  // The state after the calls resolved in the order of schedule, which names
  // the worker each time; None if some worker named was not awaiting a call.
  function After<T, R>(items: seq<T>, f: T -> R, limit: nat, schedule: seq<nat>): Option<State<R>>
    decreases |schedule|
  {
    if schedule == [] then Some(Started<R>(|items|, limit))
    else
      var w := schedule[|schedule| - 1];
      match After(items, f, limit, schedule[..|schedule| - 1])
      case None => None
      case Some(p) => if CanResume(p, items, w) then Some(Resumed(p, items, f, w)) else None
  }

  lemma {:induction false} ReachedInv<T, R>(items: seq<T>, f: T -> R, limit: nat, schedule: seq<nat>, s: State<R>)
    requires After(items, f, limit, schedule) == Some(s)
    ensures Inv(s, items, f)
    ensures |s.workers| == Min(limit, |items|)
    ensures forall w :: 0 <= w < |s.workers| ==> !s.workers[w].Ready?
    decreases |schedule|
  {
    if schedule == [] {
      LaunchKeeps(items, f, limit, Min(limit, |items|));
    } else {
      var w := schedule[|schedule| - 1];
      var p := After(items, f, limit, schedule[..|schedule| - 1]).value;
      ReachedInv(items, f, limit, schedule[..|schedule| - 1], p);
      ResumeKeeps(p, items, f, w);
    }
  }

  // Every index handed out so far was claimed once, by one worker, in order.
  lemma ClaimedOnce<T, R>(items: seq<T>, f: T -> R, limit: nat, schedule: seq<nat>, s: State<R>, i: nat)
    requires After(items, f, limit, schedule) == Some(s) && i < s.next
    ensures exists k :: 0 <= k < |s.claims| && s.claims[k].index == i
    ensures forall k, l ::
              0 <= k < |s.claims| && 0 <= l < |s.claims| && s.claims[k].index == s.claims[l].index ==> k == l
  {
    ReachedInv(items, f, limit, schedule, s);
    assert s.claims[i].index == i;
  }

  // ---------- calls in flight ----------

  function InFlight<R>(s: State<R>): set<nat> {
    set i: nat | i < s.next && i < |s.out| && s.out[i].None?
  }

  function CalledBy(ws: seq<Worker>): (r: set<nat>)
    ensures |r| <= |ws|
    ensures forall w :: 0 <= w < |ws| && ws[w].Calling? ==> ws[w].index in r
  {
    if ws == [] then {}
    else
      var rest := CalledBy(ws[1..]);
      var r := if ws[0].Calling? then rest + {ws[0].index} else rest;
      assert forall w :: 0 < w < |ws| ==> ws[w] == ws[1..][w - 1];
      r
  }

  lemma AtMostLimit<T, R>(items: seq<T>, f: T -> R, limit: nat, schedule: seq<nat>, s: State<R>)
    requires After(items, f, limit, schedule) == Some(s)
    ensures |InFlight(s)| <= limit
  {
    ReachedInv(items, f, limit, schedule, s);
    forall i | i in InFlight(s) ensures i in CalledBy(s.workers) {
      assert SlotOk(s, items, f, i);
    }
    SubsetIsSmaller(InFlight(s), CalledBy(s.workers));
  }

  // ---------- the result ----------

  predicate AllStopped<R>(s: State<R>) {
    forall w :: 0 <= w < |s.workers| ==> s.workers[w].Stopped?
  }

  ghost predicate Complete<T, R>(s: State<R>, items: seq<T>, f: T -> R) {
    |s.out| == |items| && forall i :: 0 <= i < |items| ==> s.out[i] == Some(f(items[i]))
  }

  // When every worker has stopped, out holds every result exactly when there
  // was a worker at all or nothing to do.
  lemma StoppedMeansComplete<T, R>(items: seq<T>, f: T -> R, limit: nat, schedule: seq<nat>, s: State<R>)
    requires After(items, f, limit, schedule) == Some(s) && AllStopped(s)
    ensures Complete(s, items, f) <==> limit >= 1 || items == []
  {
    ReachedInv(items, f, limit, schedule, s);
    if limit >= 1 && items != [] {
      assert WorkerOk(s, 0);
      forall i | 0 <= i < |items| ensures s.out[i] == Some(f(items[i])) {
        assert SlotOk(s, items, f, i);
      }
    } else if limit == 0 && items != [] {
      assert |s.workers| == 0;
      assert SlotOk(s, items, f, 0);
      NoWorkerNoClaim(items, f, schedule, s);
    }
  }

  lemma NoWorkerNoClaim<T, R>(items: seq<T>, f: T -> R, schedule: seq<nat>, s: State<R>)
    requires After(items, f, 0, schedule) == Some(s)
    ensures s.next == 0
  {
    if schedule != [] {
      var w := schedule[|schedule| - 1];
      var p := After(items, f, 0, schedule[..|schedule| - 1]).value;
      ReachedInv(items, f, 0, schedule[..|schedule| - 1], p);
    }
  }

  // A run never gets stuck and never runs on: each call that resolves is one
  // item finished, so the workers have all stopped after |items| of them.
  function Finished<R>(out: seq<Option<R>>): (n: nat)
    ensures n <= |out|
    ensures n == |out| <==> forall i :: 0 <= i < |out| ==> out[i].Some?
  {
    if out == [] then 0 else (if out[|out| - 1].Some? then 1 else 0) + Finished(out[..|out| - 1])
  }

  lemma {:induction false} FinishOne<R>(out: seq<Option<R>>, i: nat, r: R)
    requires i < |out| && out[i] == None
    ensures Finished(out[i := Some(r)]) == Finished(out) + 1
    decreases |out|
  {
    var n := |out| - 1;
    if i == n {
      assert out[i := Some(r)][..n] == out[..n];
    } else {
      assert out[i := Some(r)][..n] == out[..n][i := Some(r)];
      FinishOne(out[..n], i, r);
    }
  }

  lemma {:induction false} NoneFinished<R>(n: nat)
    ensures Finished<R>(seq(n, _ => None)) == 0
  {
    if n > 0 {
      assert seq<Option<R>>(n, _ => None)[..n - 1] == seq<Option<R>>(n - 1, _ => None);
      NoneFinished<R>(n - 1);
    }
  }

  lemma {:induction false} LaunchOut<R>(s: State<R>, n: nat)
    requires n <= |s.workers|
    ensures Launched(s, n).out == s.out
  {
    if n > 0 { LaunchOut(s, n - 1); }
  }

  lemma {:induction false} OneItemPerStep<T, R>(items: seq<T>, f: T -> R, limit: nat, schedule: seq<nat>, s: State<R>)
    requires After(items, f, limit, schedule) == Some(s)
    ensures Finished(s.out) == |schedule| <= |items|
    decreases |schedule|
  {
    ReachedInv(items, f, limit, schedule, s);
    if schedule == [] {
      LaunchOut(Created<R>(|items|, limit), Min(limit, |items|));
      NoneFinished<R>(|items|);
    } else {
      var w := schedule[|schedule| - 1];
      var p := After(items, f, limit, schedule[..|schedule| - 1]).value;
      OneItemPerStep(items, f, limit, schedule[..|schedule| - 1], p);
      ReachedInv(items, f, limit, schedule[..|schedule| - 1], p);
      assert WorkerOk(p, w);
      FinishOne(p.out, p.workers[w].index, f(items[p.workers[w].index]));
    }
  }

  lemma StopsAfterAllItems<T, R>(items: seq<T>, f: T -> R, limit: nat, schedule: seq<nat>, s: State<R>)
    requires After(items, f, limit, schedule) == Some(s) && limit >= 1
    ensures AllStopped(s) <==> |schedule| == |items|
  {
    ReachedInv(items, f, limit, schedule, s);
    OneItemPerStep(items, f, limit, schedule, s);
    if AllStopped(s) {
      StoppedMeansComplete(items, f, limit, schedule, s);
    }
    if |schedule| == |items| {
      forall w | 0 <= w < |s.workers| ensures s.workers[w].Stopped? {
        assert WorkerOk(s, w);
      }
    }
  }
}
