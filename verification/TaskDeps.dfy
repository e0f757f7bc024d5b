// The dependency graph between tasks and the guard that keeps it free of
// cycles (setTaskDeps in lib/store.ts).
module TaskDeps {
  import opened Basics
  import opened Wrappers

  type Id = string
  type Edge = (Id, Id)    // (task_id, depends_on_id)

  datatype Task = Task(project: string, done: bool)

  datatype Failure = TaskNotFound | DependencyCycle

  // ---------- reachability ----------

  ghost predicate IsPath(edges: set<Edge>, p: seq<Id>) {
    p != [] && forall i :: 0 <= i < |p| - 1 ==> (p[i], p[i + 1]) in edges
  }

  ghost predicate Joins(edges: set<Edge>, p: seq<Id>, a: Id, b: Id) {
    IsPath(edges, p) && p[0] == a && p[|p| - 1] == b
  }

  // Following zero or more depends-on edges from `a` leads to `b`.
  ghost predicate Reaches(edges: set<Edge>, a: Id, b: Id) {
    exists p :: Joins(edges, p, a, b)
  }

  ghost predicate Acyclic(edges: set<Edge>) {
    forall a, x :: (a, x) in edges ==> !Reaches(edges, x, a)
  }

  lemma ReachesSelf(edges: set<Edge>, a: Id)
    ensures Reaches(edges, a, a)
  {
    assert Joins(edges, [a], a, a);
  }

  lemma ReachesNext(edges: set<Edge>, a: Id, b: Id, c: Id)
    requires Reaches(edges, a, b) && (b, c) in edges
    ensures Reaches(edges, a, c)
  {
    var p :| Joins(edges, p, a, b);
    assert Joins(edges, p + [c], a, c);
  }

  lemma SubgraphReaches(small: set<Edge>, big: set<Edge>, a: Id, b: Id)
    requires small <= big && Reaches(small, a, b)
    ensures Reaches(big, a, b)
  {
    var p :| Joins(small, p, a, b);
    assert Joins(big, p, a, b);
  }

  // Deleting tasks or edges closes no cycle.
  lemma SubgraphAcyclic(small: set<Edge>, big: set<Edge>)
    requires small <= big && Acyclic(big)
    ensures Acyclic(small)
  {
    forall a, x | (a, x) in small ensures !Reaches(small, x, a) {
      if Reaches(small, x, a) { SubgraphReaches(small, big, x, a); }
    }
  }

  // A set closed under edges is never left.
  lemma {:induction false} ClosedSet(edges: set<Edge>, seen: set<Id>, p: seq<Id>)
    requires IsPath(edges, p) && p[0] in seen
    requires forall a, b :: (a, b) in edges && a in seen ==> b in seen
    ensures p[|p| - 1] in seen
    decreases |p|
  {
    if |p| > 1 {
      assert (p[0], p[1]) in edges;
      var q := p[1..];
      assert forall i :: 0 <= i < |q| - 1 ==> (q[i], q[i + 1]) == (p[i + 1], p[i + 1 + 1]);
      ClosedSet(edges, seen, p[1..]);
    }
  }

  // ---------- replacing one task's edges ----------

  function Without(edges: set<Edge>, t: Id): set<Edge> {
    set e | e in edges && e.0 != t
  }

  function Replaced(edges: set<Edge>, t: Id, targets: set<Id>): set<Edge> {
    Without(edges, t) + set v | v in targets :: (t, v)
  }

  // A cycle the new edges close goes through the task itself.
  lemma CycleThroughTask(edges: set<Edge>, t: Id, targets: set<Id>)
    requires Acyclic(edges) && !Acyclic(Replaced(edges, t, targets))
    ensures exists v :: v in targets && Reaches(Replaced(edges, t, targets), v, t)
  {
    var es := Replaced(edges, t, targets);
    var a, x :| (a, x) in es && Reaches(es, x, a);
    var p :| Joins(es, p, x, a);
    if i :| 0 <= i < |p| && p[i] == t {
      if i == |p| - 1 {
        assert Reaches(es, x, t);
        assert x in targets;
      } else {
        var v := p[i + 1];
        assert (p[i], p[i + 1]) in es;
        var q := p[i + 1..] + p[..i + 1];
        assert |p[i + 1..]| > 0 && p[i + 1..][|p| - i - 2] == a;
        forall j | 0 <= j < |q| - 1 ensures (q[j], q[j + 1]) in es {
          var n := |p| - i - 1;
          if j < n - 1 { assert q[j] == p[i + 1 + j] && q[j + 1] == p[i + 2 + j]; }
          else if j == n - 1 { assert q[j] == a && q[j + 1] == x; }
          else { assert q[j] == p[j - n] && q[j + 1] == p[j - n + 1]; }
        }
        assert Joins(es, q, v, t);
        assert v in targets && Reaches(es, v, t);
      }
    } else {
      assert Joins(edges, p, x, a);
      assert false;
    }
  }

  lemma ReplacedAcyclic(edges: set<Edge>, t: Id, targets: set<Id>)
    requires Acyclic(edges)
    ensures Acyclic(Replaced(edges, t, targets)) <==>
            forall v :: v in targets ==> !Reaches(Replaced(edges, t, targets), v, t)
  {
    var es := Replaced(edges, t, targets);
    if !Acyclic(es) { CycleThroughTask(edges, t, targets); }
    else {
      forall v | v in targets ensures !Reaches(es, v, t) { assert (t, v) in es; }
    }
  }

  // The first time a path comes to `t` it has used none of t's own edges, so
  // whether a target reaches `t` does not depend on what replaces them.
  lemma {:induction false} ReachesWithout(edges: set<Edge>, t: Id, p: seq<Id>, a: Id)
    requires Joins(edges, p, a, t)
    ensures Reaches(Without(edges, t), a, t)
    decreases |p|
  {
    if a == t {
      ReachesSelf(Without(edges, t), t);
    } else {
      assert (p[0], p[1]) in edges;
      var q := p[1..];
      assert forall i :: 0 <= i < |q| - 1 ==> (q[i], q[i + 1]) == (p[i + 1], p[i + 1 + 1]);
      ReachesWithout(edges, t, q, q[0]);
      var r :| Joins(Without(edges, t), r, q[0], t);
      assert Joins(Without(edges, t), [a] + r, a, t);
    }
  }

  lemma ReachesRegardless(edges: set<Edge>, t: Id, targets: set<Id>, a: Id)
    ensures Reaches(Replaced(edges, t, targets), a, t) <==> Reaches(edges, a, t)
  {
    var es := Replaced(edges, t, targets);
    if Reaches(es, a, t) {
      var p :| Joins(es, p, a, t);
      ReachesWithout(es, t, p, a);
      SubgraphReaches(Without(es, t), edges, a, t);
    }
    if Reaches(edges, a, t) {
      var p :| Joins(edges, p, a, t);
      ReachesWithout(edges, t, p, a);
      SubgraphReaches(Without(edges, t), es, a, t);
    }
  }

  // ---------- the ids that survive the two filters ----------

  function Dedup(xs: seq<Id>): (r: seq<Id>)
    ensures forall x :: x in r <==> x in xs
    ensures forall i, j :: 0 <= i < j < |r| ==> r[i] != r[j]
  {
    if xs == [] then []
    else
      var n := |xs| - 1;
      var r := Dedup(xs[..n]);
      if xs[n] in r then r else r + [xs[n]]
  }

  // The first filter, and the second.
  predicate Wanted(t: Id, id: Id) {
    id != "" && id != t
  }

  predicate InProject(tasks: map<Id, Task>, t: Id, id: Id) {
    id in tasks && t in tasks && tasks[id].project == tasks[t].project
  }

  predicate Keeps(tasks: map<Id, Task>, t: Id, id: Id) {
    Wanted(t, id) && InProject(tasks, t, id)
  }

  function Filter(tasks: map<Id, Task>, t: Id, xs: seq<Id>): (r: seq<Id>)
    ensures forall x :: x in r <==> x in xs && Keeps(tasks, t, x)
    ensures (forall i, j :: 0 <= i < j < |xs| ==> xs[i] != xs[j]) ==> forall i, j :: 0 <= i < j < |r| ==> r[i] != r[j]
  {
    if xs == [] then []
    else
      var n := |xs| - 1;
      var r := Filter(tasks, t, xs[..n]);
      if Keeps(tasks, t, xs[n]) then r + [xs[n]] else r
  }

  function Valid(tasks: map<Id, Task>, t: Id, dependsOn: seq<Id>): seq<Id> {
    Filter(tasks, t, Dedup(dependsOn))
  }

  // An id that a task can depend on: another task of its project.
  predicate Candidate(tasks: map<Id, Task>, t: Id, x: Id) {
    t in tasks && x != "" && x != t && x in tasks && tasks[x].project == tasks[t].project
  }

  // The task itself, unknown ids and ids of other projects might as well not be
  // given, and neither order nor repetition matters.
  lemma OthersMakeNoDifference(tasks: map<Id, Task>, t: Id, xs: seq<Id>, ys: seq<Id>)
    requires forall x :: Candidate(tasks, t, x) ==> (x in xs <==> x in ys)
    ensures ToSet(Valid(tasks, t, xs)) == ToSet(Valid(tasks, t, ys))
    ensures forall x :: x in Valid(tasks, t, xs) <==> x in xs && Candidate(tasks, t, x)
  {
  }

  // Exactly when the guard refuses, in the graph as it was.
  lemma RefusedExactly(edges: set<Edge>, tasks: map<Id, Task>, t: Id, dependsOn: seq<Id>)
    requires Acyclic(edges)
    ensures !Acyclic(Replaced(edges, t, ToSet(Valid(tasks, t, dependsOn)))) <==>
            exists x :: x in dependsOn && Candidate(tasks, t, x) && Reaches(edges, x, t)
  {
    var targets := ToSet(Valid(tasks, t, dependsOn));
    ReplacedAcyclic(edges, t, targets);
    forall x ensures Reaches(Replaced(edges, t, targets), x, t) <==> Reaches(edges, x, t) {
      ReachesRegardless(edges, t, targets, x);
    }
    OthersMakeNoDifference(tasks, t, dependsOn, dependsOn);
  }

  function EdgesOf(rows: seq<Edge>): set<Edge> {
    set e | e in rows
  }

  function ToSet(xs: seq<Id>): set<Id> {
    set x | x in xs
  }

  ghost predicate ReachedFrom(edges: set<Edge>, starts: seq<Id>, n: Id) {
    exists v :: v in starts && Reaches(edges, v, n)
  }

  // Every starting point, and every way out of `seen`, is seen or on the stack.
  ghost predicate Explored(edges: set<Edge>, starts: seq<Id>, seen: set<Id>, stack: seq<Id>) {
    && (forall v :: v in starts ==> v in seen || v in stack)
    && (forall a, b :: (a, b) in edges && a in seen ==> b in seen || b in stack)
  }

  ghost predicate Frontier(edges: set<Edge>, starts: seq<Id>, universe: set<Id>, stack: seq<Id>) {
    forall n :: n in stack ==> n in universe && ReachedFrom(edges, starts, n)
  }

  lemma SplitLast(stack: seq<Id>)
    requires stack != []
    ensures stack == stack[..|stack| - 1] + [stack[|stack| - 1]]
  {
  }

  lemma Expand(
    edges: set<Edge>, starts: seq<Id>, seen: set<Id>, stack: seq<Id>, cur: Id, next: seq<Id>, universe: set<Id>)
    requires Explored(edges, starts, seen, stack + [cur]) && Frontier(edges, starts, universe, stack + [cur])
    requires forall n :: n in next <==> (cur, n) in edges
    requires forall e :: e in edges ==> e.1 in universe
    ensures Explored(edges, starts, seen + {cur}, stack + next) && Frontier(edges, starts, universe, stack + next)
    ensures cur in universe && ReachedFrom(edges, starts, cur)
  {
    assert cur in stack + [cur];
    forall n | n in next ensures n in universe && ReachedFrom(edges, starts, n) {
      assert (cur, n) in edges;
      var v :| v in starts && Reaches(edges, v, cur);
      ReachesNext(edges, v, cur, n);
    }
    assert forall n :: n in stack ==> n in stack + [cur];
  }

  lemma Skip(edges: set<Edge>, starts: seq<Id>, seen: set<Id>, stack: seq<Id>, cur: Id, universe: set<Id>)
    requires Explored(edges, starts, seen, stack + [cur]) && Frontier(edges, starts, universe, stack + [cur])
    requires cur in seen
    ensures Explored(edges, starts, seen, stack) && Frontier(edges, starts, universe, stack)
  {
    assert forall n :: n in stack ==> n in stack + [cur];
  }

  // Nothing left to explore: the target was never going to be reached.
  lemma Exhausted(edges: set<Edge>, starts: seq<Id>, seen: set<Id>, t: Id)
    requires Explored(edges, starts, seen, []) && t !in seen
    ensures !ReachedFrom(edges, starts, t)
  {
    forall v | v in starts ensures !Reaches(edges, v, t) {
      if Reaches(edges, v, t) {
        var p :| Joins(edges, p, v, t);
        ClosedSet(edges, seen, p);
      }
    }
  }

  // The adjacency lists hold exactly the edges.
  ghost predicate Lists(adj: map<Id, seq<Id>>, edges: set<Edge>) {
    forall a, b :: (a, b) in edges <==> a in adj && b in adj[a]
  }

  // ---------- the store ----------

  class DependencyStore {
    var tasks: map<Id, Task>
    var rows: seq<Edge>

    function Edges(): set<Edge>
      reads this
    {
      EdgesOf(rows)
    }

    ghost predicate Inv()
      reads this
    {
      && Acyclic(Edges())
      && (forall i, j :: 0 <= i < j < |rows| ==> rows[i] != rows[j])
      && (forall e :: e in rows ==> e.0 in tasks && e.1 in tasks && tasks[e.0].project == tasks[e.1].project)
    }

    constructor ()
      ensures Inv() && rows == [] && tasks == map[]
    {
      tasks, rows := map[], [];
    }

    // Build the would-be graph as adjacency lists.
    method BuildAdjacency(t: Id, valid: seq<Id>) returns (adj: map<Id, seq<Id>>)
      ensures Lists(adj, Replaced(Edges(), t, ToSet(valid)))
    {
      adj := map[];
      for i := 0 to |rows|
        invariant t !in adj
        invariant forall a, b :: (a in adj && b in adj[a]) <==> (a != t && (a, b) in rows[..i])
      {
        var e := rows[i];
        assert rows[..i + 1] == rows[..i] + [e];
        if e.0 != t {
          if e.0 in adj {
            adj := adj[e.0 := adj[e.0] + [e.1]];
          } else {
            adj := adj[e.0 := [e.1]];
          }
        }
      }
      assert rows[..|rows|] == rows;
      adj := adj[t := valid];
    }

    // Depth-first search with an explicit stack: can `t` be reached from `valid`?
    method CanReach(t: Id, valid: seq<Id>, adj: map<Id, seq<Id>>, ghost edges: set<Edge>) returns (found: bool)
      requires Lists(adj, edges)
      ensures found <==> ReachedFrom(edges, valid, t)
    {
      var seen: set<Id> := {};
      var stack := valid;
      ghost var universe := ToSet(valid) + set e | e in edges :: e.1;
      forall v | v in valid ensures Reaches(edges, v, v) { ReachesSelf(edges, v); }
      while stack != []
        invariant seen <= universe && t !in seen
        invariant Frontier(edges, valid, universe, stack)
        invariant Explored(edges, valid, seen, stack)
        decreases universe - seen, |stack|
      {
        var cur := stack[|stack| - 1];
        SplitLast(stack);
        stack := stack[..|stack| - 1];
        if cur == t {
          assert cur in stack + [cur];
          return true;
        }
        if cur in seen {
          Skip(edges, valid, seen, stack, cur, universe);
        } else {
          var next := if cur in adj then adj[cur] else [];
          Expand(edges, valid, seen, stack, cur, next, universe);
          assert cur in universe - seen;
          seen := seen + {cur};
          stack := stack + next;
        }
      }
      Exhausted(edges, valid, seen, t);
      found := false;
    }

    // Refuses exactly when an id that is to be depended on reaches the task
    // already, and then changes nothing; otherwise the task depends on precisely
    // the other tasks of its project among the ids given.
    method SetTaskDeps(t: Id, dependsOn: seq<Id>) returns (r: Result<(), Failure>)
      requires Inv()
      modifies this`rows
      ensures Inv()
      ensures r == Err(TaskNotFound) <==> t !in tasks
      ensures r == Err(DependencyCycle) <==>
              t in tasks && exists x ::
                && x in dependsOn && x != "" && x != t && x in tasks && tasks[x].project == tasks[t].project
                && Reaches(old(Edges()), x, t)
      ensures r.Err? ==> rows == old(rows)
      ensures r.Ok? ==> forall x ::
                (t, x) in Edges() <==>
                x in dependsOn && x != "" && x != t && x in tasks && tasks[x].project == tasks[t].project
      ensures r.Ok? ==> forall a, x :: a != t ==> ((a, x) in Edges() <==> (a, x) in old(Edges()))
      ensures r.Ok? ==> Edges() == Replaced(old(Edges()), t, ToSet(Valid(tasks, t, dependsOn)))
    {
      if t !in tasks { return Err(TaskNotFound); }
      var valid := Valid(tasks, t, dependsOn);
      var adj := BuildAdjacency(t, valid);
      ReplacedAcyclic(Edges(), t, ToSet(valid));
      var cycle := CanReach(t, valid, adj, Replaced(Edges(), t, ToSet(valid)));
      forall x ensures Reaches(Replaced(Edges(), t, ToSet(valid)), x, t) <==> Reaches(Edges(), x, t) {
        ReachesRegardless(Edges(), t, ToSet(valid), x);
      }
      if cycle { return Err(DependencyCycle); }
      DeleteRows(t);
      InsertRows(t, valid);
      assert Edges() == Replaced(old(Edges()), t, ToSet(valid));
      r := Ok(());
    }

    method DeleteRows(t: Id)
      modifies this`rows
      ensures forall e :: e in rows <==> e in old(rows) && e.0 != t
      ensures Distinct(old(rows)) ==> Distinct(rows)
      ensures Edges() == Without(old(Edges()), t)
    {
      var kept: seq<Edge> := [];
      for i := 0 to |rows|
        invariant rows == old(rows)
        invariant forall e :: e in kept <==> e in rows[..i] && e.0 != t
        invariant Distinct(rows) ==> Distinct(kept)
      {
        assert rows[..i + 1] == rows[..i] + [rows[i]];
        if rows[i].0 != t {
          assert Distinct(rows) ==> rows[i] !in rows[..i];
          kept := kept + [rows[i]];
        }
      }
      assert rows[..|rows|] == rows;
      rows := kept;
    }

    method InsertRows(t: Id, valid: seq<Id>)
      requires forall i, j :: 0 <= i < j < |valid| ==> valid[i] != valid[j]
      requires Distinct(rows) && forall e :: e in rows ==> e.0 != t
      modifies this`rows
      ensures forall e :: e in rows <==> e in old(rows) || (e.0 == t && e.1 in valid)
      ensures Distinct(rows)
    {
      for i := 0 to |valid|
        invariant forall e :: e in rows <==> e in old(rows) || (e.0 == t && e.1 in valid[..i])
        invariant Distinct(rows)
      {
        assert valid[..i + 1] == valid[..i] + [valid[i]];
        rows := rows + [(t, valid[i])];
      }
      assert valid[..|valid|] == valid;
    }

    // Deleting a task takes its edges with it.
    method DeleteTask(t: Id)
      requires Inv()
      modifies this
      ensures Inv() && tasks == old(tasks) - {t}
      ensures Edges() == set e | e in old(Edges()) && e.0 != t && e.1 != t
    {
      var kept: seq<Edge> := [];
      for i := 0 to |rows|
        invariant rows == old(rows) && tasks == old(tasks)
        invariant forall e :: e in kept <==> e in rows[..i] && e.0 != t && e.1 != t
        invariant Distinct(kept)
      {
        assert rows[..i + 1] == rows[..i] + [rows[i]];
        if rows[i].0 != t && rows[i].1 != t {
          assert rows[i] !in rows[..i];
          kept := kept + [rows[i]];
        }
      }
      assert rows[..|rows|] == rows;
      SubgraphAcyclic(EdgesOf(kept), EdgesOf(rows));
      rows, tasks := kept, tasks - {t};
    }
  }

  predicate Distinct(rows: seq<Edge>) {
    forall i, j :: 0 <= i < j < |rows| ==> rows[i] != rows[j]
  }

  // ---------- what acyclicity buys ----------

  // Some member of any non-empty finite set depends on no other member.
  lemma {:induction false} SomeSource(edges: set<Edge>, s: set<Id>) returns (m: Id)
    requires Acyclic(edges) && s != {}
    ensures m in s && forall b :: (m, b) in edges ==> b !in s
    decreases |s|
  {
    var a :| a in s;
    if b :| (a, b) in edges && b in s {
      var beyond := set x | x in s && Reaches(edges, b, x);
      ReachesSelf(edges, b);
      assert b in beyond && a !in beyond;
      assert beyond < s;
      SmallerSet(beyond, s);
      m := SomeSource(edges, beyond);
      forall c | (m, c) in edges ensures c !in s {
        if c in s { ReachesNext(edges, b, m, c); }
      }
    } else {
      m := a;
    }
  }

  lemma SmallerSet<T>(a: set<T>, b: set<T>)
    requires a < b
    ensures |a| < |b|
  {
    var x :| x in b && x !in a;
    SubsetIsSmaller(a, b - {x});
  }

  // While any task is not done, some task that is not done waits only for tasks
  // that are.
  lemma SomethingIsReady(tasks: map<Id, Task>, edges: set<Edge>) returns (m: Id)
    requires Acyclic(edges) && exists t :: t in tasks && !tasks[t].done
    ensures m in tasks && !tasks[m].done
    ensures forall b :: (m, b) in edges && b in tasks ==> tasks[b].done
  {
    var open := set t | t in tasks && !tasks[t].done;
    var t :| t in tasks && !tasks[t].done;
    assert t in open;
    m := SomeSource(edges, open);
  }
}
