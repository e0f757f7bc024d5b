// Commits, ancestry and the state of a repository with one task worktree.
module GitDag {
  import opened Wrappers

  type Tree = nat
  type Branch = string

  // Commits are numbered as they are made, so parents have smaller numbers.
  datatype Commit = Commit(parents: seq<nat>, tree: Tree)

  type Dag = seq<Commit>

  ghost predicate WellFormed(d: Dag) {
    forall c, i :: 0 <= c < |d| && 0 <= i < |d[c].parents| ==> d[c].parents[i] < c
  }

  // `a` is `b` or one of its ancestors (git merge-base --is-ancestor).
  predicate Anc(d: Dag, a: nat, b: nat)
    decreases b
  {
    a == b || (b < |d| && exists i :: 0 <= i < |d[b].parents| && d[b].parents[i] < b && Anc(d, a, d[b].parents[i]))
  }

  predicate IsMerge(d: Dag, c: nat)
    requires c < |d|
  {
    |d[c].parents| >= 2
  }

  lemma {:induction false} AncTrans(d: Dag, a: nat, b: nat, c: nat)
    requires Anc(d, a, b) && Anc(d, b, c)
    ensures Anc(d, a, c)
    decreases c
  {
    if b != c {
      var i :| 0 <= i < |d[c].parents| && d[c].parents[i] < c && Anc(d, b, d[c].parents[i]);
      AncTrans(d, a, b, d[c].parents[i]);
    }
  }

  lemma AncParent(d: Dag, c: nat, i: nat)
    requires WellFormed(d) && c < |d| && i < |d[c].parents|
    ensures Anc(d, d[c].parents[i], c)
  {
    assert Anc(d, d[c].parents[i], d[c].parents[i]);
  }

  // History is not rewritten by new commits.
  lemma {:induction false} AncExtend(d: Dag, x: Commit, a: nat, b: nat)
    requires WellFormed(d) && b < |d|
    ensures Anc(d + [x], a, b) == Anc(d, a, b)
    decreases b
  {
    forall i | 0 <= i < |d[b].parents| ensures Anc(d + [x], a, d[b].parents[i]) == Anc(d, a, d[b].parents[i]) {
      AncExtend(d, x, a, d[b].parents[i]);
    }
    assert (d + [x])[b] == d[b];
  }

  // What a new commit has behind it.
  lemma AncNew(d: Dag, x: Commit, a: nat)
    requires WellFormed(d) && forall i :: 0 <= i < |x.parents| ==> x.parents[i] < |d|
    ensures Anc(d + [x], a, |d|) <==> a == |d| || exists i :: 0 <= i < |x.parents| && Anc(d, a, x.parents[i])
  {
    var d' := d + [x];
    assert d'[|d|] == x;
    forall i | 0 <= i < |x.parents| ensures Anc(d', a, x.parents[i]) == Anc(d, a, x.parents[i]) {
      AncExtend(d, x, a, x.parents[i]);
    }
  }

  // The result of a three-way merge of two tips: a tree, or conflicts.
  type Merge3 = (Dag, nat, nat) -> Option<Tree>

  datatype Repo = Repo(
    dag: Dag,
    refs: map<Branch, nat>,
    current: Branch,           // checked out in the main tree
    mainDirty: bool,
    mainMerge: Option<nat>,    // MERGE_HEAD of the main tree
    work: Branch,              // checked out in the task's worktree
    wtDirty: bool,
    wtMerge: Option<nat>,      // MERGE_HEAD of the worktree
    marker: Option<nat>)       // refs/worktree/orch-merge-abort

  ghost predicate Sound(r: Repo) {
    && WellFormed(r.dag)
    && (forall b :: b in r.refs ==> r.refs[b] < |r.dag|)
    && r.work in r.refs && r.current != r.work
    && (r.wtMerge.Some? ==> r.wtMerge.value < |r.dag|)
    && (r.marker.Some? ==> r.marker.value < |r.dag|)
  }

  function Tip(r: Repo, b: Branch): nat
    requires b in r.refs
  {
    r.refs[b]
  }

  // A new commit on branch `b`.
  function Advance(r: Repo, b: Branch, parents: seq<nat>, tree: Tree): Repo {
    r.(dag := r.dag + [Commit(parents, tree)], refs := r.refs[b := |r.dag|])
  }
}
