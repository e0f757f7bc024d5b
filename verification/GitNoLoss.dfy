// Committed work is never lost, whatever sequence of operations runs.
module GitNoLoss {
  import opened Wrappers
  import opened GitDag
  import opened GitMerge
  import opened GitLanding

  datatype Op =
    | OpPrepare(tree: Tree, failing: Failing)
    | OpAbort(failing: Failing)
    | OpComplete(tree: Tree, failing: Failing)
    | OpMergeTask(tree: Tree, failing: Failing)
    | OpFastForward(failing: Failing)
    | OpEdit                                         // somebody changes files in the worktree
    | OpCommit(tree: Tree)                           // ... and commits, concluding a merge if one is paused
    | OpBase(others: seq<nat>, tree: Tree)           // a commit or a merge lands on the base branch from elsewhere

  function Step(m: Merge3, base: Branch, r: Repo, op: Op): Repo
    requires r.work in r.refs && base in r.refs
  {
    match op
    case OpPrepare(tree, failing) => Prepare(m, r, base, tree, failing).0
    case OpAbort(failing) => Abort(r, failing)
    case OpComplete(tree, failing) => Complete(m, r, base, tree, failing).0
    case OpMergeTask(tree, failing) => MergeTask(m, r, base, tree, failing).0
    case OpFastForward(failing) => FastForward(r, base, failing).0
    case OpEdit => r.(wtDirty := true)
    case OpCommit(tree) => CommitOnWork(r, tree)
    case OpBase(others, tree) =>
      if forall i :: 0 <= i < |others| ==> others[i] < |r.dag|
      then Advance(r, base, [Tip(r, base)] + others, tree) else r
  }

  // ---------- two tips, `w` of the work branch and `b` of the base branch ----------

  // Commit `c` can be reached from one of them.
  predicate Safe(d: Dag, w: nat, b: nat, c: nat) {
    Anc(d, c, w) || Anc(d, c, b)
  }

  // All that a merge commit on the work branch adds, besides its first parent,
  // is on the base branch.
  ghost predicate MergesFrom(d: Dag, w: nat, b: nat) {
    forall c, i :: 0 <= c < |d| && 1 <= i < |d[c].parents| && Anc(d, c, w) ==> Anc(d, d[c].parents[i], b)
  }

  // Nothing leaves the base branch, and only merge commits can go out of reach.
  ghost predicate Keeps(d: Dag, w: nat, b: nat, d': Dag, w': nat, b': nat) {
    && d <= d'
    && (forall c :: 0 <= c < |d| && Anc(d, c, b) ==> Anc(d', c, b'))
    && (forall c :: 0 <= c < |d| && !IsMerge(d, c) && Safe(d, w, b, c) ==> Safe(d', w', b', c))
  }

  lemma ExtendAll(d: Dag, x: Commit)
    requires WellFormed(d)
    ensures forall a, b :: 0 <= b < |d| ==> Anc(d + [x], a, b) == Anc(d, a, b)
  {
    forall a: nat, b | 0 <= b < |d| ensures Anc(d + [x], a, b) == Anc(d, a, b) { AncExtend(d, x, a, b); }
  }

  lemma NewAll(d: Dag, x: Commit)
    requires WellFormed(d) && forall i :: 0 <= i < |x.parents| ==> x.parents[i] < |d|
    ensures forall a: nat ::
              Anc(d + [x], a, |d|) <==> a == |d| || exists i :: 0 <= i < |x.parents| && Anc(d, a, x.parents[i])
  {
    forall a: nat
      ensures Anc(d + [x], a, |d|) <==> a == |d| || exists i :: 0 <= i < |x.parents| && Anc(d, a, x.parents[i])
    {
      AncNew(d, x, a);
    }
  }

  lemma DanglingKeeps(d: Dag, w: nat, b: nat, x: Commit)
    requires WellFormed(d) && w < |d| && b < |d| && MergesFrom(d, w, b)
    requires forall i :: 0 <= i < |x.parents| ==> x.parents[i] < |d|
    ensures MergesFrom(d + [x], w, b) && Keeps(d, w, b, d + [x], w, b)
  {
    ExtendAll(d, x);
    var d' := d + [x];
    assert forall c :: 0 <= c < |d| ==> d'[c] == d[c];
    BeyondTip(d', |d|, w);
  }

  lemma {:induction false} BeyondTip(d: Dag, a: nat, b: nat)
    requires b < a
    ensures !Anc(d, a, b)
    decreases b
  {
    if b < |d| {
      forall i | 0 <= i < |d[b].parents| && d[b].parents[i] < b ensures !Anc(d, a, d[b].parents[i]) {
        BeyondTip(d, a, d[b].parents[i]);
      }
    }
  }

  // A commit on the work branch; a second parent must come from the base branch.
  lemma CommitKeeps(d: Dag, w: nat, b: nat, x: Commit)
    requires WellFormed(d) && w < |d| && b < |d| && MergesFrom(d, w, b)
    requires 1 <= |x.parents| && x.parents[0] == w
    requires forall i :: 1 <= i < |x.parents| ==> x.parents[i] < |d| && Anc(d, x.parents[i], b)
    ensures MergesFrom(d + [x], |d|, b) && Keeps(d, w, b, d + [x], |d|, b)
  {
    ExtendAll(d, x);
    NewAll(d, x);
    var d' := d + [x];
    assert forall c :: 0 <= c < |d| ==> d'[c] == d[c];
    forall c, i | 0 <= c < |d'| && 1 <= i < |d'[c].parents| && Anc(d', c, |d|) ensures Anc(d', d'[c].parents[i], b) {
      if c < |d| && !Anc(d, c, w) {
        var j :| 0 <= j < |x.parents| && Anc(d, c, x.parents[j]);
        AncTrans(d, c, x.parents[j], b);
        AncParent(d, c, i);
        AncTrans(d, d[c].parents[i], c, b);
      }
    }
    assert forall c :: 0 <= c < |d| && Anc(d, c, w) ==> Anc(d', c, |d|) by { assert x.parents[0] == w; }
  }

  // The base branch moves on.
  lemma BaseKeeps(d: Dag, w: nat, b: nat, x: Commit)
    requires WellFormed(d) && w < |d| && b < |d| && MergesFrom(d, w, b)
    requires 1 <= |x.parents| && x.parents[0] == b && forall i :: 0 <= i < |x.parents| ==> x.parents[i] < |d|
    ensures MergesFrom(d + [x], w, |d|) && Keeps(d, w, b, d + [x], w, |d|)
  {
    ExtendAll(d, x);
    NewAll(d, x);
    var d' := d + [x];
    assert forall c :: 0 <= c < |d| ==> d'[c] == d[c];
    assert forall c: nat :: Anc(d, c, b) ==> Anc(d', c, |d|) by { assert x.parents[0] == b; }
    BeyondTip(d', |d|, w);
  }

  // The work branch catches up with the base branch.
  lemma CatchUpKeeps(d: Dag, w: nat, b: nat)
    requires WellFormed(d) && w < |d| && b < |d| && Anc(d, w, b)
    ensures MergesFrom(d, b, b) && Keeps(d, w, b, d, b, b)
  {
    forall c, i | 0 <= c < |d| && 1 <= i < |d[c].parents| && Anc(d, c, b) ensures Anc(d, d[c].parents[i], b) {
      AncParent(d, c, i);
      AncTrans(d, d[c].parents[i], c, b);
    }
    forall c | 0 <= c < |d| && Anc(d, c, w) ensures Anc(d, c, b) { AncTrans(d, c, w, b); }
  }

  // The work branch goes back to the first parent of the merge at its tip: that
  // merge is all that can go out of reach.
  lemma ResetKeeps(d: Dag, w: nat, b: nat)
    requires WellFormed(d) && w < |d| && b < |d| && MergesFrom(d, w, b) && IsMerge(d, w)
    ensures var k := d[w].parents[0];
            MergesFrom(d, k, b) && Keeps(d, w, b, d, k, b) &&
            forall c :: 0 <= c < |d| && Safe(d, w, b, c) && !Safe(d, k, b, c) ==> c == w
  {
    var k := d[w].parents[0];
    AncParent(d, w, 0);
    assert Anc(d, w, w);
    forall c | 0 <= c < |d| && Anc(d, c, k) ensures Anc(d, c, w) { AncTrans(d, c, k, w); }
    forall c | 0 <= c < |d| && Anc(d, c, w) && c != w ensures Safe(d, k, b, c) {
      var i :| 0 <= i < |d[w].parents| && d[w].parents[i] < w && Anc(d, c, d[w].parents[i]);
      if i >= 1 { AncTrans(d, c, d[w].parents[i], b); }
    }
  }

  // ---------- the repository ----------

  ghost predicate Inv(base: Branch, r: Repo) {
    && Sound(r) && base in r.refs && base != r.work
    && (r.wtMerge.Some? ==> Anc(r.dag, r.wtMerge.value, Tip(r, base)))
    && MergesFrom(r.dag, Tip(r, r.work), Tip(r, base))
  }

  ghost predicate Good(base: Branch, r: Repo, r': Repo) {
    && Inv(base, r) && Inv(base, r') && r'.work == r.work
    && Keeps(r.dag, Tip(r, r.work), Tip(r, base), r'.dag, Tip(r', r'.work), Tip(r', base))
  }

  lemma GoodTrans(base: Branch, a: Repo, b: Repo, c: Repo)
    requires Good(base, a, b) && Good(base, b, c)
    ensures Good(base, a, c)
  {
    assert forall x :: 0 <= x < |a.dag| ==> b.dag[x] == a.dag[x];
  }

  // Flags and the marker hold no commits of their own.
  lemma FlagsGood(base: Branch, r: Repo, r': Repo)
    requires Inv(base, r) && Sound(r') && r'.dag == r.dag && r'.refs == r.refs && r'.work == r.work
    requires r'.wtMerge.None? || r'.wtMerge == r.wtMerge || r'.wtMerge == Some(Tip(r, base))
    ensures Good(base, r, r')
  {
    assert Anc(r.dag, Tip(r, base), Tip(r, base));
  }

  lemma CommitOnWorkGood(base: Branch, r: Repo, tree: Tree)
    requires Inv(base, r)
    ensures Good(base, r, CommitOnWork(r, tree))
  {
    var x := Commit(if r.wtMerge.Some? then [Tip(r, r.work), r.wtMerge.value] else [Tip(r, r.work)], tree);
    CommitKeeps(r.dag, Tip(r, r.work), Tip(r, base), x);
  }

  lemma CommitWorktreeGood(base: Branch, r: Repo, tree: Tree, failing: Failing)
    requires Inv(base, r)
    ensures Good(base, r, CommitWorktree(r, tree, failing).0)
  {
    CommitOnWorkGood(base, r, tree);
    FlagsGood(base, r, r);
  }

  // Merging the base branch into the work branch.
  lemma MergeBaseGood(base: Branch, r: Repo, tree: Tree)
    requires Inv(base, r)
    ensures Good(base, r, Advance(r, r.work, [Tip(r, r.work), Tip(r, base)], tree))
  {
    assert Anc(r.dag, Tip(r, base), Tip(r, base));
    var x := Commit([Tip(r, r.work), Tip(r, base)], tree);
    CommitKeeps(r.dag, Tip(r, r.work), Tip(r, base), x);
    if r.wtMerge.Some? { AncExtend(r.dag, x, r.wtMerge.value, Tip(r, base)); }
  }

  // Merging anything into the base branch.
  lemma AdvanceBaseGood(base: Branch, r: Repo, parents: seq<nat>, tree: Tree)
    requires Inv(base, r) && parents != [] && parents[0] == Tip(r, base)
    requires forall i :: 0 <= i < |parents| ==> parents[i] < |r.dag|
    ensures Good(base, r, Advance(r, base, parents, tree))
  {
    var x := Commit(parents, tree);
    BaseKeeps(r.dag, Tip(r, r.work), Tip(r, base), x);
  }

  lemma DanglingGood(base: Branch, r: Repo, x: Commit)
    requires Inv(base, r) && forall i :: 0 <= i < |x.parents| ==> x.parents[i] < |r.dag|
    ensures Good(base, r, r.(dag := r.dag + [x]))
  {
    DanglingKeeps(r.dag, Tip(r, r.work), Tip(r, base), x);
    if r.wtMerge.Some? { AncExtend(r.dag, x, r.wtMerge.value, Tip(r, base)); }
  }

  // ---------- the operations ----------

  lemma MergeIntoGood(m: Merge3, base: Branch, r: Repo)
    requires Inv(base, r)
    ensures Good(base, r, MergeInto(m, r, base).0)
  {
    FlagsGood(base, r, r);
    var merged := m(r.dag, Tip(r, base), Tip(r, r.work));
    if merged.Some? { AdvanceBaseGood(base, r, [Tip(r, base), Tip(r, r.work)], merged.value); }
  }

  lemma ViaTreeGood(m: Merge3, base: Branch, r: Repo, failing: Failing)
    requires Inv(base, r)
    ensures Good(base, r, ViaTree(m, r, base, failing).0)
  {
    FlagsGood(base, r, r);
    var merged := m(r.dag, Tip(r, base), Tip(r, r.work));
    if merged.Some? {
      AdvanceBaseGood(base, r, [Tip(r, base), Tip(r, r.work)], merged.value);
      DanglingGood(base, r, Commit([Tip(r, base), Tip(r, r.work)], merged.value));
    }
  }

  lemma IntoTargetWorktreeGood(m: Merge3, base: Branch, r: Repo, failing: Failing)
    requires Inv(base, r)
    ensures Good(base, r, IntoTargetWorktree(m, r, base, failing).0)
  {
    ViaTreeGood(m, base, r, failing);
    var r1, r' := ViaTree(m, r, base, failing).0, IntoTargetWorktree(m, r, base, failing).0;
    if r' != r1 {
      MergeIntoGood(m, base, r1);
      GoodTrans(base, r, r1, r');
    }
  }

  lemma InPlaceGood(m: Merge3, base: Branch, r: Repo, failing: Failing)
    requires Inv(base, r)
    ensures Good(base, r, InPlace(m, r, base, failing).0)
  {
    var r' := InPlace(m, r, base, failing).0;
    if r' == r || r' == UndoMain(r, failing) {
      FlagsGood(base, r, r');
    } else {
      var r1 := MergeInto(m, r, base).0;
      MergeIntoGood(m, base, r);
      FlagsGood(base, r1, r');
      GoodTrans(base, r, r1, r');
    }
  }

  lemma LandGood(m: Merge3, base: Branch, r: Repo, failing: Failing)
    requires Inv(base, r)
    ensures Good(base, r, Land(m, r, base, failing).0)
  {
    var r1 := RecoverMain(r, failing);
    FlagsGood(base, r, r1);
    var r' := Land(m, r, base, failing).0;
    if r' != r1 {
      if base != r1.current {
        IntoTargetWorktreeGood(m, base, r1, failing);
      } else {
        InPlaceGood(m, base, r1, failing);
      }
      GoodTrans(base, r, r1, r');
    }
  }

  lemma MergeTaskGood(m: Merge3, base: Branch, r: Repo, tree: Tree, failing: Failing)
    requires Inv(base, r)
    ensures Good(base, r, MergeTask(m, r, base, tree, failing).0)
  {
    var (r1, committed) := CommitWorktree(r, tree, failing);
    CommitWorktreeGood(base, r, tree, failing);
    if committed {
      LandGood(m, base, r1, failing);
      GoodTrans(base, r, r1, Land(m, r1, base, failing).0);
    }
  }

  lemma TrialMergeGood(m: Merge3, base: Branch, r: Repo, failing: Failing)
    requires Inv(base, r)
    ensures Good(base, r, TrialMerge(m, r, base, failing).0)
  {
    var r' := TrialMerge(m, r, base, failing).0;
    var merged := m(r.dag, Tip(r, r.work), Tip(r, base));
    if Merge in failing || r.wtMerge.Some? || Anc(r.dag, Tip(r, base), Tip(r, r.work)) || merged.None? {
      FlagsGood(base, r, r');
    } else {
      MergeBaseGood(base, r, merged.value);
    }
  }

  lemma PrepareGood(m: Merge3, base: Branch, r: Repo, tree: Tree, failing: Failing)
    requires Inv(base, r)
    ensures Good(base, r, Prepare(m, r, base, tree, failing).0)
  {
    FlagsGood(base, r, r);
    var r' := Prepare(m, r, base, tree, failing).0;
    if r' != r {
      var (r1, committed) := CommitWorktree(r, tree, failing);
      CommitWorktreeGood(base, r, tree, failing);
      if committed {
        var r2 := SetMarkerHere(r1, failing);
        FlagsGood(base, r1, r2);
        TrialMergeGood(m, base, r2, failing);
        GoodTrans(base, r1, r2, r');
        GoodTrans(base, r, r1, r');
      }
    }
  }

  lemma ResetGood(base: Branch, r: Repo, r': Repo)
    requires Inv(base, r) && IsMerge(r.dag, Tip(r, r.work))
    requires Sound(r') && r'.dag == r.dag && r'.work == r.work && r'.wtMerge.None?
    requires r'.refs == r.refs[r.work := r.dag[Tip(r, r.work)].parents[0]]
    ensures Good(base, r, r')
  {
    ResetKeeps(r.dag, Tip(r, r.work), Tip(r, base));
  }

  // What the discard can change: the flags and the marker, and with a reset
  // the work branch.
  lemma AbortFlags(r: Repo, failing: Failing)
    requires Sound(r) && !Resets(r, failing)
    ensures var r' := Abort(r, failing);
            r'.dag == r.dag && r'.work == r.work && r'.current == r.current && r'.refs == r.refs &&
            (r'.wtMerge.None? || r'.wtMerge == r.wtMerge) && (r'.marker.None? || r'.marker == r.marker)
  {
  }

  lemma AbortReset(r: Repo, failing: Failing)
    requires Sound(r) && Resets(r, failing)
    ensures IsMerge(r.dag, Tip(r, r.work))
    ensures var r' := Abort(r, failing);
            r'.dag == r.dag && r'.work == r.work && r'.current == r.current && r'.wtMerge.None? &&
            r'.refs == r.refs[r.work := r.dag[Tip(r, r.work)].parents[0]] &&
            (r'.marker.None? || r'.marker == r.marker)
  {
  }

  lemma AbortGood(base: Branch, r: Repo, failing: Failing)
    requires Inv(base, r)
    ensures Good(base, r, Abort(r, failing))
  {
    var r' := Abort(r, failing);
    if Resets(r, failing) {
      AbortReset(r, failing);
      ResetGood(base, r, r');
    } else {
      AbortFlags(r, failing);
      FlagsGood(base, r, r');
    }
  }

  lemma CompleteGood(m: Merge3, base: Branch, r: Repo, tree: Tree, failing: Failing)
    requires Inv(base, r)
    ensures Good(base, r, Complete(m, r, base, tree, failing).0)
  {
    FlagsGood(base, r, r);
    var r' := Complete(m, r, base, tree, failing).0;
    if r' != r {
      var r1 := if r.wtMerge.Some? && Probe !in failing then CommitOnWork(r, tree) else r;
      CommitOnWorkGood(base, r, tree);
      MergeTaskGood(m, base, r1, tree, failing);
      var r2 := MergeTask(m, r1, base, tree, failing).0;
      FlagsGood(base, r2, DropMarker(r2, failing));
      FlagsGood(base, r2, r2);
      GoodTrans(base, r1, r2, r');
      GoodTrans(base, r, r1, r');
    }
  }

  lemma FastForwardGood(base: Branch, r: Repo, failing: Failing)
    requires Inv(base, r)
    ensures Good(base, r, FastForward(r, base, failing).0)
  {
    FlagsGood(base, r, r);
    if Anc(r.dag, Tip(r, r.work), Tip(r, base)) { CatchUpKeeps(r.dag, Tip(r, r.work), Tip(r, base)); }
  }

  lemma StepGood(m: Merge3, base: Branch, r: Repo, op: Op)
    requires Inv(base, r)
    ensures Good(base, r, Step(m, base, r, op))
  {
    match op
    case OpPrepare(tree, failing) => PrepareGood(m, base, r, tree, failing);
    case OpAbort(failing) => AbortGood(base, r, failing);
    case OpComplete(tree, failing) => CompleteGood(m, base, r, tree, failing);
    case OpMergeTask(tree, failing) => MergeTaskGood(m, base, r, tree, failing);
    case OpFastForward(failing) => FastForwardGood(base, r, failing);
    case OpEdit => FlagsGood(base, r, Step(m, base, r, op));
    case OpCommit(tree) => CommitOnWorkGood(base, r, tree);
    case OpBase(others, tree) =>
      FlagsGood(base, r, r);
      if forall i :: 0 <= i < |others| ==> others[i] < |r.dag| {
        AdvanceBaseGood(base, r, [Tip(r, base)] + others, tree);
      }
  }

  // ---------- whole runs ----------

  ghost predicate Reached(m: Merge3, base: Branch, r: Repo, ops: seq<Op>, r': Repo)
    decreases |ops|
  {
    if ops == [] then r' == r
    else r.work in r.refs && base in r.refs && Reached(m, base, Step(m, base, r, ops[0]), ops[1..], r')
  }

  // Over any sequence of operations, every non-merge commit once reachable from
  // the work branch stays reachable from it or from the base branch, and the
  // base branch only grows.
  lemma {:induction false} NoCommitLost(m: Merge3, base: Branch, r: Repo, ops: seq<Op>, r': Repo)
    requires Inv(base, r) && Reached(m, base, r, ops, r')
    ensures Good(base, r, r')
    decreases |ops|
  {
    FlagsGood(base, r, r);
    if ops != [] {
      var r1 := Step(m, base, r, ops[0]);
      StepGood(m, base, r, ops[0]);
      NoCommitLost(m, base, r1, ops[1..], r');
      GoodTrans(base, r, r1, r');
    }
  }

  // A task's branch starts at the tip of the base branch.
  lemma FreshBranch(base: Branch, r: Repo)
    requires Sound(r) && base in r.refs && base != r.work && r.wtMerge.None? && Tip(r, r.work) == Tip(r, base)
    ensures Inv(base, r)
  {
    CatchUpKeeps(r.dag, Tip(r, base), Tip(r, base));
  }

  // Discarding a resolution takes at most one commit out of reach, a merge whose
  // first parent is the marker; and only over a tree that was seen to be clean.
  lemma AbortDiscardsOneMerge(base: Branch, r: Repo, failing: Failing)
    requires Inv(base, r)
    ensures var r' := Abort(r, failing);
            && r'.dag == r.dag
            && (forall c :: 0 <= c < |r.dag| && Safe(r.dag, Tip(r, r.work), Tip(r, base), c)
                            && !Safe(r.dag, Tip(r', r.work), Tip(r', base), c) ==>
                  c == Tip(r, r.work) && IsMerge(r.dag, c) && r.marker == Some(r.dag[c].parents[0]))
            && (Tip(r', r.work) != Tip(r, r.work) ==> SeenClean(r, failing))
  {
    var r' := Abort(r, failing);
    if r'.refs != r.refs { ResetKeeps(r.dag, Tip(r, r.work), Tip(r, base)); }
  }

  // Uncommitted edits go with a paused merge that is aborted, or with a reset
  // over a status that failed: that reads as a clean tree.
  lemma EditsSurviveAbort(r: Repo, failing: Failing)
    requires Sound(r) && r.wtDirty
    ensures !Abort(r, failing).wtDirty <==>
            || (r.wtMerge.Some? && Probe !in failing && Undo !in failing)
            || ((r.wtMerge.None? || Probe in failing) && OurMerge(r, failing)
                && AbortStatus in failing && Reset !in failing)
  {
  }

  // ---------- a merge somebody else made ----------

  // The work branch moves exactly if the merge at its tip has the marker as
  // first parent, whoever made it and whatever its other parents are.
  lemma AbortDiscardsExactly(r: Repo, failing: Failing)
    requires Sound(r)
    ensures var head, r' := Tip(r, r.work), Abort(r, failing);
            r'.work in r'.refs &&
            (Tip(r', r'.work) != head <==>
              && (r.wtMerge.None? || Probe in failing) && Parents !in failing && Reset !in failing
              && (!r.wtDirty || AbortStatus in failing)
              && |r.dag[head].parents| >= 2 && r.marker == Some(r.dag[head].parents[0]))
  {
    var head := Tip(r, r.work);
    assert IsMerge(r.dag, head) ==> r.dag[head].parents[0] < head;
  }

  // What goes out of reach with it: the merge, and what is behind its other
  // parents and on neither the marker's side nor the base branch.
  lemma AbortLosesExactly(base: Branch, r: Repo, failing: Failing, c: nat)
    requires Sound(r) && base in r.refs && base != r.work && c < |r.dag|
    ensures var head, r' := Tip(r, r.work), Abort(r, failing);
            && base in r'.refs && r.work in r'.refs && r'.dag == r.dag
            && (Safe(r.dag, head, Tip(r, base), c) && !Safe(r.dag, Tip(r', r.work), Tip(r', base), c) <==>
                  && Tip(r', r.work) != head
                  && (c == head || exists i :: 1 <= i < |r.dag[head].parents| && Anc(r.dag, c, r.dag[head].parents[i]))
                  && !Anc(r.dag, c, r.dag[head].parents[0]) && !Anc(r.dag, c, Tip(r, base)))
  {
    AbortDiscardsExactly(r, failing);
    AbortRefs(r, failing);
    BehindMerge(r.dag, Tip(r, r.work), c);
  }

  lemma AbortRefs(r: Repo, failing: Failing)
    requires Sound(r)
    ensures var head, r' := Tip(r, r.work), Abort(r, failing);
            && r'.work == r.work && r.work in r'.refs && r'.dag == r.dag
            && (Tip(r', r.work) != head ==>
                  |r.dag[head].parents| >= 2 && r'.refs == r.refs[r.work := r.dag[head].parents[0]])
            && (Tip(r', r.work) == head ==> r'.refs == r.refs)
  {
    AbortDiscardsExactly(r, failing);
  }

  lemma BehindMerge(d: Dag, head: nat, c: nat)
    requires WellFormed(d) && head < |d|
    ensures (c == head || exists i :: 1 <= i < |d[head].parents| && Anc(d, c, d[head].parents[i])) ==> Anc(d, c, head)
  {
    if i :| 1 <= i < |d[head].parents| && Anc(d, c, d[head].parents[i]) {
      AncParent(d, head, i);
      AncTrans(d, c, d[head].parents[i], head);
    }
  }

  // `git merge --abort` in the worktree, by somebody else.
  function GiveUpMerge(r: Repo): Repo {
    if r.wtMerge.Some? then r.(wtMerge := None, wtDirty := false) else r
  }

  // A clean `git merge --no-ff` of commit `other` in the worktree, by somebody else.
  function ForeignMerge(r: Repo, other: nat, tree: Tree): Repo
    requires r.work in r.refs
  {
    if r.wtMerge.Some? || r.wtDirty then r else Advance(r, r.work, [Tip(r, r.work), other], tree)
  }

  // Every merge of the base branch conflicts.
  function Conflicting(): Merge3 {
    (d: Dag, a: nat, b: nat) => None
  }

  // The work branch is at 1, the base branch at 2, another branch at 3.
  function ThreeBranches(): Repo {
    Repo([Commit([], 0), Commit([0], 1), Commit([0], 2), Commit([0], 3)], map["base" := 2, "work" := 1, "other" := 3],
         "main", false, None, "work", false, None, None)
  }

  // The app's merge pauses, an agent gives it up and merges another branch
  // instead; abandoning the resolution then discards the agent's merge, and what
  // it brought in is reachable from neither branch.
  lemma ForeignMergeIsDiscarded()
    ensures var r := ThreeBranches();
            var paused := Step(Conflicting(), "base", r, OpPrepare(0, {}));
            var merged := ForeignMerge(GiveUpMerge(paused), 3, 9);
            && Sound(r) && r.work in r.refs && paused.work in paused.refs && merged.work in merged.refs
            && paused.wtMerge == Some(2)
            && Tip(merged, "work") == 4 && merged.dag[4] == Commit([1, 3], 9)
            && "work" in Abort(merged, {}).refs && Tip(Abort(merged, {}), "work") == 1
            && !Safe(merged.dag, 1, 2, 3)
  {
    PausesOnBase();
    MergesOther(ThreeBranches().(marker := Some(1)));
  }

  lemma PausesOnBase()
    ensures var r := ThreeBranches();
            Step(Conflicting(), "base", r, OpPrepare(0, {}))
            == r.(marker := Some(1), wtMerge := Some(2), wtDirty := true)
  {
    assert !Anc(ThreeBranches().dag, 2, 1);
  }

  lemma MergesOther(r: Repo)
    requires r == ThreeBranches().(marker := Some(1))
    ensures var merged := ForeignMerge(r, 3, 9);
            && Tip(merged, "work") == 4 && merged.dag[4] == Commit([1, 3], 9)
            && "work" in Abort(merged, {}).refs && Tip(Abort(merged, {}), "work") == 1
            && !Safe(merged.dag, 1, 2, 3)
  {
  }

  // ---------- edits lost in a run ----------

  function Nine(): Merge3 {
    (d: Dag, a: nat, b: nat) => Some(9)
  }

  // A branch just created, then a commit on it and one on the base branch, a
  // clean trial merge, and an edit: the status that fails costs the edit.
  function Created(): Repo {
    Repo([Commit([], 0)], map["base" := 0, "work" := 0], "main", false, None, "work", false, None, None)
  }

  const EDITING: seq<Op> := [OpCommit(1), OpBase([], 2), OpPrepare(0, {}), OpEdit]

  function Edited(): Repo {
    Repo([Commit([], 0), Commit([0], 1), Commit([0], 2), Commit([1, 2], 9)], map["base" := 2, "work" := 3], "main",
         false, None, "work", true, None, Some(1))
  }

  lemma EditsLostInARun()
    ensures Inv("base", Created()) && Reached(Nine(), "base", Created(), EDITING, Edited())
    ensures Abort(Edited(), {AbortStatus}) == Edited().(
              refs := map["base" := 2, "work" := 1], wtDirty := false, marker := None)
    ensures Abort(Edited(), {}) == Edited().(marker := None)
  {
    FreshBranch("base", Created());
    var r1 := Created().(dag := [Commit([], 0), Commit([0], 1)], refs := map["base" := 0, "work" := 1]);
    assert Step(Nine(), "base", Created(), EDITING[0]) == r1 by {
      assert map["base" := 0, "work" := 0]["work" := 1] == map["base" := 0, "work" := 1];
    }
    EditsFrom(r1);
    assert map["base" := 2, "work" := 3]["work" := 1] == map["base" := 2, "work" := 1];
  }

  lemma EditsFrom(r: Repo)
    requires r == Created().(dag := [Commit([], 0), Commit([0], 1)], refs := map["base" := 0, "work" := 1])
    ensures Reached(Nine(), "base", r, EDITING[1..], Edited())
  {
    var r2 := r.(dag := r.dag + [Commit([0], 2)], refs := map["base" := 2, "work" := 1]);
    assert Step(Nine(), "base", r, EDITING[1]) == r2 by {
      assert [0] + [] == [0] && map["base" := 0, "work" := 1]["base" := 2] == map["base" := 2, "work" := 1];
    }
    PreparesCleanly(r2);
    var r3 := Edited().(wtDirty := false);
    assert EDITING[1..][1..] == [EDITING[2], EDITING[3]] && [EDITING[2], EDITING[3]][1..] == [EDITING[3]];
    assert Reached(Nine(), "base", Edited(), [], Edited());
    assert Reached(Nine(), "base", r3, [EDITING[3]], Edited());
    assert Reached(Nine(), "base", r2, [EDITING[2], EDITING[3]], Edited());
  }

  lemma PreparesCleanly(r: Repo)
    requires r == Created().(
               dag := [Commit([], 0), Commit([0], 1), Commit([0], 2)], refs := map["base" := 2, "work" := 1])
    ensures Step(Nine(), "base", r, OpPrepare(0, {})) == Edited().(wtDirty := false)
  {
    assert !Anc(r.dag, 2, 1);
    assert map["base" := 2, "work" := 1]["work" := 3] == map["base" := 2, "work" := 3];
  }
}
