// The operations of GitMerge as lib/git.ts writes them, one git command after
// the other on a repository that changes in place.
module GitCommands {
  import opened Wrappers
  import opened GitDag
  import opened GitMerge
  import opened GitLanding
  import opened GitNoLoss

  class Repository {
    var dag: Dag
    var refs: map<Branch, nat>
    var current: Branch
    var mainDirty: bool
    var mainMerge: Option<nat>
    const work: Branch
    var wtDirty: bool
    var wtMerge: Option<nat>
    var marker: Option<nat>

    function Value(): Repo
      reads this
    {
      Repo(dag, refs, current, mainDirty, mainMerge, work, wtDirty, wtMerge, marker)
    }

    constructor (r: Repo)
      ensures Value() == r
    {
      dag, refs, current, mainDirty, mainMerge := r.dag, r.refs, r.current, r.mainDirty, r.mainMerge;
      work, wtDirty, wtMerge, marker := r.work, r.wtDirty, r.wtMerge, r.marker;
    }

    // ---------- single commands ----------

    method CommitTreeObject(parents: seq<nat>, tree: Tree) returns (c: nat)
      modifies this`dag
      ensures c == |old(dag)| && dag == old(dag) + [Commit(parents, tree)]
    {
      c := |dag|;
      dag := dag + [Commit(parents, tree)];
    }

    method CommitAll(tree: Tree)
      requires work in refs
      modifies this
      ensures Value() == CommitOnWork(old(Value()), tree)
    {
      var parents := if wtMerge.Some? then [refs[work], wtMerge.value] else [refs[work]];
      var c := CommitTreeObject(parents, tree);
      refs := refs[work := c];
      wtDirty, wtMerge := false, None;
    }

    method AbortInWorktree(failing: Failing)
      modifies this`wtDirty, this`wtMerge
      ensures Value() == UndoMerge(old(Value()), failing)
    {
      if wtMerge.Some? && Undo !in failing { wtDirty, wtMerge := false, None; }
    }

    method ClearMergeAbortMarker(failing: Failing)
      modifies this`marker
      ensures Value() == DropMarker(old(Value()), failing)
    {
      if ClearMarker !in failing { marker := None; }
    }

    // ---------- committing and landing ----------

    method CommitPendingEdits(tree: Tree, failing: Failing) returns (ok: bool)
      requires work in refs
      modifies this
      ensures (Value(), ok) == CommitWorktree(old(Value()), tree, failing)
      ensures work in refs
    {
      var dirty := wtDirty && WtStatus !in failing;
      if !dirty { return true; }
      if WtCommit in failing { return false; }
      CommitAll(tree);
      ok := true;
    }

    // `git merge --no-ff` on a checkout of `target`, aborted on conflicts.
    method MergeBranch(m: Merge3, target: Branch) returns (l: Landing)
      requires work in refs && target in refs
      modifies this`dag, this`refs
      ensures (Value(), l) == MergeInto(m, old(Value()), target)
    {
      if Anc(dag, refs[work], refs[target]) { return Landed; }
      var merged := m(dag, refs[target], refs[work]);
      if merged.None? { return Conflicts; }
      var c := CommitTreeObject([refs[target], refs[work]], merged.value);
      refs := refs[target := c];
      l := Landed;
    }

    method MergeViaTree(m: Merge3, target: Branch, failing: Failing) returns (l: Option<Landing>)
      requires work in refs
      modifies this`dag, this`refs
      ensures (Value(), l) == ViaTree(m, old(Value()), target, failing)
    {
      if target !in refs || MergeTree in failing { return None; }
      var tree := m(dag, refs[target], refs[work]);
      if tree.None? { return if ParseConflicts in failing then None else Some(Conflicts); }
      if RevParse in failing { return None; }
      var oldTip, workTip := refs[target], refs[work];
      if CommitTree in failing { return None; }
      var c := CommitTreeObject([oldTip, workTip], tree.value);
      if UpdateRef in failing { return None; }
      refs := refs[target := c];
      l := Some(Landed);
    }

    method MergeIntoTargetWorktree(m: Merge3, target: Branch, failing: Failing) returns (l: Landing)
      requires work in refs
      modifies this`dag, this`refs
      ensures (Value(), l) == IntoTargetWorktree(m, old(Value()), target, failing)
    {
      var fast := MergeViaTree(m, target, failing);
      if fast.Some? { return fast.value; }
      if target !in refs || WorktreeAdd in failing { return CannotPrepare; }
      if TmpMerge in failing { return MergeFailed; }
      l := MergeBranch(m, target);
    }

    method MergeInPlace(m: Merge3, target: Branch, failing: Failing) returns (l: Landing)
      requires work in refs
      modifies this
      ensures (Value(), l) == InPlace(m, old(Value()), target, failing)
    {
      var dirty := mainDirty && MainStatus !in failing;
      if dirty { return DirtyMain; }
      if MainMerge in failing || target !in refs || mainMerge.Some? {
        if mainMerge.Some? && MainUndo !in failing { mainDirty, mainMerge := false, None; }
        return MergeFailed;
      }
      var workTip := refs[work];
      l := MergeBranch(m, target);
      if l.Conflicts? && MainUndo in failing { mainDirty, mainMerge := true, Some(workTip); }
    }

    method LandWork(m: Merge3, base: Branch, failing: Failing) returns (l: Landing)
      requires work in refs
      modifies this
      ensures (Value(), l) == Land(m, old(Value()), base, failing)
    {
      if mainMerge.Some? && MainAbort !in failing { mainDirty, mainMerge := false, None; }
      var target := if base in refs then base else if current != "" then current else base;
      assert target == TargetOf(Value(), base);
      if target in refs && RevList !in failing && Anc(dag, refs[work], refs[target]) { return AlreadyMerged; }
      if target != current {
        l := MergeIntoTargetWorktree(m, target, failing);
      } else {
        l := MergeInPlace(m, target, failing);
      }
    }

    method MergeTaskBranch(m: Merge3, base: Branch, tree: Tree, failing: Failing) returns (l: Landing)
      requires work in refs
      modifies this
      ensures (Value(), l) == MergeTask(m, old(Value()), base, tree, failing)
      ensures old(Sound(Value()) && base != work) ==>
                var r1 := CommitWorktree(old(Value()), tree, failing).0;
                AllOrNothing(r1, Value(), TargetOf(r1, base), Succeeded(l))
      ensures Inv(base, old(Value())) ==> Good(base, old(Value()), Value())
    {
      if Sound(Value()) && base != work { MergeTaskAllOrNothing(m, Value(), base, tree, failing); }
      if Inv(base, Value()) { MergeTaskGood(m, base, Value(), tree, failing); }
      var committed := CommitPendingEdits(tree, failing);
      if !committed { return CommitFailed; }
      l := LandWork(m, base, failing);
    }

    // ---------- resolving conflicts ----------

    method PrepareWorktreeMerge(m: Merge3, base: Branch, tree: Tree, failing: Failing) returns (p: Prepared)
      requires work in refs
      modifies this
      ensures (Value(), p) == Prepare(m, old(Value()), base, tree, failing)
      ensures Inv(base, old(Value())) ==> Good(base, old(Value()), Value())
    {
      if Inv(base, Value()) { PrepareGood(m, base, Value(), tree, failing); }
      if base !in refs { return NoBase; }
      if wtMerge.Some? && Probe !in failing { return PausedAlready; }
      if IsAncestor !in failing && Anc(dag, refs[base], refs[work]) { return Synced; }
      var committed := CommitPendingEdits(tree, failing);
      if !committed { return CannotCommit; }
      if SetMarker !in failing { marker := Some(refs[work]); }
      p := MergeBaseIn(m, base, failing);
    }

    method MergeBaseIn(m: Merge3, base: Branch, failing: Failing) returns (p: Prepared)
      requires work in refs && base in refs
      modifies this
      ensures (Value(), p) == TrialMerge(m, old(Value()), base, failing)
    {
      if Merge in failing || wtMerge.Some? {
        AbortInWorktree(failing);
        ClearMergeAbortMarker(failing);
        return Refused;
      }
      if Anc(dag, refs[base], refs[work]) { return MergedCleanly; }
      var merged := m(dag, refs[work], refs[base]);
      if merged.None? {
        wtMerge, wtDirty := Some(refs[base]), true;
        return Paused;
      }
      var c := CommitTreeObject([refs[work], refs[base]], merged.value);
      refs := refs[work := c];
      p := MergedCleanly;
    }

    method AbortWorktreeMerge(failing: Failing)
      requires work in refs
      modifies this
      ensures Value() == Abort(old(Value()), failing)
      ensures forall base :: Inv(base, old(Value())) ==> Good(base, old(Value()), Value())
    {
      forall base | Inv(base, Value()) ensures Good(base, Value(), Abort(Value(), failing)) {
        AbortGood(base, Value(), failing);
      }
      if wtMerge.Some? && Probe !in failing {
        AbortInWorktree(failing);
        ClearMergeAbortMarker(failing);
        return;
      }
      if marker.None? { return; }
      var head := refs[work];
      var parents := if Parents in failing || head >= |dag| then [] else dag[head].parents;
      var isOurMerge := |parents| >= 2 && parents[0] == marker.value;
      var dirty := wtDirty && AbortStatus !in failing;
      if isOurMerge && !dirty && Reset !in failing {
        refs := refs[work := marker.value];
        wtDirty, wtMerge := false, None;
      }
      ClearMergeAbortMarker(failing);
    }

    method CompleteWorktreeMerge(m: Merge3, base: Branch, tree: Tree, failing: Failing) returns (c: Completion)
      requires work in refs
      modifies this
      ensures (Value(), c) == Complete(m, old(Value()), base, tree, failing)
      ensures Inv(base, old(Value())) ==> Good(base, old(Value()), Value())
    {
      if Inv(base, Value()) { CompleteGood(m, base, Value(), tree, failing); }
      var mergeInProgress := wtMerge.Some? && Probe !in failing;
      if MarkersLeft in failing { return LeftoverMarkers; }
      if mergeInProgress {
        if Conclude in failing { return CannotConclude; }
        CommitAll(tree);
      }
      var l := MergeTaskBranch(m, base, tree, failing);
      if Succeeded(l) { ClearMergeAbortMarker(failing); }
      c := Completion.Landing(l);
    }

    method FastForwardWorktree(base: Branch, failing: Failing) returns (ok: bool)
      requires work in refs
      modifies this`refs
      ensures (Value(), ok) == FastForward(old(Value()), base, failing)
      ensures ok ==> base in refs && Anc(dag, old(refs)[work], refs[work]) && Anc(dag, refs[base], refs[work])
      ensures !ok ==> refs == old(refs)
    {
      if FfOnly in failing || wtMerge.Some? || base !in refs { return false; }
      if Anc(dag, refs[base], refs[work]) { return true; }
      if !Anc(dag, refs[work], refs[base]) { return false; }
      refs := refs[work := refs[base]];
      ok := true;
    }
  }
}
