// Landing is all or nothing, and its two merge paths agree.
module GitLanding {
  import opened Wrappers
  import opened GitDag
  import opened GitMerge

  // Everything a merge of `target` promises its caller.
  ghost predicate AllOrNothing(r: Repo, r': Repo, target: Branch, landed: bool) {
    && Sound(r') && r.dag <= r'.dag
    && r'.work == r.work && r'.current == r.current
    && r'.wtDirty == r.wtDirty && r'.wtMerge == r.wtMerge && r'.marker == r.marker
    && r'.refs.Keys == r.refs.Keys
    && (landed ==> Contains(r, r', target))
    && (!landed ==> r'.refs == r.refs)
    && (forall b :: b in r.refs && b != target ==> r'.refs[b] == r.refs[b])
  }

  // The old target and the work branch are both behind the new target.
  ghost predicate Contains(r: Repo, r': Repo, target: Branch) {
    && target in r.refs && target in r'.refs && r.work in r.refs
    && Anc(r'.dag, Tip(r, target), Tip(r', target)) && Anc(r'.dag, Tip(r, r.work), Tip(r', target))
  }

  predicate SameMain(r: Repo, r': Repo) {
    r'.mainDirty == r.mainDirty && r'.mainMerge == r.mainMerge && r'.current == r.current
  }

  // A merge commit on `target` has both tips behind it, and nothing else moved.
  lemma AdvanceMerges(r: Repo, target: Branch, tree: Tree)
    requires Sound(r) && target in r.refs && target != r.work
    ensures var r' := Advance(r, target, [Tip(r, target), Tip(r, r.work)], tree);
            AllOrNothing(r, r', target, true) && SameMain(r, r')
  {
    var r' := Advance(r, target, [Tip(r, target), Tip(r, r.work)], tree);
    var x := Commit([Tip(r, target), Tip(r, r.work)], tree);
    AncNew(r.dag, x, x.parents[0]);
    AncNew(r.dag, x, x.parents[1]);
    assert Anc(r.dag, x.parents[0], x.parents[0]) && Anc(r.dag, x.parents[1], x.parents[1]);
    assert Contains(r, r', target);
  }

  // A commit no ref points at changes nothing a caller can see.
  lemma Dangling(r: Repo, target: Branch, x: Commit)
    requires Sound(r) && forall i :: 0 <= i < |x.parents| ==> x.parents[i] < |r.dag|
    ensures AllOrNothing(r, r.(dag := r.dag + [x]), target, false)
  {
  }

  lemma MergeIntoAllOrNothing(m: Merge3, r: Repo, target: Branch)
    requires Sound(r) && target in r.refs && target != r.work
    ensures var (r', l) := MergeInto(m, r, target);
            AllOrNothing(r, r', target, Succeeded(l)) && SameMain(r, r')
  {
    if Anc(r.dag, Tip(r, r.work), Tip(r, target)) {
      assert Anc(r.dag, Tip(r, target), Tip(r, target));
    } else {
      var merged := m(r.dag, Tip(r, target), Tip(r, r.work));
      if merged.Some? { AdvanceMerges(r, target, merged.value); }
    }
  }

  // The object-level path: no answer means the target did not move.
  lemma ViaTreeAllOrNothing(m: Merge3, r: Repo, target: Branch, failing: Failing)
    requires Sound(r) && target != r.work
    ensures var (r', fast) := ViaTree(m, r, target, failing);
            AllOrNothing(r, r', target, fast == Some(Landed)) && SameMain(r, r')
  {
    if target in r.refs && MergeTree !in failing {
      var merged := m(r.dag, Tip(r, target), Tip(r, r.work));
      if merged.Some? {
        AdvanceMerges(r, target, merged.value);
        Dangling(r, target, Commit([Tip(r, target), Tip(r, r.work)], merged.value));
      }
    }
  }

  // A merge that follows a first try which moved nothing.
  lemma AfterFailedTry(r: Repo, r1: Repo, r': Repo, target: Branch, landed: bool)
    requires AllOrNothing(r, r1, target, false) && SameMain(r, r1)
    requires AllOrNothing(r1, r', target, landed) && SameMain(r1, r')
    ensures AllOrNothing(r, r', target, landed) && SameMain(r, r')
  {
    assert r1.refs == r.refs;
  }

  lemma IntoTargetWorktreeAllOrNothing(m: Merge3, r: Repo, target: Branch, failing: Failing)
    requires Sound(r) && target != r.work
    ensures var (r', l) := IntoTargetWorktree(m, r, target, failing);
            AllOrNothing(r, r', target, Succeeded(l)) && SameMain(r, r')
  {
    ViaTreeAllOrNothing(m, r, target, failing);
    var (r1, fast) := ViaTree(m, r, target, failing);
    var (r', l) := IntoTargetWorktree(m, r, target, failing);
    if fast.None? && r' != r1 {
      MergeIntoAllOrNothing(m, r1, target);
      AfterFailedTry(r, r1, r', target, Succeeded(l));
    }
  }

  lemma InPlaceAllOrNothing(m: Merge3, r: Repo, target: Branch, failing: Failing)
    requires Sound(r) && target != r.work
    ensures var (r', l) := InPlace(m, r, target, failing);
            AllOrNothing(r, r', target, Succeeded(l)) &&
            (MainUndo !in failing && r.mainMerge.None? ==> SameMain(r, r'))
  {
    if target in r.refs { MergeIntoAllOrNothing(m, r, target); }
  }

  lemma LandOnAllOrNothing(m: Merge3, r: Repo, target: Branch, failing: Failing)
    requires Sound(r) && target != r.work
    ensures var (r', l) := LandOn(m, r, target, failing);
            && AllOrNothing(r, r', target, Succeeded(l))
            && (target != r.current ==> SameMain(r, r'))
            && (l.AlreadyMerged? ==> r' == r)
  {
    if target in r.refs && RevList !in failing && Anc(r.dag, Tip(r, r.work), Tip(r, target)) {
      assert Anc(r.dag, Tip(r, target), Tip(r, target));
    } else if target != r.current {
      IntoTargetWorktreeAllOrNothing(m, r, target, failing);
      assert !IntoTargetWorktree(m, r, target, failing).1.AlreadyMerged?;
    } else {
      InPlaceAllOrNothing(m, r, target, failing);
      assert !InPlace(m, r, target, failing).1.AlreadyMerged?;
    }
  }

  // Success puts the old target and the work branch behind the target; failure
  // leaves every ref where it was; and when the target is not the branch checked
  // out in the main tree, that tree is exactly as the recovery left it.
  lemma LandAllOrNothing(m: Merge3, r: Repo, base: Branch, failing: Failing)
    requires Sound(r) && base != r.work
    ensures var (r', l) := Land(m, r, base, failing);
            && AllOrNothing(r, r', TargetOf(r, base), Succeeded(l))
            && (TargetOf(r, base) != r.current ==> SameMain(RecoverMain(r, failing), r'))
            && (l.AlreadyMerged? ==> r' == RecoverMain(r, failing))
  {
    var r1 := RecoverMain(r, failing);
    var (r', l) := LandOn(m, r1, TargetOf(r1, base), failing);
    LandOnAllOrNothing(m, r1, TargetOf(r1, base), failing);
    AfterRecovery(r, r1, r', TargetOf(r1, base), Succeeded(l));
  }

  lemma AfterRecovery(r: Repo, r1: Repo, r': Repo, target: Branch, landed: bool)
    requires r1 == r || r1 == r.(mainMerge := None, mainDirty := false)
    requires AllOrNothing(r1, r', target, landed)
    ensures AllOrNothing(r, r', target, landed)
  {
  }

  // With the commit of pending edits before it: what is landed is the work branch
  // as that commit left it.
  lemma MergeTaskAllOrNothing(m: Merge3, r: Repo, base: Branch, tree: Tree, failing: Failing)
    requires Sound(r) && base != r.work
    ensures var r1 := CommitWorktree(r, tree, failing).0;
            var (r', l) := MergeTask(m, r, base, tree, failing);
            Sound(r1) && AllOrNothing(r1, r', TargetOf(r1, base), Succeeded(l))
  {
    var (r1, committed) := CommitWorktree(r, tree, failing);
    if committed { LandAllOrNothing(m, r1, base, failing); }
  }

  // When the fast path lands, the worktree merge would have made the very same
  // commit, exactly if the work branch was not merged already.
  lemma FastPathAgrees(m: Merge3, r: Repo, target: Branch, failing: Failing)
    requires Sound(r) && target in r.refs && ViaTree(m, r, target, failing).1 == Some(Landed)
    ensures ViaTree(m, r, target, failing).0 == MergeInto(m, r, target).0
       <==> !Anc(r.dag, Tip(r, r.work), Tip(r, target))
  {
    var fast := ViaTree(m, r, target, failing).0;
    assert |fast.dag| == |r.dag| + 1;
  }

  // In `mergeTask` the ahead count has ruled that out, so whenever it could be
  // read, landing through either path comes to the same.
  lemma BothPathsAgree(m: Merge3, r: Repo, base: Branch, failing: Failing)
    requires Sound(r) && TargetOf(RecoverMain(r, failing), base) in r.refs
    requires var r1 := RecoverMain(r, failing); TargetOf(r1, base) != r1.current
    requires ViaTree(m, RecoverMain(r, failing), TargetOf(r, base), failing).1.Some? && RevList !in failing
    ensures var r1 := RecoverMain(r, failing);
            Land(m, r, base, failing) ==
              if Anc(r1.dag, Tip(r1, r1.work), Tip(r1, TargetOf(r1, base))) then (r1, AlreadyMerged)
              else MergeInto(m, r1, TargetOf(r1, base))
  {
    var r1 := RecoverMain(r, failing);
    var target := TargetOf(r1, base);
    if !Anc(r1.dag, Tip(r1, r1.work), Tip(r1, target)) && ViaTree(m, r1, target, failing).1 == Some(Landed) {
      FastPathAgrees(m, r1, target, failing);
    }
  }

  // If the ahead count cannot be read, the fast path can stack a second merge
  // commit onto a target that already contains the work.
  lemma RedundantMergeCommit()
    ensures var m: Merge3 := (d: Dag, a: nat, b: nat) => Some(0);
            var refs := map["base" := 0, "work" := 0];
            var r := Repo([Commit([], 0)], refs, "main", false, None, "work", false, None, None);
            var (r', l) := Land(m, r, "base", {RevList});
            Sound(r) && l.Landed? && Tip(r', "base") != Tip(r, "base")
  {
  }
}
