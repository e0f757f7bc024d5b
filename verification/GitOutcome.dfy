// What landing, preparing and completing a merge answer, exactly: every
// condition is about the repository before the call, the merge and the commands
// that fail.
module GitOutcome {
  import opened Wrappers
  import opened GitDag
  import opened GitMerge

  // ---------- the repository a landing starts from ----------

  // The base branch if it exists, else the one checked out in the main tree.
  function Target(r: Repo, base: Branch): Branch {
    if base in r.refs || r.current == "" then base else r.current
  }

  // A merge left in the main tree that could not be aborted.
  predicate Stuck(r: Repo, failing: Failing) {
    r.mainMerge.Some? && MainAbort in failing
  }

  // Edits in the main tree that are still there and are seen.
  predicate DirtySeen(r: Repo, failing: Failing) {
    r.mainDirty && (r.mainMerge.None? || MainAbort in failing) && MainStatus !in failing
  }

  // The target has the work branch behind it already.
  predicate HasWork(r: Repo, target: Branch)
    requires r.work in r.refs
  {
    target in r.refs && Anc(r.dag, r.refs[r.work], r.refs[target])
  }

  predicate SeenMerged(r: Repo, target: Branch, failing: Failing)
    requires r.work in r.refs
  {
    HasWork(r, target) && RevList !in failing
  }

  // What merging the work branch into the target gives, over a given history.
  function Merged(m: Merge3, d: Dag, r: Repo, target: Branch): Option<Tree>
    requires r.work in r.refs && target in r.refs
  {
    m(d, r.refs[target], r.refs[r.work])
  }

  // A commit object or ref that the object-level merge could not make.
  predicate ObjectsFail(failing: Failing) {
    RevParse in failing || CommitTree in failing || UpdateRef in failing
  }

  // The object-level merge leaves the answer to the worktree.
  predicate FallsBack(m: Merge3, r: Repo, target: Branch, failing: Failing)
    requires r.work in r.refs && target in r.refs
  {
    || MergeTree in failing
    || (if Merged(m, r.dag, r, target).Some? then ObjectsFail(failing) else ParseConflicts in failing)
  }

  // The history the fallback sees: a failed update-ref leaves a commit behind
  // that no branch holds.
  function SeenBy(m: Merge3, r: Repo, target: Branch, failing: Failing): Dag
    requires r.work in r.refs && target in r.refs
  {
    if MergeTree !in failing && Merged(m, r.dag, r, target).Some? && RevParse !in failing && CommitTree !in failing
    then r.dag + [Commit([r.refs[target], r.refs[r.work]], Merged(m, r.dag, r, target).value)]
    else r.dag
  }

  lemma SameAncestry(m: Merge3, r: Repo, target: Branch, failing: Failing)
    requires Sound(r) && target in r.refs
    ensures Anc(SeenBy(m, r, target, failing), r.refs[r.work], r.refs[target]) <==> HasWork(r, target)
  {
    if SeenBy(m, r, target, failing) != r.dag {
      var x := Commit([r.refs[target], r.refs[r.work]], Merged(m, r.dag, r, target).value);
      AncExtend(r.dag, x, r.refs[r.work], r.refs[target]);
    }
  }

  // ---------- the answer as a table ----------

  // Through the object-level merge, or the temporary worktree behind it.
  function ElsewhereAnswer(m: Merge3, r: Repo, target: Branch, failing: Failing): Landing
    requires r.work in r.refs && target in r.refs
  {
    if !FallsBack(m, r, target, failing) then
      if Merged(m, r.dag, r, target).Some? then Landed else Conflicts
    else if WorktreeAdd in failing then CannotPrepare
    else if TmpMerge in failing then MergeFailed
    else if HasWork(r, target) || Merged(m, SeenBy(m, r, target, failing), r, target).Some? then Landed
    else Conflicts
  }

  // In the main tree.
  function HereAnswer(m: Merge3, r: Repo, target: Branch, failing: Failing): Landing
    requires r.work in r.refs
  {
    if DirtySeen(r, failing) then DirtyMain
    else if target !in r.refs || Stuck(r, failing) || MainMerge in failing then MergeFailed
    else if HasWork(r, target) || Merged(m, r.dag, r, target).Some? then Landed
    else Conflicts
  }

  function Answer(m: Merge3, r: Repo, target: Branch, failing: Failing): Landing
    requires r.work in r.refs
  {
    if SeenMerged(r, target, failing) then AlreadyMerged
    else if target == r.current then HereAnswer(m, r, target, failing)
    else if target !in r.refs then CannotPrepare
    else ElsewhereAnswer(m, r, target, failing)
  }

  lemma ElsewhereAnswers(m: Merge3, r: Repo, target: Branch, failing: Failing)
    requires Sound(r) && target in r.refs
    ensures IntoTargetWorktree(m, r, target, failing).1 == ElsewhereAnswer(m, r, target, failing)
  {
    SameAncestry(m, r, target, failing);
    if FallsBack(m, r, target, failing) { FallbackRepo(m, r, target, failing); }
  }

  lemma FallbackRepo(m: Merge3, r: Repo, target: Branch, failing: Failing)
    requires r.work in r.refs && target in r.refs
    ensures FallsBack(m, r, target, failing) ==>
              ViaTree(m, r, target, failing) == (r.(dag := SeenBy(m, r, target, failing)), None)
  {
  }

  lemma HereAnswers(m: Merge3, r: Repo, r1: Repo, target: Branch, failing: Failing)
    requires r.work in r.refs && r1 == RecoverMain(r, failing)
    ensures InPlace(m, r1, target, failing).1 == HereAnswer(m, r, target, failing)
  {
  }

  // The repository is looked at after an old merge in the main tree has been
  // aborted, which changes nothing but that tree.
  lemma LandAnswers(m: Merge3, r: Repo, base: Branch, failing: Failing)
    requires Sound(r)
    ensures Land(m, r, base, failing).1 == Answer(m, r, Target(r, base), failing)
  {
    var r1, target := RecoverMain(r, failing), Target(r, base);
    HereAnswers(m, r, r1, target, failing);
    if target in r.refs {
      ElsewhereAnswers(m, r1, target, failing);
      SameElsewhere(m, r, r1, target, failing);
    }
  }

  lemma SameElsewhere(m: Merge3, r: Repo, r1: Repo, target: Branch, failing: Failing)
    requires r.work in r.refs && target in r.refs
    requires r1 == r || r1 == r.(mainMerge := None, mainDirty := false)
    ensures ElsewhereAnswer(m, r1, target, failing) == ElsewhereAnswer(m, r, target, failing)
  {
  }

  // ---------- when landing succeeds ----------

  predicate LandsElsewhere(m: Merge3, r: Repo, target: Branch, failing: Failing)
    requires r.work in r.refs && target in r.refs
  {
    if !FallsBack(m, r, target, failing) then Merged(m, r.dag, r, target).Some?
    else
      && WorktreeAdd !in failing && TmpMerge !in failing
      && (HasWork(r, target) || Merged(m, SeenBy(m, r, target, failing), r, target).Some?)
  }

  predicate LandsHere(m: Merge3, r: Repo, target: Branch, failing: Failing)
    requires r.work in r.refs && target in r.refs
  {
    && !DirtySeen(r, failing) && !Stuck(r, failing) && MainMerge !in failing
    && (HasWork(r, target) || Merged(m, r.dag, r, target).Some?)
  }

  // Exactly if the work is seen to be merged, or merges without conflicts on a
  // path on which no command fails and no edits are in the way.
  lemma LandsExactly(m: Merge3, r: Repo, base: Branch, failing: Failing)
    requires Sound(r)
    ensures var target := Target(r, base);
            Succeeded(Land(m, r, base, failing).1) <==>
              && target in r.refs
              && (|| SeenMerged(r, target, failing)
                  || (if target != r.current then LandsElsewhere(m, r, target, failing)
                      else LandsHere(m, r, target, failing)))
  {
    LandAnswers(m, r, base, failing);
  }

  // With every command working: exactly if there is a target, the work is merged
  // already or merges without conflicts, and nobody's edits are in the way.
  lemma LandsWithoutFailures(m: Merge3, r: Repo, base: Branch)
    requires Sound(r)
    ensures var target := Target(r, base);
            Succeeded(Land(m, r, base, {}).1) <==>
              && target in r.refs
              && (HasWork(r, target) ||
                  (&& Merged(m, r.dag, r, target).Some?
                   && (target == r.current ==> r.mainMerge.Some? || !r.mainDirty)))
  {
    LandsExactly(m, r, base, {});
  }

  // ---------- which answer ----------

  lemma DirtyMainExactly(m: Merge3, r: Repo, base: Branch, failing: Failing)
    requires Sound(r)
    ensures var (target, l) := (Target(r, base), Land(m, r, base, failing).1);
            && (l.AlreadyMerged? <==> SeenMerged(r, target, failing))
            && (l.DirtyMain? <==>
                  target == r.current && DirtySeen(r, failing) && !SeenMerged(r, target, failing))
  {
    LandAnswers(m, r, base, failing);
  }

  // Conflicts are those of the merge, never another failure.
  lemma ConflictsExactly(m: Merge3, r: Repo, base: Branch, failing: Failing)
    requires Sound(r)
    ensures var target := Target(r, base);
            Land(m, r, base, failing).1.Conflicts? <==>
              && target in r.refs && !SeenMerged(r, target, failing)
              && (if target == r.current then
                    && !DirtySeen(r, failing) && !Stuck(r, failing) && MainMerge !in failing
                    && !HasWork(r, target) && Merged(m, r.dag, r, target).None?
                  else if !FallsBack(m, r, target, failing) then Merged(m, r.dag, r, target).None?
                  else
                    && WorktreeAdd !in failing && TmpMerge !in failing
                    && !HasWork(r, target) && Merged(m, SeenBy(m, r, target, failing), r, target).None?)
  {
    LandAnswers(m, r, base, failing);
  }

  lemma CannotPrepareExactly(m: Merge3, r: Repo, base: Branch, failing: Failing)
    requires Sound(r)
    ensures var target := Target(r, base);
            Land(m, r, base, failing).1.CannotPrepare? <==>
              && target != r.current && !SeenMerged(r, target, failing)
              && (target !in r.refs || (FallsBack(m, r, target, failing) && WorktreeAdd in failing))
  {
    LandAnswers(m, r, base, failing);
  }

  // ---------- what a landing leaves behind ----------

  // A merge of the target's tip and the work tip, with the tree the merge gave.
  predicate MergeOf(m: Merge3, d: Dag, r: Repo, target: Branch, x: Commit)
    requires r.work in r.refs && target in r.refs
  {
    x.parents == [r.refs[target], r.refs[r.work]] && Merged(m, d, r, target) == Some(x.tree)
  }

  // Nothing but the target has moved, and that by one such merge at the end of
  // the history.
  predicate MovedByMerge(m: Merge3, d: Dag, r: Repo, r': Repo, target: Branch)
    requires r.work in r.refs && target in r.refs
  {
    && |r'.dag| == |d| + 1 && d <= r'.dag && r'.refs == r.refs[target := |d|]
    && MergeOf(m, d, r, target, r'.dag[|d|])
  }

  lemma MergedRepo(m: Merge3, r: Repo, target: Branch)
    requires r.work in r.refs && target in r.refs
    ensures var (r', l) := MergeInto(m, r, target);
            if l.Landed? && !HasWork(r, target) then MovedByMerge(m, r.dag, r, r', target) else r'.refs == r.refs
  {
  }

  lemma ViaTreeRepo(m: Merge3, r: Repo, target: Branch, failing: Failing)
    requires r.work in r.refs && target in r.refs && !FallsBack(m, r, target, failing)
    ensures var (r', l) := ViaTree(m, r, target, failing);
            if Merged(m, r.dag, r, target).Some? then MovedByMerge(m, r.dag, r, r', target) else r'.refs == r.refs
  {
  }

  lemma ElsewhereRepo(m: Merge3, r: Repo, target: Branch, failing: Failing)
    requires Sound(r) && target in r.refs
    ensures var r' := IntoTargetWorktree(m, r, target, failing).0;
            var d := if FallsBack(m, r, target, failing) then SeenBy(m, r, target, failing) else r.dag;
            if LandsElsewhere(m, r, target, failing) && !(FallsBack(m, r, target, failing) && HasWork(r, target))
            then MovedByMerge(m, d, r, r', target)
            else r'.refs == r.refs
  {
    if FallsBack(m, r, target, failing) {
      FallbackRepo(m, r, target, failing);
      SameAncestry(m, r, target, failing);
      MergedRepo(m, r.(dag := SeenBy(m, r, target, failing)), target);
    } else {
      ViaTreeRepo(m, r, target, failing);
    }
  }

  lemma HereRepo(m: Merge3, r: Repo, r1: Repo, target: Branch, failing: Failing)
    requires r.work in r.refs && r1 == RecoverMain(r, failing) && target in r.refs
    ensures var r' := InPlace(m, r1, target, failing).0;
            if LandsHere(m, r, target, failing) && !HasWork(r, target) then MovedByMerge(m, r.dag, r, r', target)
            else r'.refs == r.refs
  {
    MergedRepo(m, r1, target);
  }

  // The history a new commit of the target is made on.
  function MadeOn(m: Merge3, r: Repo, target: Branch, failing: Failing): Dag
    requires r.work in r.refs && target in r.refs
  {
    if target != r.current && FallsBack(m, r, target, failing) then SeenBy(m, r, target, failing) else r.dag
  }

  // A landing leaves the target alone if the work is there and is seen, and
  // otherwise adds one merge of its old tip and the work tip; no other answer
  // moves anything.
  lemma LandedCommit(m: Merge3, r: Repo, base: Branch, failing: Failing)
    requires Sound(r)
    ensures var (r', l) := Land(m, r, base, failing);
            var target := Target(r, base);
            if l.Landed? then
              && target in r.refs
              && (r'.refs == r.refs || MovedByMerge(m, MadeOn(m, r, target, failing), r, r', target))
              && (r'.refs == r.refs ==> HasWork(r, target))
            else r'.refs == r.refs
  {
    var r1, target := RecoverMain(r, failing), Target(r, base);
    LandsExactly(m, r, base, failing);
    LandAnswers(m, r, base, failing);
    if target in r.refs && !SeenMerged(r, target, failing) {
      if target == r.current { HereRepo(m, r, r1, target, failing); }
      else { ElsewhereMoves(m, r, r1, target, failing); }
    }
  }

  lemma ElsewhereMoves(m: Merge3, r: Repo, r1: Repo, target: Branch, failing: Failing)
    requires Sound(r) && r1 == RecoverMain(r, failing) && target in r.refs && target != r.current
    ensures var (r', l) := IntoTargetWorktree(m, r1, target, failing);
            && (l.Landed? <==> LandsElsewhere(m, r, target, failing))
            && (r'.refs == r.refs ||
                (l.Landed? && MovedByMerge(m, MadeOn(m, r, target, failing), r, r', target)))
            && (l.Landed? && r'.refs == r.refs ==> HasWork(r, target))
  {
    ElsewhereAnswers(m, r1, target, failing);
    SameElsewhere(m, r, r1, target, failing);
    ElsewhereRepo(m, r1, target, failing);
    assert Sound(r1) ==> r.refs[target] < |MadeOn(m, r, target, failing)|;
  }

  // The main tree: an old merge is gone if it could be aborted, here or after
  // the failed merge; a new one is left only by a conflict that could not be.
  lemma MainTreeAfter(m: Merge3, r: Repo, base: Branch, failing: Failing)
    requires r.work in r.refs
    ensures var (r', l) := Land(m, r, base, failing);
            var target := Target(r, base);
            var tried := target == r.current && !SeenMerged(r, target, failing) && !DirtySeen(r, failing);
            var cleared := r.mainMerge.Some? && (MainAbort !in failing || (tried && MainUndo !in failing));
            var left := target == r.current && l.Conflicts? && MainUndo in failing;
            && r'.mainMerge == (if left then Some(r.refs[r.work]) else if cleared then None else r.mainMerge)
            && r'.mainDirty == (left || (r.mainDirty && !cleared))
  {
    var r1, target := RecoverMain(r, failing), Target(r, base);
    if target == r.current { HereMain(m, r1, target, failing); } else { ElsewhereMain(m, r1, target, failing); }
  }

  lemma HereMain(m: Merge3, r: Repo, target: Branch, failing: Failing)
    requires r.work in r.refs
    ensures var (r', l) := InPlace(m, r, target, failing);
            var undone := r.mainMerge.Some? && !(r.mainDirty && MainStatus !in failing) && MainUndo !in failing;
            if l.Conflicts? && MainUndo in failing then r'.mainMerge == Some(r.refs[r.work]) && r'.mainDirty
            else r'.mainMerge == (if undone then None else r.mainMerge) && r'.mainDirty == (r.mainDirty && !undone)
  {
  }

  lemma ElsewhereMain(m: Merge3, r: Repo, target: Branch, failing: Failing)
    requires r.work in r.refs
    ensures var r' := IntoTargetWorktree(m, r, target, failing).0;
            r'.mainMerge == r.mainMerge && r'.mainDirty == r.mainDirty
  {
  }

  // ---------- pending edits ----------

  predicate CommitsEdits(r: Repo, failing: Failing) {
    r.wtDirty && WtStatus !in failing && WtCommit !in failing
  }

  predicate EditsStay(r: Repo, failing: Failing) {
    r.wtDirty && WtStatus !in failing && WtCommit in failing
  }

  // The repository once pending edits are committed: a paused merge is concluded.
  function Tidied(r: Repo, tree: Tree, failing: Failing): Repo
    requires r.work in r.refs
  {
    if CommitsEdits(r, failing) then
      var tip := r.refs[r.work];
      r.(dag := r.dag + [Commit(if r.wtMerge.Some? then [tip, r.wtMerge.value] else [tip], tree)],
         refs := r.refs[r.work := |r.dag|], wtDirty := false, wtMerge := None)
    else r
  }

  // mergeTask lands what the commit of pending edits left, unless that failed.
  lemma MergeTaskIsLanding(m: Merge3, r: Repo, base: Branch, tree: Tree, failing: Failing)
    requires r.work in r.refs
    ensures var t := Tidied(r, tree, failing);
            && (MergeTask(m, r, base, tree, failing).1.CommitFailed? <==> EditsStay(r, failing))
            && MergeTask(m, r, base, tree, failing)
               == if EditsStay(r, failing) then (r, CommitFailed) else Land(m, t, base, failing)
  {
  }

  // ---------- prepareWorktreeMerge ----------

  predicate SeenPaused(r: Repo, failing: Failing) {
    r.wtMerge.Some? && Probe !in failing
  }

  predicate SeenSynced(r: Repo, base: Branch, failing: Failing)
    requires r.work in r.refs && base in r.refs
  {
    Anc(r.dag, r.refs[base], r.refs[r.work]) && IsAncestor !in failing
  }

  // Nothing stops the trial merge from being tried.
  predicate Tries(r: Repo, base: Branch, failing: Failing)
    requires r.work in r.refs
  {
    base in r.refs && !SeenPaused(r, failing) && !SeenSynced(r, base, failing) && !EditsStay(r, failing)
  }

  // ... nor from running: git refuses while an unseen merge is still paused.
  predicate Runs(r: Repo, failing: Failing) {
    Merge !in failing && (r.wtMerge.None? || CommitsEdits(r, failing))
  }

  function BaseMerged(m: Merge3, t: Repo, base: Branch): Option<Tree>
    requires t.work in t.refs && base in t.refs
  {
    m(t.dag, t.refs[t.work], t.refs[base])
  }

  lemma PrepareAnswers(m: Merge3, r: Repo, base: Branch, tree: Tree, failing: Failing)
    requires r.work in r.refs && base != r.work
    ensures var p := Prepare(m, r, base, tree, failing).1;
            var t := Tidied(r, tree, failing);
            && (p.NoBase? <==> base !in r.refs)
            && (p.PausedAlready? <==> base in r.refs && SeenPaused(r, failing))
            && (p.Synced? <==> base in r.refs && !SeenPaused(r, failing) && SeenSynced(r, base, failing))
            && (p.CannotCommit? <==>
                  && base in r.refs && !SeenPaused(r, failing) && !SeenSynced(r, base, failing)
                  && EditsStay(r, failing))
            && (p.Refused? <==> Tries(r, base, failing) && !Runs(r, failing))
            && (p.MergedCleanly? <==>
                  && Tries(r, base, failing) && Runs(r, failing)
                  && (Anc(t.dag, t.refs[base], t.refs[t.work]) || BaseMerged(m, t, base).Some?))
            && (p.Paused? <==>
                  && Tries(r, base, failing) && Runs(r, failing)
                  && !Anc(t.dag, t.refs[base], t.refs[t.work]) && BaseMerged(m, t, base).None?)
  {
  }

  // The repository when the trial merge is tried.
  function Marked(r: Repo, tree: Tree, failing: Failing): Repo
    requires r.work in r.refs
  {
    var t := Tidied(r, tree, failing);
    t.(marker := if SetMarker in failing then r.marker else Some(t.refs[t.work]))
  }

  // Git refused: an unseen merge is undone and the marker dropped, if that works.
  function RefusedRepo(t: Repo, failing: Failing): Repo {
    var undone := t.wtMerge.Some? && Undo !in failing;
    t.(wtMerge := if undone then None else t.wtMerge,
       wtDirty := t.wtDirty && !undone,
       marker := if ClearMarker in failing then t.marker else None)
  }

  // The base branch was behind the work branch, or has been merged into it.
  predicate CleanRepo(m: Merge3, t: Repo, base: Branch, r': Repo)
    requires t.work in t.refs && base in t.refs
  {
    if Anc(t.dag, t.refs[base], t.refs[t.work]) then r' == t
    else
      && BaseMerged(m, t, base).Some?
      && r' == t.(dag := t.dag + [Commit([t.refs[t.work], t.refs[base]], BaseMerged(m, t, base).value)],
                  refs := t.refs[t.work := |t.dag|])
  }

  lemma TrialLeaves(m: Merge3, t: Repo, base: Branch, failing: Failing)
    requires t.work in t.refs && base in t.refs
    ensures var (r', p) := TrialMerge(m, t, base, failing);
            match p
            case Refused => r' == RefusedRepo(t, failing)
            case Paused => r' == t.(wtMerge := Some(t.refs[base]), wtDirty := true)
            case MergedCleanly => t.wtMerge.None? && CleanRepo(m, t, base, r')
            case _ => false
  {
  }

  lemma PrepareTries(m: Merge3, r: Repo, base: Branch, tree: Tree, failing: Failing)
    requires r.work in r.refs && base != r.work
    ensures var t := Marked(r, tree, failing);
            Prepare(m, r, base, tree, failing)
            == if Tries(r, base, failing) then TrialMerge(m, t, base, failing)
               else (r, Prepare(m, r, base, tree, failing).1)
  {
  }

  lemma PrepareLeaves(m: Merge3, r: Repo, base: Branch, tree: Tree, failing: Failing)
    requires r.work in r.refs && base != r.work
    ensures var (r', p) := Prepare(m, r, base, tree, failing);
            var t := Marked(r, tree, failing);
            match p
            case Refused => r' == RefusedRepo(t, failing)
            case Paused => base in r.refs && r' == t.(wtMerge := Some(r.refs[base]), wtDirty := true)
            case MergedCleanly => base in t.refs && t.wtMerge.None? && CleanRepo(m, t, base, r')
            case _ => r' == r
  {
    PrepareTries(m, r, base, tree, failing);
    PrepareAnswers(m, r, base, tree, failing);
    if Tries(r, base, failing) { TrialLeaves(m, Marked(r, tree, failing), base, failing); }
  }

  // A clean answer is what the caller takes it for: the base branch is behind the
  // work branch, and nothing is paused unless the merge was there unseen.
  lemma CleanMeansContained(m: Merge3, r: Repo, base: Branch, tree: Tree, failing: Failing)
    requires Sound(r) && base != r.work
    ensures var (r', p) := Prepare(m, r, base, tree, failing);
            && (p.Synced? || p.MergedCleanly? ==>
                  r'.work in r'.refs && base in r'.refs && Anc(r'.dag, r'.refs[base], r'.refs[r'.work]))
            && (p.MergedCleanly? ==> r'.wtMerge.None?)
            && (p.Synced? && r'.wtMerge.Some? ==> Probe in failing)
  {
    var (r', p) := Prepare(m, r, base, tree, failing);
    PrepareLeaves(m, r, base, tree, failing);
    PrepareAnswers(m, r, base, tree, failing);
    if p.MergedCleanly? {
      MarkedSound(r, tree, failing);
      CleanContains(m, Marked(r, tree, failing), base, r');
    }
  }

  lemma CleanContains(m: Merge3, t: Repo, base: Branch, r': Repo)
    requires Sound(t) && base in t.refs && base != t.work && CleanRepo(m, t, base, r')
    ensures r'.work in r'.refs && base in r'.refs && Anc(r'.dag, r'.refs[base], r'.refs[r'.work])
  {
    if r' != t { MergeContains(t.dag, t.refs[t.work], t.refs[base], BaseMerged(m, t, base).value); }
  }

  lemma MarkedSound(r: Repo, tree: Tree, failing: Failing)
    requires Sound(r)
    ensures Sound(Marked(r, tree, failing))
  {
    TidiedSound(r, tree, failing);
  }

  lemma TidiedSound(r: Repo, tree: Tree, failing: Failing)
    requires Sound(r)
    ensures Sound(Tidied(r, tree, failing))
  {
  }

  lemma MergeContains(d: Dag, w: nat, b: nat, tree: Tree)
    requires WellFormed(d) && w < |d| && b < |d|
    ensures Anc(d + [Commit([w, b], tree)], b, |d|)
  {
    var x := Commit([w, b], tree);
    AncNew(d, x, b);
    assert x.parents[1] == b && Anc(d, b, b);
  }

  // ---------- completeWorktreeMerge ----------

  // The repository once a paused merge that was seen has been concluded.
  function Concluded(r: Repo, tree: Tree, failing: Failing): Repo
    requires r.work in r.refs
  {
    if SeenPaused(r, failing) then
      r.(dag := r.dag + [Commit([r.refs[r.work], r.wtMerge.value], tree)],
         refs := r.refs[r.work := |r.dag|], wtDirty := false, wtMerge := None)
    else r
  }

  lemma CompleteExactly(m: Merge3, r: Repo, base: Branch, tree: Tree, failing: Failing)
    requires r.work in r.refs
    ensures var (r', c) := Complete(m, r, base, tree, failing);
            && (c.LeftoverMarkers? <==> MarkersLeft in failing)
            && (c.CannotConclude? <==> MarkersLeft !in failing && SeenPaused(r, failing) && Conclude in failing)
            && (c.LeftoverMarkers? || c.CannotConclude? ==> r' == r)
            && (c.Landing? ==>
                  var (landed, l) := MergeTask(m, Concluded(r, tree, failing), base, tree, failing);
                  && c.l == l
                  && r' == landed.(marker := if (l.Landed? || l.AlreadyMerged?) && ClearMarker !in failing then None
                                             else landed.marker))
  {
  }

  // ---------- prepare, then complete ----------

  // A tip that has the other one behind it merges to its own tree.
  ghost predicate TakesDescendant(m: Merge3) {
    forall d: Dag, a: nat, b: nat :: b < |d| && Anc(d, a, b) ==> m(d, a, b) == Some(d[b].tree)
  }

  // When preparing answers that it is clean, completing right after it lands, as
  // long as the commands work and nobody's edits are in the main tree.
  lemma CleanPrepareLands(m: Merge3, r: Repo, base: Branch, tree: Tree, later: Tree)
    requires Sound(r) && base != r.work && TakesDescendant(m)
    requires base == r.current ==> r.mainMerge.Some? || !r.mainDirty
    requires var p := Prepare(m, r, base, tree, {}).1; p.Synced? || p.MergedCleanly?
    ensures var r' := Prepare(m, r, base, tree, {}).0;
            r'.work in r'.refs &&
            var c := Complete(m, r', base, later, {}).1;
            c.Landing? && Succeeded(c.l)
  {
    var r', p := Prepare(m, r, base, tree, {}).0, Prepare(m, r, base, tree, {}).1;
    PreparedSound(m, r, base, tree);
    CleanMeansContained(m, r, base, tree, {});
    PrepareLeaves(m, r, base, tree, {});
    CompleteExactly(m, r', base, later, {});
    MergeTaskIsLanding(m, r', base, later, {});
    StillContained(r', base, later);
    var t := Tidied(r', later, {});
    assert Merged(m, t.dag, t, base).Some?;
    LandsWithoutFailures(m, t, base);
  }

  lemma PreparedSound(m: Merge3, r: Repo, base: Branch, tree: Tree)
    requires Sound(r) && base != r.work
    requires var p := Prepare(m, r, base, tree, {}).1; p.Synced? || p.MergedCleanly?
    ensures var r' := Prepare(m, r, base, tree, {}).0;
            && Sound(r') && r'.wtMerge.None? && r'.current == r.current && r'.work == r.work
            && r'.mainMerge == r.mainMerge && r'.mainDirty == r.mainDirty && base in r'.refs
  {
    PrepareLeaves(m, r, base, tree, {});
    PrepareAnswers(m, r, base, tree, {});
    MarkedSound(r, tree, {});
  }

  lemma StillContained(r: Repo, base: Branch, tree: Tree)
    requires Sound(r) && r.wtMerge.None? && base in r.refs && base != r.work
    requires Anc(r.dag, r.refs[base], r.refs[r.work])
    ensures var t := Tidied(r, tree, {});
            Sound(t) && Anc(t.dag, t.refs[base], t.refs[t.work])
  {
    TidiedSound(r, tree, {});
    if r.wtDirty {
      var x := Commit([r.refs[r.work]], tree);
      AncNew(r.dag, x, r.refs[base]);
      assert x.parents[0] == r.refs[r.work];
    }
  }

  // ---------- fastForwardWorktree ----------

  lemma FastForwardExactly(r: Repo, base: Branch, failing: Failing)
    requires r.work in r.refs
    ensures var (r', ok) := FastForward(r, base, failing);
            && (ok <==>
                  && FfOnly !in failing && r.wtMerge.None? && base in r.refs
                  && (Anc(r.dag, r.refs[base], r.refs[r.work]) || Anc(r.dag, r.refs[r.work], r.refs[base])))
            && r' == if ok && !Anc(r.dag, r.refs[base], r.refs[r.work])
                     then r.(refs := r.refs[r.work := r.refs[base]]) else r
  {
  }
}
