// Landing a task's branch, and preparing, abandoning and completing a conflict
// resolution (lib/git.ts).
//
// Every git command can fail, and then changes nothing; which ones do is an
// argument, the set of the commands that fail this time.
module GitMerge {
  import opened Wrappers
  import opened GitDag

  datatype Cmd =
    | WtStatus | WtCommit                                       // commitWorktree
    | MainAbort | RevList | MainStatus | MainMerge | MainUndo   // mergeTask
    | MergeTree | ParseConflicts | RevParse | CommitTree | UpdateRef   // mergeViaTree
    | WorktreeAdd | TmpMerge                                    // mergeIntoTargetWorktree
    | Probe | IsAncestor | SetMarker | Merge | Undo | ClearMarker | Parents | AbortStatus | Reset
    | MarkersLeft | Conclude | FfOnly

  type Failing = set<Cmd>

  datatype Landing =
    | Landed
    | AlreadyMerged
    | CommitFailed
    | DirtyMain
    | Conflicts
    | CannotPrepare
    | MergeFailed

  predicate Succeeded(l: Landing) {
    l.Landed? || l.AlreadyMerged?
  }

  // ---------- commitWorktree ----------

  // Committing while a merge is paused concludes it.
  function CommitOnWork(r: Repo, tree: Tree): Repo
    requires r.work in r.refs
  {
    var parents := if r.wtMerge.Some? then [Tip(r, r.work), r.wtMerge.value] else [Tip(r, r.work)];
    Advance(r, r.work, parents, tree).(wtDirty := false, wtMerge := None)
  }

  function CommitWorktree(r: Repo, tree: Tree, failing: Failing): (Repo, bool)
    requires r.work in r.refs
  {
    if !r.wtDirty || WtStatus in failing then (r, true)
    else if WtCommit in failing then (r, false)
    else (CommitOnWork(r, tree), true)
  }

  // ---------- mergeViaTree and the two worktree merges ----------

  // `git merge --no-ff` of the work branch into `target`, conflicts undone.
  function MergeInto(m: Merge3, r: Repo, target: Branch): (Repo, Landing)
    requires r.work in r.refs && target in r.refs
  {
    if Anc(r.dag, Tip(r, r.work), Tip(r, target)) then (r, Landed)     // "Already up to date."
    else
      match m(r.dag, Tip(r, target), Tip(r, r.work))
      case None => (r, Conflicts)
      case Some(tree) => (Advance(r, target, [Tip(r, target), Tip(r, r.work)], tree), Landed)
  }

  function ViaTree(m: Merge3, r: Repo, target: Branch, failing: Failing): (Repo, Option<Landing>)
    requires r.work in r.refs
  {
    if target !in r.refs || MergeTree in failing then (r, None)
    else
      match m(r.dag, Tip(r, target), Tip(r, r.work))
      case None => (r, if ParseConflicts in failing then None else Some(Conflicts))
      case Some(tree) =>
        if RevParse in failing || CommitTree in failing then (r, None)
        else
          var r' := Advance(r, target, [Tip(r, target), Tip(r, r.work)], tree);
          if UpdateRef in failing then (r'.(refs := r.refs), None)      // a dangling commit at worst
          else (r', Some(Landed))
  }

  function IntoTargetWorktree(m: Merge3, r: Repo, target: Branch, failing: Failing): (Repo, Landing)
    requires r.work in r.refs
  {
    var (r1, fast) := ViaTree(m, r, target, failing);
    if fast.Some? then (r1, fast.value)
    else if target !in r1.refs || WorktreeAdd in failing then (r1, CannotPrepare)
    else if TmpMerge in failing then (r1, MergeFailed)
    else MergeInto(m, r1, target)
  }

  // ---------- mergeTask ----------

  // A merge a crash left in the main tree is aborted first.
  function RecoverMain(r: Repo, failing: Failing): Repo {
    if r.mainMerge.Some? && MainAbort !in failing then r.(mainMerge := None, mainDirty := false) else r
  }

  function TargetOf(r: Repo, base: Branch): Branch {
    if base in r.refs then base else if r.current != "" then r.current else base
  }

  // `git merge --abort` in the main tree after a failed merge, errors ignored.
  function UndoMain(r: Repo, failing: Failing): Repo {
    if r.mainMerge.Some? && MainUndo !in failing then r.(mainMerge := None, mainDirty := false) else r
  }

  function InPlace(m: Merge3, r: Repo, target: Branch, failing: Failing): (Repo, Landing)
    requires r.work in r.refs
  {
    if r.mainDirty && MainStatus !in failing then (r, DirtyMain)
    else if MainMerge in failing || target !in r.refs || r.mainMerge.Some? then (UndoMain(r, failing), MergeFailed)
    else
      var (r', l) := MergeInto(m, r, target);
      if l.Conflicts? && MainUndo in failing then (r'.(mainMerge := Some(Tip(r, r.work)), mainDirty := true), l)
      else (r', l)
  }

  function Land(m: Merge3, r: Repo, base: Branch, failing: Failing): (Repo, Landing)
    requires r.work in r.refs
  {
    var r1 := RecoverMain(r, failing);
    LandOn(m, r1, TargetOf(r1, base), failing)
  }

  function LandOn(m: Merge3, r: Repo, target: Branch, failing: Failing): (Repo, Landing)
    requires r.work in r.refs
  {
    if target in r.refs && RevList !in failing && Anc(r.dag, Tip(r, r.work), Tip(r, target)) then (r, AlreadyMerged)
    else if target != r.current then IntoTargetWorktree(m, r, target, failing)
    else InPlace(m, r, target, failing)
  }

  function MergeTask(m: Merge3, r: Repo, base: Branch, tree: Tree, failing: Failing): (Repo, Landing)
    requires r.work in r.refs
  {
    var (r1, committed) := CommitWorktree(r, tree, failing);
    if !committed then (r1, CommitFailed) else Land(m, r1, base, failing)
  }

  // ---------- prepareWorktreeMerge ----------

  datatype Prepared = NoBase | PausedAlready | Synced | CannotCommit | MergedCleanly | Paused | Refused

  function SetMarkerHere(r: Repo, failing: Failing): Repo
    requires r.work in r.refs
  {
    if SetMarker in failing then r else r.(marker := Some(Tip(r, r.work)))
  }

  function DropMarker(r: Repo, failing: Failing): Repo {
    if ClearMarker in failing then r else r.(marker := None)
  }

  // `git merge --abort` in the worktree, errors ignored.
  function UndoMerge(r: Repo, failing: Failing): Repo {
    if r.wtMerge.Some? && Undo !in failing then r.(wtMerge := None, wtDirty := false) else r
  }

  function Prepare(m: Merge3, r: Repo, base: Branch, tree: Tree, failing: Failing): (Repo, Prepared)
    requires r.work in r.refs
  {
    if base !in r.refs then (r, NoBase)
    else if r.wtMerge.Some? && Probe !in failing then (r, PausedAlready)
    else if IsAncestor !in failing && Anc(r.dag, Tip(r, base), Tip(r, r.work)) then (r, Synced)
    else
      var (r1, committed) := CommitWorktree(r, tree, failing);
      if !committed then (r1, CannotCommit)
      else TrialMerge(m, SetMarkerHere(r1, failing), base, failing)
  }

  // `git merge --no-ff` of the base branch into the work branch, conflicts kept.
  function TrialMerge(m: Merge3, r: Repo, base: Branch, failing: Failing): (Repo, Prepared)
    requires r.work in r.refs && base in r.refs
  {
    if Merge in failing || r.wtMerge.Some? then (DropMarker(UndoMerge(r, failing), failing), Refused)
    else if Anc(r.dag, Tip(r, base), Tip(r, r.work)) then (r, MergedCleanly)
    else
      match m(r.dag, Tip(r, r.work), Tip(r, base))
      case None => (r.(wtMerge := Some(Tip(r, base)), wtDirty := true), Paused)
      case Some(merged) => (Advance(r, r.work, [Tip(r, r.work), Tip(r, base)], merged), MergedCleanly)
  }

  // ---------- abortWorktreeMerge ----------

  // HEAD is a merge whose first parent is the marker.
  predicate OurMerge(r: Repo, failing: Failing)
    requires r.work in r.refs
  {
    var head := Tip(r, r.work);
    && r.marker.Some? && Parents !in failing
    && head < |r.dag| && IsMerge(r.dag, head) && r.dag[head].parents[0] == r.marker.value
  }

  // A status that fails reads as a clean tree.
  predicate SeenClean(r: Repo, failing: Failing) {
    !r.wtDirty || AbortStatus in failing
  }

  predicate Resets(r: Repo, failing: Failing)
    requires r.work in r.refs
  {
    (r.wtMerge.None? || Probe in failing) && OurMerge(r, failing) && SeenClean(r, failing) && Reset !in failing
  }

  function Abort(r: Repo, failing: Failing): Repo
    requires r.work in r.refs
  {
    if r.wtMerge.Some? && Probe !in failing then DropMarker(UndoMerge(r, failing), failing)
    else if r.marker.None? then r
    else if Resets(r, failing) then
      DropMarker(r.(refs := r.refs[r.work := r.marker.value], wtDirty := false, wtMerge := None), failing)
    else DropMarker(r, failing)
  }

  // ---------- completeWorktreeMerge ----------

  datatype Completion = LeftoverMarkers | CannotConclude | Landing(l: Landing)

  function Complete(m: Merge3, r: Repo, base: Branch, tree: Tree, failing: Failing): (Repo, Completion)
    requires r.work in r.refs
  {
    if MarkersLeft in failing then (r, LeftoverMarkers)
    else if r.wtMerge.Some? && Probe !in failing && Conclude in failing then (r, CannotConclude)
    else
      var r1 := if r.wtMerge.Some? && Probe !in failing then CommitOnWork(r, tree) else r;
      var (r2, l) := MergeTask(m, r1, base, tree, failing);
      (if Succeeded(l) then DropMarker(r2, failing) else r2, Landing(l))
  }

  // ---------- fastForwardWorktree ----------

  function FastForward(r: Repo, base: Branch, failing: Failing): (Repo, bool)
    requires r.work in r.refs
  {
    if FfOnly in failing || r.wtMerge.Some? || base !in r.refs then (r, false)
    else if Anc(r.dag, Tip(r, base), Tip(r, r.work)) then (r, true)
    else if Anc(r.dag, Tip(r, r.work), Tip(r, base)) then (r.(refs := r.refs[r.work := Tip(r, base)]), true)
    else (r, false)
  }
}
