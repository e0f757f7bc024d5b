// mergeViaTree one command at a time, with other writers in between.
//
// `merge-tree` reads both branches by name, the two `rev-parse` read them again,
// in either order, and `update-ref` moves the target only from the tip read
// then.  A writer is any process that does not hold the repo lock: it commits on
// a branch or moves one forward.
module GitRace {
  import opened Wrappers
  import opened GitDag
  import opened GitMerge

  datatype Race = Race(
    repo: Repo,
    seen: Option<(nat, nat)>,   // the tips of target and work branch merge-tree saw
    tree: Option<Tree>,
    oldTip: Option<nat>,
    workTip: Option<nat>,
    commit: Option<nat>,
    answer: Option<Option<Landing>>)

  datatype Event =
    | RunMergeTree(ok: bool, parsed: bool)
    | ReadTarget(ok: bool)
    | ReadWork(ok: bool)
    | RunCommitTree(ok: bool)
    | RunUpdateRef(ok: bool)
    | WriterCommits(branch: Branch, others: seq<nat>, content: Tree)
    | WriterForwards(branch: Branch, to: nat)

  function Begin(r: Repo): Race {
    Race(r, None, None, None, None, None, None)
  }

  function GiveUp(x: Race): Race {
    x.(answer := Some(None))
  }

  // ---------- the commands ----------

  function MergeTreeStep(m: Merge3, x: Race, target: Branch, ok: bool, parsed: bool): Race {
    var r := x.repo;
    if x.seen.Some? then x
    else if !ok || target !in r.refs || r.work !in r.refs then GiveUp(x)
    else
      var tips := (r.refs[target], r.refs[r.work]);
      match m(r.dag, tips.0, tips.1)
      case None => x.(seen := Some(tips), answer := Some(if parsed then Some(Conflicts) else None))
      case Some(tree) => x.(seen := Some(tips), tree := Some(tree))
  }

  function ReadTargetStep(x: Race, target: Branch, ok: bool): Race {
    if x.tree.None? || x.oldTip.Some? then x
    else if !ok || target !in x.repo.refs then GiveUp(x)
    else x.(oldTip := Some(x.repo.refs[target]))
  }

  function ReadWorkStep(x: Race, ok: bool): Race {
    if x.tree.None? || x.workTip.Some? then x
    else if !ok || x.repo.work !in x.repo.refs then GiveUp(x)
    else x.(workTip := Some(x.repo.refs[x.repo.work]))
  }

  function CommitTreeStep(x: Race, ok: bool): Race {
    if x.tree.None? || x.oldTip.None? || x.workTip.None? || x.commit.Some? then x
    else if !ok then GiveUp(x)
    else
      x.(repo := x.repo.(dag := x.repo.dag + [Commit([x.oldTip.value, x.workTip.value], x.tree.value)]),
         commit := Some(|x.repo.dag|))
  }

  // `update-ref` compares the target with the tip that was read.
  function UpdateRefStep(x: Race, target: Branch, ok: bool): Race {
    if x.commit.None? || x.oldTip.None? then x
    else if !ok || target !in x.repo.refs || x.repo.refs[target] != x.oldTip.value then GiveUp(x)
    else
      x.(repo := x.repo.(refs := x.repo.refs[target := x.commit.value]), answer := Some(Some(Landed)))
  }

  // ---------- the writers ----------

  function WriterStep(r: Repo, e: Event): Repo {
    match e
    case WriterCommits(b, others, content) =>
      if b in r.refs && forall i :: 0 <= i < |others| ==> others[i] < |r.dag|
      then Advance(r, b, [r.refs[b]] + others, content) else r
    case WriterForwards(b, to) =>
      if b in r.refs && to < |r.dag| && Anc(r.dag, r.refs[b], to) then r.(refs := r.refs[b := to]) else r
    case _ => r
  }

  function Step(m: Merge3, target: Branch, x: Race, e: Event): Race {
    if e.WriterCommits? || e.WriterForwards? then x.(repo := WriterStep(x.repo, e))
    else if x.answer.Some? then x
    else
      match e
      case RunMergeTree(ok, parsed) => MergeTreeStep(m, x, target, ok, parsed)
      case ReadTarget(ok) => ReadTargetStep(x, target, ok)
      case ReadWork(ok) => ReadWorkStep(x, ok)
      case RunCommitTree(ok) => CommitTreeStep(x, ok)
      case RunUpdateRef(ok) => UpdateRefStep(x, target, ok)
      case _ => x
  }

  function Run(m: Merge3, target: Branch, x: Race, es: seq<Event>): Race
    decreases |es|
  {
    if es == [] then x else Step(m, target, Run(m, target, x, es[..|es| - 1]), es[|es| - 1])
  }

  // ---------- when a command or a writer does something ----------

  // The command is the next one to run, or one of the two reads.
  predicate Due(x: Race, e: Event) {
    && x.answer.None?
    && match e
       case RunMergeTree(_, _) => x.seen.None?
       case ReadTarget(_) => x.tree.Some? && x.oldTip.None?
       case ReadWork(_) => x.tree.Some? && x.workTip.None?
       case RunCommitTree(_) => x.oldTip.Some? && x.workTip.Some? && x.tree.Some? && x.commit.None?
       case RunUpdateRef(_) => x.oldTip.Some? && x.commit.Some?
       case _ => false
  }

  predicate Fails(e: Event) {
    match e
    case RunMergeTree(ok, _) => !ok
    case ReadTarget(ok) => !ok
    case ReadWork(ok) => !ok
    case RunCommitTree(ok) => !ok
    case RunUpdateRef(ok) => !ok
    case _ => false
  }

  // A command that is not due does nothing, and one that fails gives up and
  // leaves the repository to the fallback.
  lemma FailureGivesUp(m: Merge3, target: Branch, x: Race, e: Event)
    requires !e.WriterCommits? && !e.WriterForwards?
    ensures !Due(x, e) ==> Step(m, target, x, e) == x
    ensures Due(x, e) && Fails(e) ==> Step(m, target, x, e) == x.(answer := Some(None))
  {
  }

  // Writers act at any time, and on nothing but their branch.
  lemma WritersAct(m: Merge3, target: Branch, x: Race, b: Branch, others: seq<nat>, content: Tree, to: nat)
    requires b in x.repo.refs && to < |x.repo.dag| && Anc(x.repo.dag, x.repo.refs[b], to)
    requires forall i :: 0 <= i < |others| ==> others[i] < |x.repo.dag|
    ensures Step(m, target, x, WriterForwards(b, to)) == x.(repo := x.repo.(refs := x.repo.refs[b := to]))
    ensures Step(m, target, x, WriterCommits(b, others, content))
         == x.(repo := x.repo.(dag := x.repo.dag + [Commit([x.repo.refs[b]] + others, content)],
                               refs := x.repo.refs[b := |x.repo.dag|]))
  {
  }

  // ---------- without writers this is mergeViaTree ----------

  function Script(failing: Failing): seq<Event> {
    [RunMergeTree(MergeTree !in failing, ParseConflicts !in failing), ReadTarget(RevParse !in failing), ReadWork(true),
     RunCommitTree(CommitTree !in failing), RunUpdateRef(UpdateRef !in failing)]
  }

  lemma RunFive(m: Merge3, target: Branch, x: Race, a: Event, b: Event, c: Event, d: Event, e: Event)
    ensures Run(m, target, x, [a, b, c, d, e])
         == Step(m, target, Step(m, target, Step(m, target, Step(m, target, Step(m, target, x, a), b), c), d), e)
  {
    var es := [a, b, c, d, e];
    assert es[..4] == [a, b, c, d] && [a, b, c, d][..3] == [a, b, c] && [a, b, c][..2] == [a, b] && [a, b][..1] == [a];
    assert Run(m, target, x, [a]) == Step(m, target, x, a);
    assert Run(m, target, x, [a, b]) == Step(m, target, Step(m, target, x, a), b);
    assert Run(m, target, x, [a, b, c]) == Step(m, target, Run(m, target, x, [a, b]), c);
    assert Run(m, target, x, [a, b, c, d]) == Step(m, target, Run(m, target, x, [a, b, c]), d);
  }

  lemma QuietRunIsViaTree(m: Merge3, r: Repo, target: Branch, failing: Failing)
    requires r.work in r.refs
    ensures var x := Run(m, target, Begin(r), Script(failing));
            x.answer.Some? && (x.repo, x.answer.value) == ViaTree(m, r, target, failing)
  {
    var s := Script(failing);
    RunFive(m, target, Begin(r), s[0], s[1], s[2], s[3], s[4]);
  }

  // ---------- no writer's commit is lost ----------

  ghost predicate Inv(target: Branch, x: Race) {
    && WellFormed(x.repo.dag)
    && (forall b :: b in x.repo.refs ==> x.repo.refs[b] < |x.repo.dag|)
    && (x.oldTip.Some? ==> x.oldTip.value < |x.repo.dag|)
    && (x.workTip.Some? ==> x.workTip.value < |x.repo.dag|)
    && (x.seen.Some? ==> x.seen.value.0 < |x.repo.dag| && x.seen.value.1 < |x.repo.dag|)
    && (x.tree.Some? ==> x.seen.Some?)
    && (x.oldTip.Some? || x.workTip.Some? ==> x.tree.Some?)
    && (x.commit.Some? ==>
          && x.tree.Some? && x.oldTip.Some? && x.workTip.Some? && x.commit.value < |x.repo.dag|
          && x.repo.dag[x.commit.value] == Commit([x.oldTip.value, x.workTip.value], x.tree.value))
  }

  // Every branch keeps all it had, and history is not rewritten.
  ghost predicate Grows(x: Race, y: Race) {
    && x.repo.dag <= y.repo.dag && x.repo.work == y.repo.work && x.repo.refs.Keys == y.repo.refs.Keys
    && forall b :: b in x.repo.refs ==> Anc(y.repo.dag, x.repo.refs[b], y.repo.refs[b])
  }

  lemma {:induction false} AncPrefix(d: Dag, d': Dag, a: nat, b: nat)
    requires WellFormed(d) && d <= d' && b < |d| && Anc(d, a, b)
    ensures Anc(d', a, b)
    decreases b
  {
    if a != b {
      var i :| 0 <= i < |d[b].parents| && d[b].parents[i] < b && Anc(d, a, d[b].parents[i]);
      AncPrefix(d, d', a, d[b].parents[i]);
      assert d'[b] == d[b];
    }
  }

  lemma WriterGrows(m: Merge3, target: Branch, x: Race, e: Event)
    requires Inv(target, x) && (e.WriterCommits? || e.WriterForwards?)
    ensures Inv(target, Step(m, target, x, e)) && Grows(x, Step(m, target, x, e))
  {
    if e.WriterCommits? { CommitGrows(m, target, x, e); } else { ForwardGrows(m, target, x, e); }
  }

  lemma CommitGrows(m: Merge3, target: Branch, x: Race, e: Event)
    requires Inv(target, x) && e.WriterCommits?
    ensures Inv(target, Step(m, target, x, e)) && Grows(x, Step(m, target, x, e))
  {
    var r := x.repo;
    if e.branch in r.refs && forall i :: 0 <= i < |e.others| ==> e.others[i] < |r.dag| {
      CommitBehind(r.dag, r.refs[e.branch], e.others, e.content);
    }
  }

  lemma CommitBehind(d: Dag, tip: nat, others: seq<nat>, content: Tree)
    requires WellFormed(d) && tip < |d| && forall i :: 0 <= i < |others| ==> others[i] < |d|
    ensures WellFormed(d + [Commit([tip] + others, content)])
    ensures Anc(d + [Commit([tip] + others, content)], tip, |d|)
  {
    var c := Commit([tip] + others, content);
    AncNew(d, c, tip);
    assert c.parents[0] == tip && Anc(d, tip, c.parents[0]);
  }

  lemma ForwardGrows(m: Merge3, target: Branch, x: Race, e: Event)
    requires Inv(target, x) && e.WriterForwards?
    ensures Inv(target, Step(m, target, x, e)) && Grows(x, Step(m, target, x, e))
  {
  }

  lemma UpdateGrows(x: Race, target: Branch, ok: bool)
    requires Inv(target, x) && x.answer.None?
    ensures Inv(target, UpdateRefStep(x, target, ok)) && Grows(x, UpdateRefStep(x, target, ok))
  {
    if x.commit.Some? && target in x.repo.refs && x.repo.refs[target] == x.oldTip.value {
      var c := x.commit.value;
      assert x.repo.dag[c].parents[0] == x.oldTip.value;
      AncParent(x.repo.dag, c, 0);
    }
  }

  lemma StepGrows(m: Merge3, target: Branch, x: Race, e: Event)
    requires Inv(target, x)
    ensures Inv(target, Step(m, target, x, e)) && Grows(x, Step(m, target, x, e))
  {
    if e.WriterCommits? || e.WriterForwards? {
      WriterGrows(m, target, x, e);
    } else if x.answer.None? && e.RunUpdateRef? {
      UpdateGrows(x, target, e.ok);
    }
  }

  lemma GrowsTrans(target: Branch, x: Race, y: Race, z: Race)
    requires Inv(target, x) && Inv(target, y) && Grows(x, y) && Grows(y, z)
    ensures Grows(x, z)
  {
    forall b | b in x.repo.refs ensures Anc(z.repo.dag, x.repo.refs[b], z.repo.refs[b]) {
      AncPrefix(y.repo.dag, z.repo.dag, x.repo.refs[b], y.repo.refs[b]);
      AncTrans(z.repo.dag, x.repo.refs[b], y.repo.refs[b], z.repo.refs[b]);
    }
  }

  lemma GrowsRefl(x: Race)
    ensures Grows(x, x)
  {
    assert forall b :: b in x.repo.refs ==> Anc(x.repo.dag, x.repo.refs[b], x.repo.refs[b]);
  }

  lemma {:induction false} RunGrows(m: Merge3, target: Branch, x: Race, es: seq<Event>, k: nat)
    requires Inv(target, x) && k <= |es|
    ensures Inv(target, Run(m, target, x, es[..k])) && Inv(target, Run(m, target, x, es))
    ensures Grows(Run(m, target, x, es[..k]), Run(m, target, x, es))
    decreases |es|
  {
    if k < |es| {
      var p := es[..|es| - 1];
      assert p[..k] == es[..k];
      RunGrows(m, target, x, p, k);
      StepGrows(m, target, Run(m, target, x, p), es[|es| - 1]);
      GrowsTrans(target, Run(m, target, x, es[..k]), Run(m, target, x, p), Run(m, target, x, es));
    } else {
      assert es[..k] == es;
      if es != [] {
        RunGrows(m, target, x, es[..k - 1], k - 1);
        StepGrows(m, target, Run(m, target, x, es[..k - 1]), es[k - 1]);
      }
      GrowsRefl(Run(m, target, x, es));
    }
  }

  // In every interleaving the commands take effect in order: the tips are read
  // after the merge, the commit is made of both, and only it is landed.
  lemma CommandsInOrder(m: Merge3, r: Repo, target: Branch, es: seq<Event>)
    requires Sound(r)
    ensures var x := Run(m, target, Begin(r), es);
            && (x.oldTip.Some? || x.workTip.Some? ==> x.tree.Some?)
            && (x.commit.Some? ==>
                  x.oldTip.Some? && x.workTip.Some? && x.commit.value < |x.repo.dag|
                  && x.repo.dag[x.commit.value] == Commit([x.oldTip.value, x.workTip.value], x.tree.value))
            && (x.answer == Some(Some(Landed)) ==> x.commit.Some?)
  {
    RunGrows(m, target, Begin(r), es, 0);
    if Run(m, target, Begin(r), es).answer == Some(Some(Landed)) { LandedStays(m, r, target, es); }
  }

  // In every interleaving, whatever any branch ever held stays behind it: no
  // commit a writer put on the target leaves its history.
  lemma NoWriterLost(m: Merge3, r: Repo, target: Branch, es: seq<Event>, k: nat, b: Branch)
    requires Sound(r) && b in r.refs && k <= |es|
    ensures var x, y := Run(m, target, Begin(r), es[..k]), Run(m, target, Begin(r), es);
            && b in x.repo.refs && b in y.repo.refs
            && Anc(y.repo.dag, x.repo.refs[b], y.repo.refs[b])
  {
    RunGrows(m, target, Begin(r), es, k);
    RunGrows(m, target, Begin(r), es[..k], 0);
    assert es[..k][..0] == [];
  }

  // Once landed, the commit stays behind the target.
  lemma {:induction false} LandedStays(m: Merge3, r: Repo, target: Branch, es: seq<Event>)
    requires Sound(r) && Run(m, target, Begin(r), es).answer == Some(Some(Landed))
    ensures var x := Run(m, target, Begin(r), es);
            Inv(target, x) && x.commit.Some? && target in x.repo.refs
            && Anc(x.repo.dag, x.commit.value, x.repo.refs[target])
    decreases |es|
  {
    var p := es[..|es| - 1];
    var y, x := Run(m, target, Begin(r), p), Run(m, target, Begin(r), es);
    RunGrows(m, target, Begin(r), p, 0);
    StepGrows(m, target, y, es[|es| - 1]);
    if y.answer == Some(Some(Landed)) {
      LandedStays(m, r, target, p);
      AncPrefix(y.repo.dag, x.repo.dag, y.commit.value, y.repo.refs[target]);
      AncTrans(x.repo.dag, x.commit.value, y.repo.refs[target], x.repo.refs[target]);
    } else {
      JustLanded(m, target, y, es[|es| - 1]);
    }
  }

  lemma JustLanded(m: Merge3, target: Branch, y: Race, e: Event)
    requires y.answer != Some(Some(Landed)) && Step(m, target, y, e).answer == Some(Some(Landed))
    ensures var x := Step(m, target, y, e);
            x.commit.Some? && target in x.repo.refs && x.repo.refs[target] == x.commit.value
  {
  }

  // A landing puts both tips that were read behind the target, for good.
  lemma LandedContainsBoth(m: Merge3, r: Repo, target: Branch, es: seq<Event>)
    requires Sound(r) && Run(m, target, Begin(r), es).answer == Some(Some(Landed))
    ensures var x := Run(m, target, Begin(r), es);
            && x.oldTip.Some? && x.workTip.Some? && target in x.repo.refs
            && Anc(x.repo.dag, x.oldTip.value, x.repo.refs[target])
            && Anc(x.repo.dag, x.workTip.value, x.repo.refs[target])
  {
    LandedStays(m, r, target, es);
    CommitContainsBoth(target, Run(m, target, Begin(r), es));
  }

  lemma CommitContainsBoth(target: Branch, x: Race)
    requires Inv(target, x) && x.commit.Some? && target in x.repo.refs
    requires Anc(x.repo.dag, x.commit.value, x.repo.refs[target])
    ensures Anc(x.repo.dag, x.oldTip.value, x.repo.refs[target])
    ensures Anc(x.repo.dag, x.workTip.value, x.repo.refs[target])
  {
    var c := x.commit.value;
    assert x.repo.dag[c].parents[0] == x.oldTip.value && x.repo.dag[c].parents[1] == x.workTip.value;
    AncParent(x.repo.dag, c, 0);
    AncParent(x.repo.dag, c, 1);
    AncTrans(x.repo.dag, x.oldTip.value, c, x.repo.refs[target]);
    AncTrans(x.repo.dag, x.workTip.value, c, x.repo.refs[target]);
  }

  // ---------- exactly when the tree is the merge of the parents ----------

  // The two histories agree on everything behind `a` and `b`.
  ghost predicate SameBehind(d: Dag, d': Dag, a: nat, b: nat) {
    forall c: nat :: Anc(d, c, a) || Anc(d, c, b) ==> c < |d| && c < |d'| && d[c] == d'[c]
  }

  // A merge looks at nothing but the history behind the two tips.
  ghost predicate HistoryOnly(m: Merge3) {
    forall d: Dag, d': Dag, a: nat, b: nat ::
      a < |d| && b < |d| && SameBehind(d, d', a, b) ==> m(d, a, b) == m(d', a, b)
  }

  lemma {:induction false} AncBelow(d: Dag, a: nat, b: nat)
    requires Anc(d, a, b)
    ensures a <= b
    decreases b
  {
    if a != b {
      var i :| 0 <= i < |d[b].parents| && d[b].parents[i] < b && Anc(d, a, d[b].parents[i]);
      AncBelow(d, a, d[b].parents[i]);
    }
  }

  lemma LaterSameBehind(d: Dag, d': Dag, a: nat, b: nat)
    requires d <= d' && a < |d| && b < |d|
    ensures SameBehind(d, d', a, b)
  {
    forall c: nat | Anc(d, c, a) || Anc(d, c, b) ensures c < |d| && c < |d'| && d[c] == d'[c] {
      if Anc(d, c, a) { AncBelow(d, c, a); } else { AncBelow(d, c, b); }
    }
  }

  // The commit's tree is what merging its two parents gives.
  predicate TreeIsMerge(m: Merge3, x: Race)
    requires x.commit.Some? && x.oldTip.Some? && x.workTip.Some?
  {
    m(x.repo.dag, x.oldTip.value, x.workTip.value) == x.tree
  }

  // Neither tip moved between merge-tree and its rev-parse.
  predicate Unmoved(x: Race) {
    x.oldTip.Some? && x.workTip.Some? && x.seen == Some((x.oldTip.value, x.workTip.value))
  }

  lemma {:induction false} SeenTree(m: Merge3, r: Repo, target: Branch, es: seq<Event>)
    requires Sound(r) && HistoryOnly(m)
    ensures Inv(target, Run(m, target, Begin(r), es))
    ensures var x := Run(m, target, Begin(r), es);
            x.tree.Some? ==> m(x.repo.dag, x.seen.value.0, x.seen.value.1) == x.tree
    decreases |es|
  {
    if es != [] {
      var p, e := es[..|es| - 1], es[|es| - 1];
      SeenTree(m, r, target, p);
      var y := Run(m, target, Begin(r), p);
      StepGrows(m, target, y, e);
      if y.seen.Some? { LaterSameBehind(y.repo.dag, Step(m, target, y, e).repo.dag, y.seen.value.0, y.seen.value.1); }
      TreeKept(m, target, y, e);
    }
  }

  lemma TreeKept(m: Merge3, target: Branch, y: Race, e: Event)
    requires Inv(target, y)
    ensures var x := Step(m, target, y, e);
            && (y.seen.Some? ==> x.seen == y.seen && x.tree == y.tree)
            && (y.seen.None? && x.tree.Some? ==> m(x.repo.dag, x.seen.value.0, x.seen.value.1) == x.tree)
  {
  }

  // A merge that gives tree `t` for these two tips and another one for any other.
  function Contrary(tips: (nat, nat), t: Tree): Merge3 {
    (d: Dag, a: nat, b: nat) => Some(if (a, b) == tips then t else t + 1)
  }

  // Before merge-tree ran, no merge function has been asked.
  lemma {:induction false} NotAskedYet(m: Merge3, m': Merge3, x: Race, target: Branch, es: seq<Event>)
    requires x.seen.None? && x.tree.None? && Run(m, target, x, es).seen.None?
    ensures Run(m', target, x, es) == Run(m, target, x, es)
    decreases |es|
  {
    if es != [] { NotAskedYet(m, m', x, target, es[..|es| - 1]); }
  }

  lemma {:induction false} ContraryRuns(m: Merge3, r: Repo, target: Branch, es: seq<Event>)
    requires Sound(r) && Run(m, target, Begin(r), es).tree.Some?
    ensures var x := Run(m, target, Begin(r), es);
            x.seen.Some? && Run(Contrary(x.seen.value, x.tree.value), target, Begin(r), es) == x
    decreases |es|
  {
    var p, e := es[..|es| - 1], es[|es| - 1];
    var y, x := Run(m, target, Begin(r), p), Run(m, target, Begin(r), es);
    RunGrows(m, target, Begin(r), p, 0);
    TreeKept(m, target, y, e);
    if y.tree.Some? {
      ContraryRuns(m, r, target, p);
    } else {
      NotAskedYet(m, Contrary(x.seen.value, x.tree.value), Begin(r), target, p);
    }
  }

  // The tree is the merge of the commit's parents, whatever merge function made
  // this run, exactly if no writer moved either tip between the reads.
  lemma TreeMatchesExactly(m: Merge3, r: Repo, target: Branch, es: seq<Event>)
    requires Sound(r) && HistoryOnly(m) && Run(m, target, Begin(r), es).commit.Some?
    ensures var x := Run(m, target, Begin(r), es);
            && x.oldTip.Some? && x.workTip.Some? && x.tree.Some?
            && (Unmoved(x) <==>
                  forall m' | HistoryOnly(m') && Run(m', target, Begin(r), es) == x :: TreeIsMerge(m', x))
  {
    var x := Run(m, target, Begin(r), es);
    SeenTree(m, r, target, es);
    if Unmoved(x) {
      forall m' | HistoryOnly(m') && Run(m', target, Begin(r), es) == x ensures TreeIsMerge(m', x) {
        SeenTree(m', r, target, es);
      }
    } else {
      var m' := Contrary(x.seen.value, x.tree.value);
      ContraryRuns(m, r, target, es);
      assert HistoryOnly(m') && Run(m', target, Begin(r), es) == x && !TreeIsMerge(m', x);
    }
  }

  // ---------- a writer whose content is dropped ----------

  // A merge that always keeps the target's side.
  function TakeOurs(): Merge3 {
    (d: Dag, a: nat, b: nat) => if a < |d| then Some(d[a].tree) else None
  }

  lemma OursHistoryOnly()
    ensures HistoryOnly(TakeOurs())
  {
    forall d: Dag, d': Dag, a: nat, b: nat | a < |d| && b < |d| && SameBehind(d, d', a, b)
      ensures TakeOurs()(d, a, b) == TakeOurs()(d', a, b)
    {
      OursSame(d, d', a, b);
    }
  }

  lemma OursSame(d: Dag, d': Dag, a: nat, b: nat)
    requires a < |d| && SameBehind(d, d', a, b)
    ensures TakeOurs()(d, a, b) == TakeOurs()(d', a, b)
  {
    assert Anc(d, a, a);
    assert a < |d'| && d[a] == d'[a];
  }

  function Branches(dag: Dag, base: nat): Repo {
    Repo(dag, map["base" := base, "work" := 1], "main", false, None, "work", false, None, None)
  }

  const BEFORE: Dag := [Commit([], 0), Commit([0], 1)]
  const WRITTEN: Dag := BEFORE + [Commit([0], 7)]

  // The commit's second parent is the work branch, its first the writer's.
  function Overwritten(): Race {
    Race(Branches(WRITTEN + [Commit([2, 1], 0)], 3), Some((0, 1)), Some(0), Some(2), Some(1), Some(3),
         Some(Some(Landed)))
  }

  const BETWEEN: seq<Event> :=
    [RunMergeTree(true, true), WriterCommits("base", [], 7), ReadTarget(true), ReadWork(true), RunCommitTree(true)]

  lemma WriterComesBetween()
    ensures Run(TakeOurs(), "base", Begin(Branches(BEFORE, 0)), BETWEEN)
         == Overwritten().(repo := Branches(WRITTEN + [Commit([2, 1], 0)], 2), answer := None)
  {
    var m, b := TakeOurs(), Begin(Branches(BEFORE, 0));
    RunFive(m, "base", b, BETWEEN[0], BETWEEN[1], BETWEEN[2], BETWEEN[3], BETWEEN[4]);
    var x1 := Race(Branches(BEFORE, 0), Some((0, 1)), Some(0), None, None, None, None);
    assert Step(m, "base", b, BETWEEN[0]) == x1;
    WriterCommitsSeven(x1);
    var x2 := x1.(repo := Branches(WRITTEN, 2));
    var x3 := Step(m, "base", x2, BETWEEN[2]);
    assert x3 == x2.(oldTip := Some(2));
    assert Step(m, "base", x3, BETWEEN[3]) == x3.(workTip := Some(1));
  }

  lemma WriterCommitsSeven(x: Race)
    requires x.repo == Branches(BEFORE, 0)
    ensures Step(TakeOurs(), "base", x, WriterCommits("base", [], 7)) == x.(repo := Branches(WRITTEN, 2))
  {
    assert [0] + [] == [0];
    assert map["base" := 0, "work" := 1]["base" := 2] == map["base" := 2, "work" := 1];
  }

  // A commit that lands on the target between merge-tree and rev-parse becomes a
  // parent, and the update goes through; its content is not in the tree.
  lemma OutsideWriterIsOverwritten()
    ensures Run(TakeOurs(), "base", Begin(Branches(BEFORE, 0)), BETWEEN + [RunUpdateRef(true)]) == Overwritten()
    ensures HistoryOnly(TakeOurs()) && Sound(Branches(BEFORE, 0)) && Overwritten().repo.dag[2].tree == 7
    ensures !TreeIsMerge(TakeOurs(), Overwritten())
  {
    OursHistoryOnly();
    WriterComesBetween();
    assert (BETWEEN + [RunUpdateRef(true)])[..5] == BETWEEN;
    assert map["base" := 2, "work" := 1]["base" := 3] == map["base" := 3, "work" := 1];
  }

  // The same commit between rev-parse and update-ref makes git refuse.
  lemma LateWriterIsSafe(x: Race, target: Branch, ok: bool)
    requires x.oldTip.Some? && target in x.repo.refs && x.repo.refs[target] != x.oldTip.value && x.answer.None?
    ensures UpdateRefStep(x, target, ok).repo == x.repo
    ensures UpdateRefStep(x, target, ok).answer != Some(Some(Landed))
  {
  }
}
