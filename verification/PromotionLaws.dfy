/** What promotion keeps over every run: statuses agree with the version line, all pointers name
    one version, the undo stack is well formed, and checks follow the line. */
module PromotionLaws {
  import opened Wrappers
  import opened VersionTree
  import opened VersionRegistry
  import opened RegistryLaws
  import opened CheckStore
  import opened Promotion

  // ---- runs ----------------------------------------------------------------------------

  datatype Op =
    | CommitOp(commit: Commit, reverts: Option<Sha>, reapplies: Option<Sha>)
    | RebootOp(request: Request)
    | RollbackOp(trial: Trial)
    | RecoverOp(trial: Trial)
    | MarkOp(sha: Sha, status: Status)
    | AnnotateOp(kind: GitOp, target: Sha, cause: Sha)
    | ToggleOp(id: string, enabled: bool)
    | RestartOp(pending: set<Sha>, firstHealthy: bool, secondHealthy: bool)

  /** The statuses given to a candidate or a line version outside a promotion. */
  predicate SideStatus(status: Status) {
    status == Pending || status == Rejected || status == HealthFailed || status == VerifyFailed
    || status == EvalFailed || status == LinePromoted
  }

  ghost predicate Enabled(w: World, op: Op) {
    match op
    case CommitOp(c, _, _) => c.sha !in Shas(w.git) && (c.parent.Some? ==> c.parent.value in Shas(w.git))
    case RebootOp(r) => Usable(r) && r.op == Push && r.sha in Shas(w.git)
    case MarkOp(_, status) => SideStatus(status)
    case _ => true
  }

  function Apply(w: World, op: Op): World
    requires op.RebootOp? ==> Usable(op.request)
  {
    match op
    case CommitOp(c, reverts, reapplies) => CommittedVersion(w, c, reverts, reapplies)
    case RebootOp(r) => Rebooted(w, r)
    case RollbackOp(trial) => RolledBackOnce(w, trial)
    case RecoverOp(trial) => Recovered(w, trial)
    case MarkOp(sha, status) => w.(reg := WithStatus(w.reg, sha, status, None))
    case AnnotateOp(kind, target, cause) => Annotated(w, kind, target, cause)
    case ToggleOp(id, enabled) => w.(checks := Toggled(w.checks, id, enabled))
    case RestartOp(pending, first, second) => Booted(w, pending, first, second).1
  }

  ghost predicate Runnable(w: World, ops: seq<Op>)
    decreases |ops|
  {
    ops == [] || (Enabled(w, ops[0]) && Runnable(Apply(w, ops[0]), ops[1..]))
  }

  ghost function Run(w: World, ops: seq<Op>): World
    requires Runnable(w, ops)
    decreases |ops|
  {
    if ops == [] then w else Run(Apply(w, ops[0]), ops[1..])
  }

  // ---- the invariant --------------------------------------------------------------------

  ghost predicate Indexed(w: World) {
    Sound(w.git) && w.main in Shas(w.git) && Valid(w.reg) && w.reg.versions.Keys == Shas(w.git)
  }

  /** A live status only on the active line, an off-line status only off it. */
  ghost predicate Placed(w: World, s: Sha) {
    s in w.reg.versions ==>
      && (OnLine(w.reg.versions[s].status) ==> s in Ancestors(w.git, w.main))
      && (s in Ancestors(w.git, w.main) ==> !OffLine(w.reg.versions[s].status))
  }

  ghost predicate PointersAgree(w: World) {
    w.current == Handle(w.main, w.slots.activeSlot) && w.slots.activeVersion == Some(w.main) == w.slots.lastKnownGood
  }

  ghost predicate DiffersFromNext(s: seq<Sha>, i: int) {
    0 <= i < |s| - 1 ==> s[i] != s[i + 1]
  }

  /** No two neighbours are equal. */
  ghost predicate NoStutter(s: seq<Sha>) {
    forall i :: DiffersFromNext(s, i)
  }

  ghost predicate UndoStackOk(w: World) {
    && |w.slots.history| <= PROMOTION_HISTORY_MAX
    && NoStutter(w.slots.history + [w.main])
    && (forall v | v in w.slots.history :: v in Shas(w.git))
    && (w.slots.previousVersion.Some? ==> w.slots.previousVersion.value in Shas(w.git))
  }

  ghost predicate Good(w: World) {
    Indexed(w) && (forall s :: Placed(w, s)) && PointersAgree(w) && UndoStackOk(w)
  }

  // ---- one promotion ----------------------------------------------------------------------

  lemma MoveKeepsValid(idx: Index, off: set<Sha>, back: set<Sha>, from: Sha, sha: Sha)
    requires Valid(idx)
    ensures Valid(MovedIndex(idx, off, back, from, sha))
  {
    forall s, t ensures PairOk(MovedIndex(idx, off, back, from, sha), s, t) {
      assert PairOk(idx, s, t);
    }
  }

  /** Moving `main` anywhere, forward, back or sideways, puts every status on the right side. */
  lemma PromotionPlaces(w: World, r: Request, s: Sha)
    requires Usable(r) && Indexed(w) && r.sha in Shas(w.git) && Placed(w, s)
    ensures Placed(Promoted'(w, r), s)
  {
    AncestorsAreVersions(w.git, r.sha);
    AncestorsAreVersions(w.git, w.main);
  }

  /** What each version reads as afterwards: the old tip was rolled back, the rest of the range it
      takes along is abandoned, what comes back is restored (or promoted, if it was live on a line),
      the target is promoted, and every other entry is untouched. */
  lemma PromotionRelabels(w: World, r: Request, s: Sha)
    requires Usable(r) && Indexed(w) && r.sha in Shas(w.git) && s in w.reg.versions
    ensures var was, now := w.reg.versions[s], Promoted'(w, r).reg.versions[s];
            var onOld, onNew := s in Ancestors(w.git, w.main), s in Ancestors(w.git, r.sha);
            if s == r.sha then now.status == Promoted
            else if onOld && !onNew then now.status == if s == w.main then RolledBack else Abandoned
            else if !onOld && onNew && OffLine(was.status) then now.status == Restored
            else if !onOld && onNew && was.status == LinePromoted then now.status == Promoted
            else now == was
  {
    AncestorsAreVersions(w.git, r.sha);
  }

  lemma StackStaysGood(history: seq<Sha>, active: Sha, sha: Sha, op: HistoryOp)
    requires |history| <= PROMOTION_HISTORY_MAX && NoStutter(history + [active])
    requires op == Pop ==> history == [] || history[|history| - 1] == sha
    ensures var h := Stacked(history, active, sha, op);
            && |h| <= PROMOTION_HISTORY_MAX && NoStutter(h + [sha])
            && (forall v | v in h :: v in history || v == active)
  {
    var h := Stacked(history, active, sha, op);
    if op == Push && active != sha {
      var full := history + [active];
      assert DiffersFromNext(full, |history| - 1);
      assert h == full[|full| - |h|..];
      forall i ensures DiffersFromNext(h + [sha], i) {
        assert DiffersFromNext(full, |full| - |h| + i);
      }
      assert forall v | v in h :: v in full;
    } else if op == Pop && history != [] {
      assert h + [sha] == history;
      forall i ensures DiffersFromNext(history, i) {
        assert DiffersFromNext(history + [active], i);
      }
    }
  }

  lemma PromotionKeepsGood(w: World, r: Request)
    requires Usable(r) && Good(w) && r.sha in Shas(w.git)
    requires r.op == Pop ==> w.slots.history == [] || w.slots.history[|w.slots.history| - 1] == r.sha
    ensures Good(Promoted'(w, r))
  {
    var off := Ancestors(w.git, w.main) - Ancestors(w.git, r.sha);
    var back := Ancestors(w.git, r.sha) - Ancestors(w.git, w.main);
    var moved := MovedIndex(w.reg, off, back, w.main, r.sha);
    MoveKeepsValid(w.reg, off, back, w.main, r.sha);
    StatusKeepsValid(moved, r.sha, Promoted, None);
    forall s ensures Placed(Promoted'(w, r), s) { PromotionPlaces(w, r, s); }
    StackStaysGood(w.slots.history, w.main, r.sha, r.op);
  }

  /** A rejected candidate changes one status and nothing else: `main`, the live app, the boot
      pointer and the checks are as they were. */
  lemma RejectionKeepsGood(w: World, r: Request)
    requires Usable(r) && Good(w) && Rejection(r).Some?
    ensures Good(Rebooted(w, r))
    ensures Rebooted(w, r) == w.(reg := Rebooted(w, r).reg)
    ensures forall s | s in w.reg.versions && s != r.sha :: Rebooted(w, r).reg.versions[s] == w.reg.versions[s]
  {
    MarkKeepsGood(w, r.sha, Rejection(r).value, None);
  }

  lemma MarkKeepsGood(w: World, sha: Sha, status: Status, cause: Option<Sha>)
    requires Good(w) && !OnLine(status) && !OffLine(status)
    ensures Good(w.(reg := WithStatus(w.reg, sha, status, cause)))
  {
    StatusKeepsValid(w.reg, sha, status, cause);
    var m := w.(reg := WithStatus(w.reg, sha, status, cause));
    forall s ensures Placed(m, s) { assert Placed(w, s); }
  }

  lemma RebootKeepsGood(w: World, r: Request)
    requires Usable(r) && Good(w) && r.sha in Shas(w.git)
    requires r.op == Pop ==> w.slots.history == [] || w.slots.history[|w.slots.history| - 1] == r.sha
    ensures Good(Rebooted(w, r))
  {
    if Rejection(r).Some? { RejectionKeepsGood(w, r); } else { PromotionKeepsGood(w, r); }
  }

  /** In a good world the watchdog's recovery is the one-step undo, when there is one. */
  lemma RecoveryIsRollback(w: World, trial: Trial)
    requires Good(w)
    ensures w.slots.history != [] ==> Recovered(w, trial) == RolledBackOnce(w, trial)
    ensures w.slots.history == [] ==> Recovered(w, trial) == w
  {
    var h := w.slots.history;
    if h != [] {
      assert DiffersFromNext(h + [w.main], |h| - 1);
    }
  }

  lemma RollbackKeepsGood(w: World, trial: Trial)
    requires Good(w)
    ensures Good(RolledBackOnce(w, trial))
  {
    if UndoTarget(w.slots).Some? {
      RebootKeepsGood(w, Plain(UndoTarget(w.slots).value, Pop, trial, false));
    }
  }

  lemma CommitKeepsGood(w: World, c: Commit, reverts: Option<Sha>, reapplies: Option<Sha>)
    requires Good(w) && Enabled(w, CommitOp(c, reverts, reapplies))
    ensures Good(CommittedVersion(w, c, reverts, reapplies))
  {
    var m := CommittedVersion(w, c, reverts, reapplies);
    assert m.git[..|w.git|] == w.git;
    ShasSnoc(m.git);
    RecordKeepsValid(w.reg, c.sha, c.parent, reverts, reapplies, Committed);
    CommitKeepsLines(w.git, c, w.main);
    AncestorsAreVersions(w.git, w.main);
    forall s ensures Placed(m, s) { assert Placed(w, s); }
  }

  /** What a restart needs of the disk: any well-formed index, even a lost one, that calls no
      version of the active line off-line. */
  ghost predicate Restartable(w: World) {
    && Sound(w.git) && w.main in Shas(w.git) && Valid(w.reg)
    && (forall s | s in w.reg.versions && s in Ancestors(w.git, w.main) :: !OffLine(w.reg.versions[s].status))
    && PointersAgree(w) && UndoStackOk(w)
  }

  /** A restart repairs the index and boots `main` again. */
  lemma RestartMakesGood(w: World, pending: set<Sha>, first: bool, second: bool)
    requires Restartable(w)
    ensures Good(Booted(w, pending, first, second).1)
    ensures Booted(w, pending, first, second).0 == first
    ensures Booted(w, pending, first, second).1.main == w.main
  {
    var line := Ancestors(w.git, w.main);
    var b := Booted(w, pending, first, second).1;
    ReconcileKeepsValid(w.reg, w.git, line, pending);
    ReconcileDomain(w.reg, w.git, line, pending);
    forall s ensures Placed(b, s) {
      if s in Shas(w.git) {
        ReconcileEntry(w.reg, w.git, line, pending, s);
        if s in line { ReconcileKeepsOffLineOnMain(w.reg, w.git, line, pending, s); }
      }
    }
  }

  lemma GoodIsRestartable(w: World)
    requires Good(w)
    ensures Restartable(w)
  {
    forall s | s in w.reg.versions && s in Ancestors(w.git, w.main)
      ensures !OffLine(w.reg.versions[s].status)
    {
      assert Placed(w, s);
    }
  }

  /** Every enabled operation keeps the invariant. */
  lemma StepKeepsGood(w: World, op: Op)
    requires Good(w) && Enabled(w, op)
    ensures Good(Apply(w, op))
  {
    match op
    case CommitOp(c, reverts, reapplies) => CommitKeepsGood(w, c, reverts, reapplies);
    case RebootOp(r) => RebootKeepsGood(w, r);
    case RollbackOp(trial) => RollbackKeepsGood(w, trial);
    case RecoverOp(trial) =>
      RecoveryIsRollback(w, trial);
      RollbackKeepsGood(w, trial);
    case MarkOp(sha, status) => MarkKeepsGood(w, sha, status, None);
    case AnnotateOp(kind, target, cause) =>
      MarkKeepsGood(w, target, if kind == Revert then Reverted else Reapplied, Some(cause));
      var marked := w.(reg := Annotated(w, kind, target, cause).reg);
      forall s ensures Placed(Annotated(w, kind, target, cause), s) { assert Placed(marked, s); }
    case ToggleOp(id, enabled) =>
      forall s ensures Placed(Apply(w, op), s) { assert Placed(w, s); }
    case RestartOp(pending, first, second) =>
      GoodIsRestartable(w);
      RestartMakesGood(w, pending, first, second);
  }

  /** Over every run: a version that reads as promoted or restored is on the active line, none on
      it reads as abandoned or rolled back, each status is the last of its history, and the running
      app, the boot pointer, the last known good and `main` name one version. */
  lemma {:induction false} RunKeepsGood(w: World, ops: seq<Op>)
    requires Good(w) && Runnable(w, ops)
    ensures Good(Run(w, ops))
    decreases |ops|
  {
    if ops != [] {
      StepKeepsGood(w, ops[0]);
      RunKeepsGood(Apply(w, ops[0]), ops[1..]);
    }
  }

  /** A shipped revert or re-apply is a run of these operations: the commit, the reboot and, when the
      reboot goes through, the annotation. */
  lemma GitOpIsRun(w: World, kind: GitOp, target: Sha, sha: Sha, trial: Trial)
    requires w.main in Shas(w.git) && sha !in Shas(w.git)
    ensures var commit := CommitOp(Commit(sha, Some(w.main)), if kind == Revert then Some(target) else None,
                                   if kind == Reapply then Some(target) else None);
            var r := Plain(sha, Push, trial, true);
            var ops := [commit, RebootOp(r)] + if Rejection(r).None? then [AnnotateOp(kind, target, sha)] else [];
            Runnable(w, ops) && GitOpShipped(w, kind, target, sha, trial) == Run(w, ops)
  {
    hide Enabled, Apply, GitOpShipped, Rejection;
    var commit := CommitOp(Commit(sha, Some(w.main)), if kind == Revert then Some(target) else None,
                           if kind == Reapply then Some(target) else None);
    var r := Plain(sha, Push, trial, true);
    GitOpSteps(w, kind, target, sha, trial);
    var tail := if Rejection(r).None? then [AnnotateOp(kind, target, sha)] else [];
    TwoThenMaybe(w, commit, RebootOp(r), tail);
  }

  lemma TwoThenMaybe(w: World, first: Op, second: Op, tail: seq<Op>)
    requires Enabled(w, first) && Enabled(Apply(w, first), second) && |tail| <= 1
    requires tail != [] ==> Enabled(Apply(Apply(w, first), second), tail[0])
    ensures Runnable(w, [first, second] + tail)
    ensures Run(w, [first, second] + tail) ==
              var after := Apply(Apply(w, first), second);
              if tail == [] then after else Apply(after, tail[0])
  {
    hide Apply, Usable;
    var ops := [first, second] + tail;
    assert ops[1..] == [second] + tail && ops[1..][1..] == tail;
    var after := Apply(Apply(w, first), second);
    AtMostOne(after, tail);
    assert Runnable(Apply(w, first), ops[1..]) && Run(Apply(w, first), ops[1..]) == Run(after, tail);
  }

  lemma AtMostOne(w: World, tail: seq<Op>)
    requires |tail| <= 1 && (tail != [] ==> Enabled(w, tail[0]))
    ensures Runnable(w, tail) && Run(w, tail) == if tail == [] then w else Apply(w, tail[0])
  {
    hide Apply;
    if tail != [] { assert tail[1..] == []; }
  }

  lemma GitOpSteps(w: World, kind: GitOp, target: Sha, sha: Sha, trial: Trial)
    requires w.main in Shas(w.git) && sha !in Shas(w.git)
    ensures var commit := CommitOp(Commit(sha, Some(w.main)), if kind == Revert then Some(target) else None,
                                   if kind == Reapply then Some(target) else None);
            var r := Plain(sha, Push, trial, true);
            var rebooted := Apply(Apply(w, commit), RebootOp(r));
            var annotate := AnnotateOp(kind, target, sha);
            && Enabled(w, commit) && Enabled(Apply(w, commit), RebootOp(r)) && Enabled(rebooted, annotate)
            && GitOpShipped(w, kind, target, sha, trial) ==
                 if Rejection(r).None? then Apply(rebooted, annotate) else rebooted
  {
    hide Promoted', Annotated, Recorded;
    var committed := w.git + [Commit(sha, Some(w.main))];
    assert committed[..|w.git|] == w.git;
    ShasSnoc(committed);
  }

  /** Shipping a change to a line, whatever comes of it, is one mark on the world: the status of a
      promotion to a line, or the one a reboot would have rejected the candidate with. */
  lemma LineAdvanceIsMark(w: World, sha: Sha, trial: Trial)
    ensures var rejection := Rejection(Plain(sha, Push, trial, true));
            var mark := MarkOp(sha, if rejection.None? then LinePromoted else rejection.value);
            Enabled(w, mark) && LineAdvanced(w, sha, trial) == Apply(w, mark)
  {
  }

  /** So both keep the invariant. */
  lemma ShippedKeepsGood(w: World, kind: GitOp, target: Sha, sha: Sha, trial: Trial)
    requires Good(w)
    ensures sha !in Shas(w.git) ==> Good(GitOpShipped(w, kind, target, sha, trial))
    ensures Good(LineAdvanced(w, sha, trial))
  {
    hide Placed, UndoStackOk, PointersAgree, Run, Runnable, GitOpShipped, Promoted', LineAdvanced;
    var r := Plain(sha, Push, trial, true);
    if sha !in Shas(w.git) {
      GitOpIsRun(w, kind, target, sha, trial);
      RunKeepsGood(w, [CommitOp(Commit(sha, Some(w.main)), if kind == Revert then Some(target) else None,
                                if kind == Reapply then Some(target) else None), RebootOp(r)]
                      + if Rejection(r).None? then [AnnotateOp(kind, target, sha)] else []);
    }
    LineAdvanceIsMark(w, sha, trial);
    StepKeepsGood(w, MarkOp(sha, if Rejection(r).None? then LinePromoted else Rejection(r).value));
  }

  /** The very first boot: one seed version, recorded as committed, and empty slots. */
  lemma FirstBootIsGood(seed: Commit, stale: Handle, checks: seq<Check>)
    requires seed.parent.None?
    ensures var idx := Recorded(EMPTY_INDEX, seed.sha, None, None, None, Committed);
            var w := World([seed], seed.sha, stale, Slots(SlotA, None, None, None, []), idx, checks);
            var (up, booted) := Booted(w, {}, true, true);
            && up && Good(booted)
            && seed.sha in booted.reg.versions && booted.reg.versions[seed.sha].status == Promoted
            && booted.reg.versions[seed.sha].seqNo == 1
  {
    var idx := Recorded(EMPTY_INDEX, seed.sha, None, None, None, Committed);
    var w := World([seed], seed.sha, stale, Slots(SlotA, None, None, None, []), idx, checks);
    assert w.git[..0] == [] && seed in w.git && Shas(w.git) == {seed.sha};
    RecordKeepsValid(EMPTY_INDEX, seed.sha, None, None, None, Committed);
    var v := w.(current := Handle(seed.sha, SlotA),
                slots := Slots(SlotA, Some(seed.sha), None, Some(seed.sha), []));
    RestartMakesGood(v, {}, true, true);
    assert Booted(w, {}, true, true).1 == Booted(v, {}, true, true).1;
    SeedIsPromoted(idx, seed);
  }

  lemma SeedIsPromoted(idx: Index, seed: Commit)
    requires idx == Recorded(EMPTY_INDEX, seed.sha, None, None, None, Committed) && seed.parent.None?
    ensures var e := Reconciled(idx, [seed], Ancestors([seed], seed.sha), {});
            seed.sha in e.versions && e.versions[seed.sha].status == Promoted && e.versions[seed.sha].seqNo == 1
  {
    assert [seed][..0] == [] && seed in [seed];
    BackfillEntry(Pruned(idx, Shas([seed])), [seed], Ancestors([seed], seed.sha), {}, seed.sha);
  }
}
