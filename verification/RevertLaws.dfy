/** The checks of a reverted version: exactly when they stay off while its revert is on the active line. */
module RevertLaws {
  import opened Wrappers
  import opened VersionTree
  import opened VersionRegistry
  import opened CheckStore
  import opened Promotion
  import opened PromotionLaws
  import opened UndoLaws
  import opened CheckLaws

  // ---- lines -----------------------------------------------------------------------------

  /** The line of a version on a line is part of that line. */
  lemma LineWithin(commits: seq<Commit>, s: Sha, t: Sha)
    requires Sound(commits) && t in Shas(commits) && s in Ancestors(commits, t)
    ensures Ancestors(commits, s) <= Ancestors(commits, t) && s in Shas(commits)
  {
    AncestorsAreVersions(commits, t);
    AncestorsAreLeastClosedSet(commits, t, {});
    AncestorsAreLeastClosedSet(commits, s, Ancestors(commits, t));
  }

  /** Of two versions at most one is below the other. */
  lemma {:induction false} NoCycle(commits: seq<Commit>, s: Sha, t: Sha)
    requires Sound(commits) && s in Ancestors(commits, t) && t in Ancestors(commits, s)
    ensures s == t
  {
    if s != t {
      var init, last := commits[..|commits| - 1], commits[|commits| - 1];
      AncestorsAreVersions(init, s);
      AncestorsAreVersions(init, t);
      if last.parent.Some? { AncestorsAreVersions(init, last.parent.value); }
      NoCycle(init, s, t);
    }
  }

  /** The revert is a version committed above the one it reverts. */
  ghost predicate Above(commits: seq<Commit>, cause: Sha, origin: Sha) {
    Sound(commits) && cause in Shas(commits) && origin in Ancestors(commits, cause) && origin != cause
  }

  lemma LinesHoldBoth(commits: seq<Commit>, cause: Sha, origin: Sha, tip: Sha)
    requires Above(commits, cause, origin) && tip in Shas(commits)
    ensures cause in Ancestors(commits, tip) ==> origin in Ancestors(commits, tip) && origin != tip
  {
    if cause in Ancestors(commits, tip) {
      LineWithin(commits, cause, tip);
      if origin == tip { NoCycle(commits, origin, cause); }
    }
  }

  // ---- one step --------------------------------------------------------------------------

  /** While the revert is on the active line, the check is off. */
  ghost predicate StaysOff(w: World, i: nat, cause: Sha) {
    i < |w.checks| && (cause in Ancestors(w.git, w.main) ==> !w.checks[i].active)
  }

  /** Moving `main` there brings the revert back onto the line while the check is active, or comes back
      with its origin. */
  ghost predicate Revives(w: World, sha: Sha, i: nat, cause: Sha) {
    && i < |w.checks|
    && cause in Ancestors(w.git, sha) - Ancestors(w.git, w.main)
    && (w.checks[i].active || (LifecycleDisabled(w.checks[i]) && w.checks[i].origin !in Ancestors(w.git, w.main)))
  }

  predicate FirstWith(checks: seq<Check>, id: string, i: nat) {
    i < |checks| && checks[i].id == id && forall k | 0 <= k < i :: checks[k].id != id
  }

  /** The steps that turn the check on although its revert is on the active line. */
  ghost predicate Wakes(w: World, op: Op, i: nat, cause: Sha) {
    match op
    case RebootOp(r) => Rejection(r).None? && Revives(w, r.sha, i, cause)
    case RollbackOp(trial) =>
      trial.healthy && UndoTarget(w.slots).Some? && Revives(w, UndoTarget(w.slots).value, i, cause)
    case RecoverOp(trial) =>
      trial.healthy && RecoveryTarget(w).Some? && Revives(w, RecoveryTarget(w).value, i, cause)
    case AnnotateOp(kind, target, _) =>
      && i < |w.checks| && kind == Reapply && w.checks[i].origin == target && LifecycleDisabled(w.checks[i])
      && cause in Ancestors(w.git, w.main)
    case ToggleOp(id, enabled) => enabled && FirstWith(w.checks, id, i) && cause in Ancestors(w.git, w.main)
    case _ => false
  }

  lemma SyncWakes(c: Check, was: set<Sha>, now: set<Sha>, to: Sha, cause: Sha)
    requires cause in was ==> !c.active && c.origin in was
    requires cause in now ==> c.origin in now && c.origin != to
    ensures (cause in now ==> !Synced(c, was - now, now - was + {to}).active)
       <==> !(cause in now - was && (c.active || (LifecycleDisabled(c) && c.origin !in was)))
    ensures Synced(c, was - now, now - was + {to}).origin == c.origin
  {
  }

  lemma PromotionWakes(w: World, r: Request, i: nat, cause: Sha)
    requires Usable(r) && Indexed(w) && r.sha in Shas(w.git) && StaysOff(w, i, cause)
    requires Above(w.git, cause, w.checks[i].origin)
    ensures var u := Promoted'(w, r);
            i < |u.checks| && u.checks[i].origin == w.checks[i].origin
            && (StaysOff(u, i, cause) <==> !Revives(w, r.sha, i, cause))
  {
    hide NewChecks, MovedIndex, Stacked, Ancestors, Synced, Above;
    LinesHoldBoth(w.git, cause, w.checks[i].origin, w.main);
    LinesHoldBoth(w.git, cause, w.checks[i].origin, r.sha);
    SyncWakes(w.checks[i], Ancestors(w.git, w.main), Ancestors(w.git, r.sha), r.sha, cause);
  }

  lemma RebootWakes(w: World, r: Request, i: nat, cause: Sha)
    requires Usable(r) && Indexed(w) && r.sha in Shas(w.git) && StaysOff(w, i, cause)
    requires Above(w.git, cause, w.checks[i].origin)
    ensures var u := Rebooted(w, r);
            u.git == w.git && i < |u.checks| && u.checks[i].origin == w.checks[i].origin
            && (StaysOff(u, i, cause) <==> !(Rejection(r).None? && Revives(w, r.sha, i, cause)))
  {
    hide Promoted', Revives, Above, Indexed;
    if Rejection(r).None? {
      PromotionWakes(w, r, i, cause);
      PromotionKeepsGit(w, r);
    }
  }

  lemma PromotionKeepsGit(w: World, r: Request)
    requires Usable(r)
    ensures Promoted'(w, r).git == w.git
  {
  }

  lemma RollbackWakes(w: World, trial: Trial, i: nat, cause: Sha)
    requires Good(w) && StaysOff(w, i, cause) && Above(w.git, cause, w.checks[i].origin)
    ensures var u := RolledBackOnce(w, trial);
            u.git == w.git && i < |u.checks| && u.checks[i].origin == w.checks[i].origin
            && (StaysOff(u, i, cause) <==> !Wakes(w, RollbackOp(trial), i, cause))
  {
    hide Rebooted, Revives, Above, Indexed, Placed, NoStutter, StaysOff;
    InRange(w, i, cause);
    if UndoTarget(w.slots).Some? {
      RebootWakes(w, Plain(UndoTarget(w.slots).value, Pop, trial, false), i, cause);
    }
  }

  lemma {:induction false} ToggledAt(checks: seq<Check>, id: string, enabled: bool, i: nat)
    requires i < |checks|
    ensures |Toggled(checks, id, enabled)| == |checks|
    ensures var t := Toggled(checks, id, enabled)[i];
            t.origin == checks[i].origin && t.active == if FirstWith(checks, id, i) then enabled else checks[i].active
  {
    if checks[0].id != id && i > 0 {
      ToggledAt(checks[1..], id, enabled, i - 1);
      assert FirstWith(checks[1..], id, i - 1) <==> FirstWith(checks, id, i);
    } else {
      ToggleChangesOne(checks, id, enabled);
    }
  }

  lemma CommitKeepsAbove(w: World, c: Commit, cause: Sha, origin: Sha)
    requires Good(w) && Above(w.git, cause, origin) && c.sha !in Shas(w.git)
    requires c.parent.Some? ==> c.parent.value in Shas(w.git)
    ensures Above(w.git + [c], cause, origin)
    ensures Ancestors(w.git + [c], w.main) == Ancestors(w.git, w.main)
  {
    assert (w.git + [c])[..|w.git|] == w.git;
    ShasSnoc(w.git + [c]);
    CommitKeepsLines(w.git, c, cause);
    CommitKeepsLines(w.git, c, w.main);
  }

  /** From a good world in which the check is off as it should be, a step leaves it so exactly when it is
      none of those that wake it. */
  lemma StepStaysOffExactly(w: World, op: Op, i: nat, cause: Sha)
    requires Good(w) && Enabled(w, op) && StaysOff(w, i, cause) && Above(w.git, cause, w.checks[i].origin)
    ensures var u := Apply(w, op);
            && i < |u.checks| && u.checks[i].origin == w.checks[i].origin
            && Above(u.git, cause, w.checks[i].origin)
            && (StaysOff(u, i, cause) <==> !Wakes(w, op, i, cause))
  {
    hide Above, Indexed, Placed, UndoStackOk, Rebooted, RolledBackOnce, Recovered, Revives, Reconciled, Ancestors,
         Toggled;
    match op
    case CommitOp(c, _, _) => CommitKeepsAbove(w, c, cause, w.checks[i].origin);
    case RebootOp(r) => GoodIsIndexed(w); RebootWakes(w, r, i, cause);
    case RollbackOp(trial) => RollbackWakes(w, trial, i, cause);
    case RecoverOp(trial) => RecoveryWakes(w, trial, i, cause);
    case ToggleOp(id, enabled) => ToggledAt(w.checks, id, enabled, i);
    case AnnotateOp(_, _, _) =>
    case RestartOp(pending, first, second) =>
    case MarkOp(_, _) =>
  }

  lemma GoodIsIndexed(w: World)
    requires Good(w)
    ensures Indexed(w)
  {
  }

  lemma RecoveryWakes(w: World, trial: Trial, i: nat, cause: Sha)
    requires Good(w) && StaysOff(w, i, cause) && Above(w.git, cause, w.checks[i].origin)
    ensures var u := Recovered(w, trial);
            u.git == w.git && i < |u.checks| && u.checks[i].origin == w.checks[i].origin
            && (StaysOff(u, i, cause) <==> !Wakes(w, RecoverOp(trial), i, cause))
  {
    hide Rebooted, Revives, Above, Placed, NoStutter, StaysOff, LatestOther;
    InRange(w, i, cause);
    if RecoveryTarget(w).Some? {
      RecoveryIsKnown(w);
      RebootWakes(w, Plain(RecoveryTarget(w).value, Pop, trial, false), i, cause);
    }
  }

  lemma RecoveryIsKnown(w: World)
    requires Good(w) && RecoveryTarget(w).Some?
    ensures RecoveryTarget(w).value in Shas(w.git)
  {
    if LatestOther(w.slots.history, w.current.version).Some? { LatestIsListed(w.slots.history, w.current.version); }
  }

  lemma {:induction false} LatestIsListed(history: seq<Sha>, bad: Sha)
    ensures LatestOther(history, bad).Some? ==> LatestOther(history, bad).value in history
  {
    if history != [] { LatestIsListed(history[..|history| - 1], bad); }
  }

  // ---- runs ------------------------------------------------------------------------------

  /** The check is off as it should be at every point of the run. */
  ghost predicate OffThroughout(w: World, ops: seq<Op>, i: nat, cause: Sha)
    requires Runnable(w, ops)
    decreases |ops|
  {
    StaysOff(w, i, cause) && (ops != [] ==> OffThroughout(Apply(w, ops[0]), ops[1..], i, cause))
  }

  ghost predicate NeverWoken(w: World, ops: seq<Op>, i: nat, cause: Sha)
    requires Runnable(w, ops)
    decreases |ops|
  {
    ops == [] || (!Wakes(w, ops[0], i, cause) && NeverWoken(Apply(w, ops[0]), ops[1..], i, cause))
  }

  /** Over every run: a check is off at each point at which a revert above its origin is on the active
      line, if and only if no step of the run wakes it. */
  lemma {:induction false} RevertedStaysOffExactly(w: World, ops: seq<Op>, i: nat, cause: Sha)
    requires Good(w) && Runnable(w, ops) && StaysOff(w, i, cause) && Above(w.git, cause, w.checks[i].origin)
    ensures OffThroughout(w, ops, i, cause) <==> NeverWoken(w, ops, i, cause)
    decreases |ops|
  {
    if ops != [] {
      hide Good, StaysOff, Wakes, Above, Enabled, Apply;
      InRange(w, i, cause);
      StepKeepsGood(w, ops[0]);
      StepStaysOffExactly(w, ops[0], i, cause);
      var u := Apply(w, ops[0]);
      if StaysOff(u, i, cause) { RevertedStaysOffExactly(u, ops[1..], i, cause); }
    }
  }

  lemma InRange(w: World, i: nat, cause: Sha)
    requires StaysOff(w, i, cause)
    ensures i < |w.checks|
  {
  }

  // ---- it happens ------------------------------------------------------------------------

  predicate Passes(trial: Trial) {
    trial.healthy && (trial.gateOn ==> trial.verified)
  }

  /** A new version on `main`, promoted with one acceptance check that is kept. */
  function ShippedWithCheck(w: World, b: Sha, name: string, id: string, trial: Trial): World {
    Rebooted(CommittedVersion(w, Commit(b, Some(w.main)), None, None),
             Request(b, Push, trial, true, [name], true, [id]))
  }

  lemma CommitIsGood(w: World, c: Sha, parent: Sha, reverts: Option<Sha>)
    requires Good(w) && c !in Shas(w.git) && parent in Shas(w.git)
    ensures var v := CommittedVersion(w, Commit(c, Some(parent)), reverts, None);
            && Good(v) && c in Shas(v.git) && Shas(v.git) == Shas(w.git) + {c}
            && Ancestors(v.git, c) == Ancestors(w.git, parent) + {c}
            && (forall s | s != c :: Ancestors(v.git, s) == Ancestors(w.git, s))
            && (forall s :: Ancestors(w.git, s) <= Shas(w.git))
  {
    CommitKeepsGood(w, Commit(c, Some(parent)), reverts, None);
    hide Good, Ancestors;
    GoodIsSound(w);
    LinesAfterCommit(w.git, c, parent);
  }

  lemma LinesAfterCommit(commits: seq<Commit>, c: Sha, parent: Sha)
    requires Sound(commits) && c !in Shas(commits) && parent in Shas(commits)
    ensures var more := commits + [Commit(c, Some(parent))];
            && Shas(more) == Shas(commits) + {c} && Ancestors(more, c) == Ancestors(commits, parent) + {c}
            && (forall s | s != c :: Ancestors(more, s) == Ancestors(commits, s))
            && (forall s :: Ancestors(commits, s) <= Shas(commits))
  {
    var more := commits + [Commit(c, Some(parent))];
    assert more[..|commits|] == commits;
    ShasSnoc(more);
    forall s ensures Ancestors(commits, s) <= Shas(commits) { AncestorsAreVersions(commits, s); }
  }

  lemma CheckIsKept(w: World, b: Sha, name: string, id: string, trial: Trial)
    requires Good(w) && b !in Shas(w.git) && Passes(trial)
    requires forall k | 0 <= k < |w.checks| :: w.checks[k].origin != b
    ensures var u := ShippedWithCheck(w, b, name, id, trial);
            && Good(u) && u.main == b && u.git == w.git + [Commit(b, Some(w.main))]
            && |u.checks| == |w.checks| + 1 && u.checks[|w.checks|] == Check(id, name, b, true, None)
  {
    hide Indexed, Placed, UndoStackOk, MovedIndex, Ancestors, Stacked, NoStutter;
    GoodKnowsMain(w);
    CommitIsGood(w, b, w.main, None);
    var v, r := CommittedVersion(w, Commit(b, Some(w.main)), None, None),
                Request(b, Push, trial, true, [name], true, [id]);
    RebootKeepsGood(v, r);
    var synced := AllSynced(v.checks, Ancestors(v.git, v.main) - Ancestors(v.git, b),
                            Ancestors(v.git, b) - Ancestors(v.git, v.main) + {b});
    assert [name][..0] == [] && !Named(synced, b, name);
    assert NewChecks(synced, [name], b, [id]) == [Check(id, name, b, true, None)];
  }

  lemma GoodKnowsMain(w: World)
    requires Good(w)
    ensures w.main in Shas(w.git)
  {
  }

  /** The revert of the live version switches its check off. */
  lemma RevertSwitchesOff(u: World, b: Sha, c: Sha, trial: Trial, i: nat)
    requires Good(u) && u.main == b && c !in Shas(u.git) && Passes(trial)
    requires i < |u.checks| && u.checks[i].active && u.checks[i].origin == b
    ensures var v := GitOpShipped(u, Revert, b, c, trial);
            && Good(v) && v.main == c && v.git == u.git + [Commit(c, Some(b))]
            && i < |v.checks| && v.checks[i].origin == b && LifecycleDisabled(v.checks[i])
  {
    hide Indexed, Placed, UndoStackOk, MovedIndex, Ancestors, Stacked, NoStutter, NewChecks;
    ShippedKeepsGood(u, Revert, b, c, trial);
    GoodKnowsMain(u);
    CommitIsGood(u, c, b, Some(b));
    TipsAreOnTheirLines(u, Plain(b, Push, trial, true));
  }

  /** Back to the reverted version and forward again: the revert is live, and so is the check. */
  lemma ForwardJumpWakes(v: World, i: nat, c: Sha, trial: Trial)
    requires Good(v) && v.main == c && trial.healthy && i < |v.checks| && LifecycleDisabled(v.checks[i])
    requires Above(v.git, c, v.checks[i].origin)
    ensures var b := v.checks[i].origin;
            var back := Rebooted(v, Plain(b, Push, trial, false));
            var again := Rebooted(back, Plain(c, Push, trial, false));
            && back.main == b && i < |back.checks| && back.checks[i].active
            && again.main == c && i < |again.checks| && again.checks[i].active && again.checks[i].origin == b
  {
    hide Placed, UndoStackOk, MovedIndex, Ancestors, Stacked, NoStutter, NewChecks;
    var b := v.checks[i].origin;
    LineWithin(v.git, b, c);
    AncestorsAreVersions(v.git, b);
  }

  /** To another branch, off the reverted version, and back by one rollback: the same. */
  lemma DetourWakes(v: World, i: nat, r: Request, trial: Trial)
    requires Good(v) && Advances(v, r) && trial.healthy && i < |v.checks| && LifecycleDisabled(v.checks[i])
    requires v.checks[i].origin in Ancestors(v.git, v.main) - Ancestors(v.git, r.sha)
    ensures var back := RolledBackOnce(Rebooted(v, r), trial);
            && back.main == v.main && i < |back.checks| && back.checks[i].active
            && back.checks[i].origin == v.checks[i].origin
  {
    hide Good, Rebooted, RolledBackOnce, Ancestors, Advances;
    RollbackRestoresChecks(v, r, trial, i);
    RollbackUndoesPromotion(v, r, trial);
  }

  /** Both happen from any good world: ship a version with a check, revert it, and either go back to it
      and forward to the revert, or promote a version from before it and roll back. The revert is the
      live version, and the check of what it removed is active. */
  lemma RevertedCheckComesBack(w: World, b: Sha, c: Sha, d: Sha, name: string, id: string, trial: Trial)
    requires Good(w) && Passes(trial) && b !in Shas(w.git) && c !in Shas(w.git) && d !in Shas(w.git)
    requires b != c && c != d && d != b && forall k | 0 <= k < |w.checks| :: w.checks[k].origin != b
    ensures var i := |w.checks|;
            var v := GitOpShipped(ShippedWithCheck(w, b, name, id, trial), Revert, b, c, trial);
            var jumped := Rebooted(Rebooted(v, Plain(b, Push, trial, false)), Plain(c, Push, trial, false));
            var aside := CommittedVersion(v, Commit(d, Some(w.main)), None, None);
            var back := RolledBackOnce(Rebooted(aside, Plain(d, Push, trial, true)), trial);
            && v.main == c && i < |v.checks| && v.checks[i].origin == b && !v.checks[i].active
            && jumped.main == c && i < |jumped.checks| && jumped.checks[i].active && jumped.checks[i].origin == b
            && back.main == c && i < |back.checks| && back.checks[i].active && back.checks[i].origin == b
  {
    hide Good, Rebooted, RolledBackOnce, Ancestors, GitOpShipped, ShippedWithCheck, Sound, UndoTarget, Recorded;
    var i, u := |w.checks|, ShippedWithCheck(w, b, name, id, trial);
    GoodKnowsMain(w);
    CheckIsKept(w, b, name, id, trial);
    CommitIsGood(w, b, w.main, None);
    RevertSwitchesOff(u, b, c, trial, i);
    GoodKnowsMain(u);
    CommitIsGood(u, c, b, Some(b));
    var v := GitOpShipped(u, Revert, b, c, trial);
    GoodIsSound(v);
    ForwardJumpWakes(v, i, c, trial);
    CommitIsGood(v, d, w.main, None);
    DetourWakes(CommittedVersion(v, Commit(d, Some(w.main)), None, None), i, Plain(d, Push, trial, true), trial);
  }

  lemma GoodIsSound(w: World)
    requires Good(w)
    ensures Sound(w.git)
  {
  }
}
