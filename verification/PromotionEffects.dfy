/** What each operation of the kernel leaves behind, in terms of what came in. */
module PromotionEffects {
  import opened Wrappers
  import opened VersionTree
  import opened VersionRegistry
  import opened CheckStore
  import opened Promotion
  import opened PromotionLaws

  // ---- verdicts --------------------------------------------------------------------------

  /** The entry once this status has been added to it. */
  ghost predicate Marked(was: Entry, now: Entry, status: Status) {
    && now.status == status && now.history == was.history + [status]
    && now == was.(status := status, history := now.history, revertedBy := now.revertedBy,
                   reappliedBy := now.reappliedBy)
  }

  /** Nothing but the entry of one version differs. */
  ghost predicate OnlyEntry(w: World, u: World, sha: Sha) {
    && sha in w.reg.versions && sha in u.reg.versions
    && u == w.(reg := w.reg.(versions := w.reg.versions[sha := u.reg.versions[sha]]))
  }

  /** A reboot decides by the trial: an unhealthy candidate reads health-failed, a healthy one with
      something to check that the gate does not pass reads verify-failed, and nothing else has changed
      then; any other candidate is live in the other slot, named by `main` and by the boot pointer, and
      reads promoted. */
  lemma RebootDecides(w: World, r: Request)
    requires Usable(r) && r.sha in w.reg.versions
    ensures var u := Rebooted(w, r);
            && r.sha in u.reg.versions
            && var was, now := w.reg.versions[r.sha], u.reg.versions[r.sha];
               if !r.trial.healthy then
                 OnlyEntry(w, u, r.sha) && Marked(was, now, HealthFailed)
                 && now.revertedBy == was.revertedBy && now.reappliedBy == was.reappliedBy
               else if r.trial.gateOn && !r.trial.verified && (|r.names| > 0 || r.regressions) then
                 OnlyEntry(w, u, r.sha) && Marked(was, now, VerifyFailed)
                 && now.revertedBy == was.revertedBy && now.reappliedBy == was.reappliedBy
               else
                 && u.git == w.git && u.main == r.sha && u.current.version == r.sha
                 && u.current.slot != w.current.slot && u.slots.activeSlot == u.current.slot
                 && u.slots.activeVersion == Some(r.sha) == u.slots.lastKnownGood
                 && now.status == Promoted && now.history != [] && now.history[|now.history| - 1] == Promoted
  {
  }

  /** The history of the old stack with the departed version pushed, or without its top, cut to the
      latest fifty. */
  lemma PromotionWritesStack(w: World, r: Request)
    requires Usable(r) && Good(w)
    ensures var before := w.slots.history;
            var h := Promoted'(w, r).slots.history;
            && (r.op == Pop ==> h == if before == [] then [] else before[..|before| - 1])
            && (r.op == Push && r.sha == w.main ==> h == before)
            && (r.op == Push && r.sha != w.main ==>
                  var longer := before + [w.main]; h == if |longer| > 50 then longer[1..] else longer)
            && Promoted'(w, r).slots.previousVersion == if h == [] then None else Some(h[|h| - 1])
  {
    var history := w.slots.history;
    if history != [] { assert DiffersFromNext(history + [w.main], |history| - 1); }
  }

  /** A promotion keeps the acceptance checks for the promoted version, each with its name and its fresh
      id, exactly when asked to and when the version has no check of that name yet. */
  lemma PromotionFreezes(w: World, r: Request, name: string, id: string)
    requires Usable(r) && r.names == [name] && r.ids == [id] && Rejection(r).None?
    requires forall k | 0 <= k < |w.checks| :: w.checks[k].origin != r.sha || w.checks[k].name != name
    ensures var u := Rebooted(w, r);
            if r.freeze then
              |u.checks| == |w.checks| + 1 && u.checks[|w.checks|] == Check(id, name, r.sha, true, None)
            else |u.checks| == |w.checks|
  {
    hide Ancestors, MovedIndex, Stacked;
    var was, now := Ancestors(w.git, w.main), Ancestors(w.git, r.sha);
    var off, back := was - now, now - was;
    var synced := if w.main == r.sha then w.checks else AllSynced(w.checks, off, back + {r.sha});
    assert [name][..0] == [] && !Named(synced, r.sha, name);
    assert NewChecks(synced, [name], r.sha, [id]) == [Check(id, name, r.sha, true, None)];
  }

  // ---- reverts and re-applies ------------------------------------------------------------

  /** A new commit is recorded with its parent and its causes, as committed, under the next number. */
  lemma CommitIsRecorded(w: World, c: Commit, reverts: Option<Sha>, reapplies: Option<Sha>)
    requires c.sha !in w.reg.versions
    ensures var u := CommittedVersion(w, c, reverts, reapplies);
            && u == w.(git := w.git + [c], reg := u.reg)
            && c.sha in u.reg.versions
            && u.reg == Index(w.reg.nextSeq + 1, w.reg.versions[c.sha := u.reg.versions[c.sha]])
            && var e := u.reg.versions[c.sha];
               && e.sha == c.sha && e.seqNo == w.reg.nextSeq && e.parent == c.parent && e.tag == None
               && e.reverts == reverts && e.reapplies == reapplies && e.revertedBy == None && e.reappliedBy == None
               && e.status == Committed && e.history == [Committed]
  {
  }

  /** A revert that ships marks its target reverted, by the new version, and switches the target's checks
      off; a re-apply marks it re-applied and gives its checks back. One that is rejected leaves target and
      checks as they were. Either way the new version stands on the old `main` and names its target. */
  lemma GitOpMarksTarget(w: World, kind: GitOp, target: Sha, sha: Sha, trial: Trial)
    requires Good(w) && target in Shas(w.git) && sha !in Shas(w.git)
    ensures var u := GitOpShipped(w, kind, target, sha, trial);
            && u.git == w.git + [Commit(sha, Some(w.main))]
            && target in u.reg.versions && sha in u.reg.versions
            && u.reg.versions[sha].parent == Some(w.main)
            && u.reg.versions[sha].reverts == (if kind == Revert then Some(target) else None)
            && u.reg.versions[sha].reapplies == (if kind == Reapply then Some(target) else None)
            && var was, now := w.reg.versions[target], u.reg.versions[target];
               if trial.healthy && (trial.gateOn ==> trial.verified) then
                 && u.main == sha && u.reg.versions[sha].status == Promoted
                 && (kind == Revert ==> now.status == Reverted && now.revertedBy == Some(sha)
                                        && now.reappliedBy == was.reappliedBy)
                 && (kind == Reapply ==> now.status == Reapplied && now.reappliedBy == Some(sha)
                                         && now.revertedBy == was.revertedBy)
               else
                 && u.main == w.main && u.current == w.current && u.slots == w.slots && u.checks == w.checks
                 && now == was
                 && u.reg.versions[sha].status == if !trial.healthy then HealthFailed else VerifyFailed
  {
    hide Promoted', AllSynced, Good, Fresh;
    KnownToGit(w, target);
    KnownToGit(w, sha);
    var committed := CommittedVersion(w, Commit(sha, Some(w.main)), if kind == Revert then Some(target) else None,
                                      if kind == Reapply then Some(target) else None);
    var r := Plain(sha, Push, trial, true);
    CommitIsRecorded(w, Commit(sha, Some(w.main)), if kind == Revert then Some(target) else None,
                     if kind == Reapply then Some(target) else None);
    assert target in committed.reg.versions && committed.reg.versions[target] == w.reg.versions[target];
    PromotionKeepsCauses(committed, r, target);
    PromotionKeepsCauses(committed, r, sha);
    RebootDecides(committed, r);
  }

  lemma KnownToGit(w: World, s: Sha)
    requires Good(w)
    ensures s in w.reg.versions <==> s in Shas(w.git)
  {
  }

  /** A promotion rewrites statuses, never what an entry says of its parent and its causes. */
  lemma PromotionKeepsCauses(w: World, r: Request, s: Sha)
    requires Usable(r) && s in w.reg.versions
    ensures s in Promoted'(w, r).reg.versions
    ensures var was, now := w.reg.versions[s], Promoted'(w, r).reg.versions[s];
            now == was.(status := now.status, history := now.history)
    ensures Promoted'(w, r).git == w.git
  {
    hide Ancestors;
  }

  lemma GitOpSwitchesChecks(w: World, kind: GitOp, target: Sha, cause: Sha, i: nat)
    requires i < |w.checks|
    ensures var u := Annotated(w, kind, target, cause);
            && |u.checks| == |w.checks|
            && (w.checks[i].origin != target ==> u.checks[i] == w.checks[i])
            && (w.checks[i].origin == target && kind == Revert ==> !u.checks[i].active)
            && (w.checks[i].origin == target && kind == Reapply ==>
                  (u.checks[i].active <==> w.checks[i].active || w.checks[i].disabledBy == Some(Lifecycle)))
  {
  }

  // ---- boot and recovery -----------------------------------------------------------------

  /** Boot starts the last known good version, or `main` when none is recorded, in the first slot. Only
      when that one is unhealthy and is not `main` it is marked and `main` is tried; when neither comes
      up there is no app. The undo stack, `main`, git and the checks stay. */
  lemma BootChooses(w: World, pending: set<Sha>, first: bool, second: bool)
    ensures var (up, u) := Booted(w, pending, first, second);
            var wanted := match w.slots.lastKnownGood case Some(v) => v case None => w.main;
            && u.git == w.git && u.main == w.main && u.checks == w.checks && u.slots.history == w.slots.history
            && (up <==> first || (second && wanted != w.main))
            && (up ==>
                  && u.current == Handle(if first then wanted else w.main, SlotA)
                  && u.slots.activeSlot == SlotA && u.slots.activeVersion == Some(u.current.version)
                  && u.slots.lastKnownGood == Some(u.current.version)
                  && u.slots.previousVersion ==
                       if w.slots.history != [] then Some(w.slots.history[|w.slots.history| - 1])
                       else if w.slots.activeVersion == Some(u.current.version) then None else w.slots.activeVersion)
            && (!up ==> u.current == w.current && u.slots == w.slots)
            && var repaired := Reconciled(w.reg, w.git, Ancestors(w.git, w.main), pending);
               if first || wanted == w.main || wanted !in repaired.versions then u.reg == repaired
               else wanted in u.reg.versions && u.reg.versions[wanted].status == HealthFailed
                    && u.reg == repaired.(versions := repaired.versions[wanted := u.reg.versions[wanted]])
  {
    hide Reconciled, Ancestors;
  }

  /** The one-step undo reboots to the top of the stack, or without a stack to the previous version that is
      recorded; with neither it does nothing. It asks for no regression run. */
  lemma RollbackPicks(w: World, trial: Trial)
    ensures var h, u := w.slots.history, RolledBackOnce(w, trial);
            if h != [] then u == Rebooted(w, Request(h[|h| - 1], Pop, trial, false, [], false, []))
            else if w.slots.previousVersion.Some?
            then u == Rebooted(w, Request(w.slots.previousVersion.value, Pop, trial, false, [], false, []))
            else u == w
  {
    hide Rebooted;
  }

  /** The watchdog goes to the latest version on the stack that is not the one that failed, else to the
      last known good one if that is another; if there is none it does nothing. */
  lemma RecoveryPicks(w: World, trial: Trial)
    ensures var bad, h := w.current.version, w.slots.history;
            && (forall k | 0 <= k < |h| && h[k] != bad && (forall j | k < j < |h| :: h[j] == bad) ::
                  RecoveryTarget(w) == Some(h[k]))
            && ((forall k | 0 <= k < |h| :: h[k] == bad) ==>
                  RecoveryTarget(w) == if w.slots.lastKnownGood == Some(bad) then None else w.slots.lastKnownGood)
            && (RecoveryTarget(w) == None ==> Recovered(w, trial) == w)
            && (RecoveryTarget(w).Some? ==>
                  Recovered(w, trial)
                  == Rebooted(w, Request(RecoveryTarget(w).value, Pop, trial, false, [], false, [])))
  {
    hide Rebooted;
    var bad, h := w.current.version, w.slots.history;
    forall k | 0 <= k < |h| && h[k] != bad && (forall j | k < j < |h| :: h[j] == bad)
      ensures RecoveryTarget(w) == Some(h[k])
    {
      LatestIsLast(h, bad, k);
    }
    if forall k | 0 <= k < |h| :: h[k] == bad { NoneIsLatest(h, bad); }
  }

  lemma {:induction false} LatestIsLast(h: seq<Sha>, bad: Sha, k: nat)
    requires k < |h| && h[k] != bad && forall j | k < j < |h| :: h[j] == bad
    ensures LatestOther(h, bad) == Some(h[k])
  {
    if k < |h| - 1 { LatestIsLast(h[..|h| - 1], bad, k); }
  }

  lemma {:induction false} NoneIsLatest(h: seq<Sha>, bad: Sha)
    requires forall k | 0 <= k < |h| :: h[k] == bad
    ensures LatestOther(h, bad) == None
  {
    if h != [] { NoneIsLatest(h[..|h| - 1], bad); }
  }
}
