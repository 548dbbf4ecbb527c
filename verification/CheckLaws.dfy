/** Regression checks follow the version line, and an operator's disable is never overridden. */
module CheckLaws {
  import opened Wrappers
  import opened VersionTree
  import opened CheckStore
  import opened Promotion
  import opened PromotionLaws
  import opened UndoLaws

  /** An active check guards a version of the active line, unless its origin was re-applied or the
      operator switched it on. */
  ghost predicate CheckPlaced(w: World, i: int, reapplied: set<Sha>, switchedOn: set<string>) {
    0 <= i < |w.checks| && w.checks[i].active ==>
      w.checks[i].origin in Ancestors(w.git, w.main)
      || w.checks[i].origin in reapplied || w.checks[i].id in switchedOn
  }

  ghost predicate ChecksFollowLine(w: World, reapplied: set<Sha>, switchedOn: set<string>) {
    forall i :: CheckPlaced(w, i, reapplied, switchedOn)
  }

  function Reapplies(op: Op): set<Sha> {
    if op.AnnotateOp? && op.kind == Reapply then {op.target} else {}
  }

  function SwitchesOn(op: Op): set<string> {
    if op.ToggleOp? && op.enabled then {op.id} else {}
  }

  function AllReapplied(ops: seq<Op>): set<Sha> {
    if ops == [] then {} else Reapplies(ops[0]) + AllReapplied(ops[1..])
  }

  function AllSwitchedOn(ops: seq<Op>): set<string> {
    if ops == [] then {} else SwitchesOn(ops[0]) + AllSwitchedOn(ops[1..])
  }

  /** Synchronising with a move from one line to another makes the check follow the line. */
  lemma SyncFollows(c: Check, was: set<Sha>, now: set<Sha>, to: Sha)
    requires to in now
    ensures var s := Synced(c, was - now, now - was + {to});
            s.id == c.id && s.origin == c.origin
            && (s.active ==> c.origin in now || (c.active && c.origin !in was))
  {
  }

  lemma PromotionPlacesCheck(w: World, r: Request, i: int, reapplied: set<Sha>, switchedOn: set<string>)
    requires Usable(r) && Indexed(w) && r.sha in Shas(w.git) && CheckPlaced(w, i, reapplied, switchedOn)
    ensures CheckPlaced(Promoted'(w, r), i, reapplied, switchedOn)
  {
    hide NewChecks, MovedIndex, Stacked, Ancestors, Synced;
    AncestorsAreVersions(w.git, r.sha);
    var was, now := Ancestors(w.git, w.main), Ancestors(w.git, r.sha);
    var synced := if w.main == r.sha then w.checks else AllSynced(w.checks, was - now, now - was + {r.sha});
    var added := NewChecks(synced, r.names, r.sha, r.ids);
    NewChecksBelong(synced, r.names, r.sha, r.ids);
    if 0 <= i < |synced| {
      SyncFollows(w.checks[i], was, now, r.sha);
    } else if |synced| <= i < |Promoted'(w, r).checks| {
      assert added[i - |synced|] in added;
    }
  }

  lemma RebootPlacesChecks(w: World, r: Request, reapplied: set<Sha>, switchedOn: set<string>)
    requires Usable(r) && Indexed(w) && r.sha in Shas(w.git) && ChecksFollowLine(w, reapplied, switchedOn)
    ensures ChecksFollowLine(Rebooted(w, r), reapplied, switchedOn)
  {
    forall i ensures CheckPlaced(Rebooted(w, r), i, reapplied, switchedOn) {
      assert CheckPlaced(w, i, reapplied, switchedOn);
      if Rejection(r).None? { PromotionPlacesCheck(w, r, i, reapplied, switchedOn); }
    }
  }

  lemma RollbackPlacesChecks(w: World, trial: Trial, reapplied: set<Sha>, switchedOn: set<string>)
    requires Good(w) && ChecksFollowLine(w, reapplied, switchedOn)
    ensures ChecksFollowLine(RolledBackOnce(w, trial), reapplied, switchedOn)
  {
    if UndoTarget(w.slots).Some? {
      RebootPlacesChecks(w, Plain(UndoTarget(w.slots).value, Pop, trial, false), reapplied, switchedOn);
    }
  }

  /** Growing the exempt sets and leaving lines and checks alone keeps the placement. */
  lemma SameChecksPlaced(w: World, v: World, reapplied: set<Sha>, switchedOn: set<string>)
    requires ChecksFollowLine(w, reapplied, switchedOn)
    requires v.checks == w.checks && Ancestors(v.git, v.main) == Ancestors(w.git, w.main)
    ensures ChecksFollowLine(v, reapplied, switchedOn)
  {
    forall i ensures CheckPlaced(v, i, reapplied, switchedOn) {
      assert CheckPlaced(w, i, reapplied, switchedOn);
    }
  }

  lemma StepPlacesChecks(w: World, op: Op, reapplied: set<Sha>, switchedOn: set<string>)
    requires Good(w) && Enabled(w, op) && ChecksFollowLine(w, reapplied, switchedOn)
    ensures ChecksFollowLine(Apply(w, op), reapplied + Reapplies(op), switchedOn + SwitchesOn(op))
  {
    assert !op.AnnotateOp? ==> reapplied + Reapplies(op) == reapplied;
    assert !op.ToggleOp? ==> switchedOn + SwitchesOn(op) == switchedOn;
    match op
    case CommitOp(c, reverts, reapplies) =>
      CommitKeepsLines(w.git, c, w.main);
      SameChecksPlaced(w, Apply(w, op), reapplied, switchedOn);
    case RebootOp(r) => RebootPlacesChecks(w, r, reapplied, switchedOn);
    case RollbackOp(trial) => RollbackPlacesChecks(w, trial, reapplied, switchedOn);
    case RecoverOp(trial) =>
      RecoveryIsRollback(w, trial);
      RollbackPlacesChecks(w, trial, reapplied, switchedOn);
    case MarkOp(_, _) => SameChecksPlaced(w, Apply(w, op), reapplied, switchedOn);
    case AnnotateOp(kind, target, cause) =>
      forall i ensures CheckPlaced(Apply(w, op), i, reapplied + Reapplies(op), switchedOn) {
        assert CheckPlaced(w, i, reapplied, switchedOn);
      }
    case ToggleOp(id, enabled) =>
      ToggleChangesOne(w.checks, id, enabled);
      forall i ensures CheckPlaced(Apply(w, op), i, reapplied, switchedOn + SwitchesOn(op)) {
        assert CheckPlaced(w, i, reapplied, switchedOn);
      }
    case RestartOp(pending, first, second) =>
      SameChecksPlaced(w, Apply(w, op), reapplied, switchedOn);
  }

  /** Over every run an active check's origin is on the active line, or was re-applied, or the
      operator switched that check on; with neither, every active check guards the active line. */
  lemma {:induction false} RunPlacesChecks(w: World, ops: seq<Op>, reapplied: set<Sha>, switchedOn: set<string>)
    requires Good(w) && Runnable(w, ops) && ChecksFollowLine(w, reapplied, switchedOn)
    ensures ChecksFollowLine(Run(w, ops), reapplied + AllReapplied(ops), switchedOn + AllSwitchedOn(ops))
    decreases |ops|
  {
    if ops == [] {
      assert reapplied + AllReapplied(ops) == reapplied && switchedOn + AllSwitchedOn(ops) == switchedOn;
    } else {
      StepKeepsGood(w, ops[0]);
      StepPlacesChecks(w, ops[0], reapplied, switchedOn);
      RunPlacesChecks(Apply(w, ops[0]), ops[1..], reapplied + Reapplies(ops[0]), switchedOn + SwitchesOn(ops[0]));
      assert reapplied + Reapplies(ops[0]) + AllReapplied(ops[1..]) == reapplied + AllReapplied(ops);
      assert switchedOn + SwitchesOn(ops[0]) + AllSwitchedOn(ops[1..]) == switchedOn + AllSwitchedOn(ops);
    }
  }

  // ---- a check says who disabled it ------------------------------------------------------

  /** An active check names nobody who disabled it, and a disabled one names somebody. */
  ghost predicate Signed(c: Check) {
    c.active <==> c.disabledBy == None
  }

  ghost predicate SignedAt(checks: seq<Check>, i: nat) {
    i < |checks| ==> Signed(checks[i])
  }

  ghost predicate AllSigned(checks: seq<Check>) {
    forall i: nat :: SignedAt(checks, i)
  }

  lemma SyncKeepsSigned(checks: seq<Check>, disable: set<Sha>, enable: set<Sha>)
    requires AllSigned(checks)
    ensures AllSigned(AllSynced(checks, disable, enable))
  {
    forall i: nat ensures SignedAt(AllSynced(checks, disable, enable), i) { assert SignedAt(checks, i); }
  }

  lemma {:induction false} NewAreSigned(checks: seq<Check>, names: seq<string>, origin: Sha, ids: seq<string>)
    requires |ids| >= |names|
    ensures AllSigned(NewChecks(checks, names, origin, ids))
  {
    if names != [] {
      var before := NewChecks(checks, names[..|names| - 1], origin, ids);
      NewAreSigned(checks, names[..|names| - 1], origin, ids);
      forall i: nat ensures SignedAt(NewChecks(checks, names, origin, ids), i) { assert SignedAt(before, i); }
    }
  }

  lemma BothSigned(a: seq<Check>, b: seq<Check>)
    requires AllSigned(a) && AllSigned(b)
    ensures AllSigned(a + b)
  {
    forall i: nat ensures SignedAt(a + b, i) {
      if i < |a| { assert SignedAt(a, i); } else { assert SignedAt(b, i - |a|); }
    }
  }

  lemma RebootKeepsSigned(w: World, r: Request)
    requires Usable(r) && AllSigned(w.checks)
    ensures AllSigned(Rebooted(w, r).checks)
  {
    hide AllSigned, AllSynced, NewChecks, Ancestors, MovedIndex, Stacked;
    if Rejection(r).None? {
      var was, now := Ancestors(w.git, w.main), Ancestors(w.git, r.sha);
      SyncKeepsSigned(w.checks, was - now, now - was + {r.sha});
      var synced := if w.main == r.sha then w.checks else AllSynced(w.checks, was - now, now - was + {r.sha});
      NewAreSigned(synced, r.names, r.sha, r.ids);
      BothSigned(synced, NewChecks(synced, r.names, r.sha, r.ids));
    }
  }

  lemma StepKeepsSigned(w: World, op: Op)
    requires Enabled(w, op) && AllSigned(w.checks)
    ensures AllSigned(Apply(w, op).checks)
  {
    hide AllSigned, AllSynced, Rebooted, Toggled;
    match op
    case RebootOp(r) => RebootKeepsSigned(w, r);
    case RollbackOp(trial) =>
      if UndoTarget(w.slots).Some? {
        RebootKeepsSigned(w, Plain(UndoTarget(w.slots).value, Pop, trial, false));
      }
    case RecoverOp(trial) =>
      if RecoveryTarget(w).Some? {
        RebootKeepsSigned(w, Plain(RecoveryTarget(w).value, Pop, trial, false));
      }
    case AnnotateOp(kind, target, cause) =>
      SyncKeepsSigned(w.checks, {target}, {});
      SyncKeepsSigned(w.checks, {}, {target});
    case ToggleOp(id, enabled) => ToggleKeepsSigned(w.checks, id, enabled);
    case _ =>
  }

  lemma ToggleKeepsSigned(checks: seq<Check>, id: string, enabled: bool)
    requires AllSigned(checks)
    ensures AllSigned(Toggled(checks, id, enabled))
  {
    hide Toggled;
    ToggleChangesOne(checks, id, enabled);
    forall i: nat ensures SignedAt(Toggled(checks, id, enabled), i) { assert SignedAt(checks, i); }
  }

  /** Over every run, from any state in which it is so: a check is active exactly when nobody is named as
      having disabled it. */
  lemma {:induction false} RunKeepsSigned(w: World, ops: seq<Op>)
    requires Runnable(w, ops) && AllSigned(w.checks)
    ensures AllSigned(Run(w, ops).checks)
    decreases |ops|
  {
    hide AllSigned, Apply;
    if ops != [] {
      StepKeepsSigned(w, ops[0]);
      RunKeepsSigned(Apply(w, ops[0]), ops[1..]);
    }
  }

  // ---- operator disables are sticky ------------------------------------------------------

  lemma RebootKeepsOperatorDisable(w: World, r: Request, i: nat)
    requires Usable(r) && i < |w.checks| && OperatorDisabled(w.checks[i])
    ensures i < |Rebooted(w, r).checks| && Rebooted(w, r).checks[i] == w.checks[i]
  {
  }

  lemma StepKeepsOperatorDisable(w: World, op: Op, i: nat)
    requires Enabled(w, op) && i < |w.checks| && OperatorDisabled(w.checks[i])
    requires w.checks[i].id !in SwitchesOn(op)
    ensures i < |Apply(w, op).checks| && Apply(w, op).checks[i] == w.checks[i]
  {
    match op
    case RebootOp(r) => RebootKeepsOperatorDisable(w, r, i);
    case RollbackOp(trial) =>
      if UndoTarget(w.slots).Some? {
        RebootKeepsOperatorDisable(w, Plain(UndoTarget(w.slots).value, Pop, trial, false), i);
      }
    case RecoverOp(trial) =>
      if RecoveryTarget(w).Some? {
        RebootKeepsOperatorDisable(w, Plain(RecoveryTarget(w).value, Pop, trial, false), i);
      }
    case ToggleOp(id, enabled) => ToggleChangesOne(w.checks, id, enabled);
    case _ =>
  }

  /** No run of promotions, rollbacks, reverts, re-applies, freezes and restarts, from any state,
      re-activates a check the operator disabled; only the operator does. */
  lemma {:induction false} RunKeepsOperatorDisable(w: World, ops: seq<Op>, i: nat)
    requires Runnable(w, ops) && i < |w.checks| && OperatorDisabled(w.checks[i])
    requires w.checks[i].id !in AllSwitchedOn(ops)
    ensures i < |Run(w, ops).checks| && Run(w, ops).checks[i] == w.checks[i]
    decreases |ops|
  {
    if ops != [] {
      StepKeepsOperatorDisable(w, ops[0], i);
      RunKeepsOperatorDisable(Apply(w, ops[0]), ops[1..], i);
    }
  }

  // ---- what a rollback gives back --------------------------------------------------------

  predicate LifecycleDisabled(c: Check) {
    !c.active && c.disabledBy == Some(Lifecycle)
  }

  /** A move of `main` and the move back leave the check as active as it was, except an active one whose
      origin is on the new line only, and a lifecycle-disabled one whose origin is on the old line only,
      is the old tip, or is the new tip while that is on the old line. */
  predicate Returns(c: Check, was: set<Sha>, now: set<Sha>, from: Sha, to: Sha) {
    && !(c.active && c.origin in now - was)
    && !(LifecycleDisabled(c)
         && (c.origin in was - now || c.origin == from || (c.origin == to && to in was)))
  }

  lemma ThereAndBack(c: Check, was: set<Sha>, now: set<Sha>, from: Sha, to: Sha)
    requires from in was && to in now
    ensures var up := Synced(c, was - now, now - was + {to});
            var back := Synced(up, now - was, was - now + {from});
            && back == c.(active := back.active, disabledBy := back.disabledBy)
            && (back.active == c.active <==> Returns(c, was, now, from, to))
  {
  }

  /** Undoing a promotion gives a check its activity back exactly when `Returns` says so: an active check
      that guards the new line only is lost, and a disabled one can come on, as that of a version reverted
      on the old line does. */
  lemma RollbackRestoresChecks(w: World, r: Request, trial: Trial, i: nat)
    requires Good(w) && Advances(w, r) && trial.healthy && i < |w.checks|
    ensures var back := RolledBackOnce(Rebooted(w, r), trial);
            && i < |back.checks|
            && back.checks[i] == w.checks[i].(active := back.checks[i].active, disabledBy := back.checks[i].disabledBy)
            && (back.checks[i].active == w.checks[i].active <==>
                  Returns(w.checks[i], Ancestors(w.git, w.main), Ancestors(w.git, r.sha), w.main, r.sha))
  {
    hide Ancestors, MovedIndex, NewChecks, Indexed, Placed, NoStutter;
    var up := Rebooted(w, r);
    var was, now := Ancestors(w.git, w.main), Ancestors(w.git, r.sha);
    TipsAreOnTheirLines(w, r);
    PromotionExtendsTrail(w, r);
    TopOfTrail(up);
    assert UndoTarget(up.slots) == Some(w.main);
    hide Synced, Returns;
    assert up.checks[i] == Synced(w.checks[i], was - now, now - was + {r.sha});
    ThereAndBack(w.checks[i], was, now, w.main, r.sha);
  }

  lemma TipsAreOnTheirLines(w: World, r: Request)
    requires Indexed(w) && r.sha in Shas(w.git)
    ensures w.main in Ancestors(w.git, w.main) && r.sha in Ancestors(w.git, r.sha)
  {
    AncestorsAreVersions(w.git, w.main);
    AncestorsAreVersions(w.git, r.sha);
  }
}
