/** Promotion and rollback of app versions: the blue-green reboot, the undo stack, and the
    bookkeeping that follows `main` over the version tree. */
module Promotion {
  import opened Wrappers
  import opened VersionTree
  import opened VersionRegistry
  import opened CheckStore

  const PROMOTION_HISTORY_MAX := 50

  datatype Slot = SlotA | SlotB

  function OtherSlot(s: Slot): Slot {
    if s == SlotA then SlotB else SlotA
  }

  /** The running app. */
  datatype Handle = Handle(version: Sha, slot: Slot)

  /** The durable boot pointer. */
  datatype Slots = Slots(activeSlot: Slot, activeVersion: Option<Sha>, previousVersion: Option<Sha>,
                         lastKnownGood: Option<Sha>, history: seq<Sha>)

  /** Everything promotion reads and writes. */
  datatype World = World(git: seq<Commit>, main: Sha, current: Handle, slots: Slots,
                         reg: Index, checks: seq<Check>)

  datatype HistoryOp = Push | Pop

  /** What booting and probing the candidate yields; the verifier is consulted only when it is on. */
  datatype Trial = Trial(healthy: bool, gateOn: bool, verified: bool)

  /** One reboot request. `names` are the acceptance checks, `freeze` whether they are to be kept,
      `ids` the fresh ids for them. */
  datatype Request = Request(sha: Sha, op: HistoryOp, trial: Trial, regressions: bool,
                             names: seq<string>, freeze: bool, ids: seq<string>)

  predicate Usable(r: Request) {
    |r.ids| >= |r.names|
  }

  /** The status a rejected candidate gets; none when it is promoted. */
  function Rejection(r: Request): Option<Status> {
    if !r.trial.healthy then Some(HealthFailed)
    else if r.trial.gateOn && (r.names != [] || r.regressions) && !r.trial.verified then Some(VerifyFailed)
    else None
  }

  function LastN(s: seq<Sha>, n: nat): seq<Sha> {
    if |s| > n then s[|s| - n..] else s
  }

  function Stacked(history: seq<Sha>, departed: Sha, sha: Sha, op: HistoryOp): seq<Sha> {
    var h := match op
             case Pop => if history != [] then history[..|history| - 1] else history
             case Push =>
               if departed != sha && (history == [] || history[|history| - 1] != departed) then history + [departed]
               else history;
    LastN(h, PROMOTION_HISTORY_MAX)
  }

  function Top(history: seq<Sha>): Option<Sha> {
    if history == [] then None else Some(history[|history| - 1])
  }

  /** The statuses once the versions of `off` have left the line ending at `from`. */
  function LeaveLine(versions: map<Sha, Entry>, off: set<Sha>, from: Sha, sha: Sha): map<Sha, Entry> {
    map s | s in versions ::
      if s in off then Transition(versions[s], if s == from then RolledBack else Abandoned, Some(sha)) else versions[s]
  }

  function Rejoined(e: Entry): Entry {
    if e.status == Abandoned || e.status == RolledBack then Transition(e, Restored, None)
    else if e.status == LinePromoted then Transition(e, Promoted, None)
    else e
  }

  /** The statuses once the versions of `back` are on the line again. */
  function RejoinLine(versions: map<Sha, Entry>, back: set<Sha>): map<Sha, Entry> {
    map s | s in versions :: if s in back then Rejoined(versions[s]) else versions[s]
  }

  lemma LeaveOne(versions: map<Sha, Entry>, done: set<Sha>, x: Sha, from: Sha, sha: Sha)
    requires x !in done
    ensures var left := LeaveLine(versions, done, from, sha);
            && (x in left <==> x in versions)
            && LeaveLine(versions, done + {x}, from, sha)
                 == if x in versions
                    then left[x := Transition(left[x], if x == from then RolledBack else Abandoned, Some(sha))]
                    else left
  {
    hide Transition;
  }

  lemma RejoinOne(versions: map<Sha, Entry>, done: set<Sha>, x: Sha)
    requires x !in done
    ensures var back := RejoinLine(versions, done);
            && (x in back <==> x in versions)
            && RejoinLine(versions, done + {x}) == if x in versions then back[x := Rejoined(back[x])] else back
  {
    hide Rejoined;
  }

  function MovedIndex(idx: Index, off: set<Sha>, back: set<Sha>, from: Sha, sha: Sha): Index {
    idx.(versions := RejoinLine(LeaveLine(idx.versions, off, from, sha), back - {sha}))
  }

  function Promoted'(w: World, r: Request): World
    requires Usable(r)
  {
    var off := Ancestors(w.git, w.main) - Ancestors(w.git, r.sha);
    var back := Ancestors(w.git, r.sha) - Ancestors(w.git, w.main);
    var history := Stacked(w.slots.history, w.current.version, r.sha, r.op);
    var slot := OtherSlot(w.current.slot);
    var synced := if w.main == r.sha then w.checks else AllSynced(w.checks, off, back + {r.sha});
    World(
      w.git, r.sha, Handle(r.sha, slot),
      Slots(slot, Some(r.sha), Top(history), Some(r.sha), history),
      WithStatus(MovedIndex(w.reg, off, back, w.main, r.sha), r.sha, Promoted, None),
      if r.freeze then synced + NewChecks(synced, r.names, r.sha, r.ids) else synced)
  }

  function Rebooted(w: World, r: Request): World
    requires Usable(r)
  {
    match Rejection(r)
    case Some(status) => w.(reg := WithStatus(w.reg, r.sha, status, None))
    case None => Promoted'(w, r)
  }

  /** A plain request without acceptance checks. */
  function Plain(sha: Sha, op: HistoryOp, trial: Trial, regressions: bool): Request {
    Request(sha, op, trial, regressions, [], false, [])
  }

  function UndoTarget(slots: Slots): Option<Sha> {
    if slots.history != [] then Top(slots.history) else slots.previousVersion
  }

  function RolledBackOnce(w: World, trial: Trial): World {
    match UndoTarget(w.slots)
    case None => w
    case Some(target) => Rebooted(w, Plain(target, Pop, trial, false))
  }

  /** The latest history entry that is not the bad version. */
  function LatestOther(history: seq<Sha>, bad: Sha): Option<Sha> {
    if history == [] then None
    else if history[|history| - 1] != bad then Top(history)
    else LatestOther(history[..|history| - 1], bad)
  }

  function RecoveryTarget(w: World): Option<Sha> {
    var bad := w.current.version;
    if LatestOther(w.slots.history, bad).Some? then LatestOther(w.slots.history, bad)
    else if w.slots.lastKnownGood == Some(bad) then None else w.slots.lastKnownGood
  }

  function Recovered(w: World, trial: Trial): World {
    match RecoveryTarget(w)
    case None => w
    case Some(target) => Rebooted(w, Plain(target, Pop, trial, false))
  }

  /** A version is committed off to the side; `main` does not move. */
  function CommittedVersion(w: World, c: Commit, reverts: Option<Sha>, reapplies: Option<Sha>): World {
    w.(git := w.git + [c], reg := Recorded(w.reg, c.sha, c.parent, reverts, reapplies, Committed))
  }

  datatype GitOp = Revert | Reapply

  /** After a revert or re-apply shipped: mark its target and switch the target's checks. */
  function Annotated(w: World, kind: GitOp, target: Sha, cause: Sha): World {
    w.(reg := WithStatus(w.reg, target, if kind == Revert then Reverted else Reapplied, Some(cause)),
       checks := if kind == Revert then AllSynced(w.checks, {target}, {}) else AllSynced(w.checks, {}, {target}))
  }

  function GitOpShipped(w: World, kind: GitOp, target: Sha, sha: Sha, trial: Trial): World {
    var committed := CommittedVersion(w, Commit(sha, Some(w.main)),
                                      if kind == Revert then Some(target) else None,
                                      if kind == Reapply then Some(target) else None);
    var r := Plain(sha, Push, trial, true);
    var rebooted := Rebooted(committed, r);
    if Rejection(r).None? then Annotated(rebooted, kind, target, sha) else rebooted
  }

  /** After a change was shipped to a line, or its candidate rejected. */
  function LineAdvanced(w: World, sha: Sha, trial: Trial): World {
    var status := if !trial.healthy then HealthFailed
                  else if trial.gateOn && !trial.verified then VerifyFailed
                  else LinePromoted;
    w.(reg := WithStatus(w.reg, sha, status, None))
  }

  /** The slots a successful boot of `target` writes. */
  function BootSlots(slots: Slots, target: Sha): Slots {
    Slots(SlotA, Some(target),
          if slots.history != [] then Top(slots.history)
          else if slots.activeVersion == Some(target) then None else slots.activeVersion,
          Some(target), slots.history)
  }

  function BootTarget(w: World): Sha {
    if w.slots.lastKnownGood.Some? then w.slots.lastKnownGood.value else w.main
  }

  /** Boot: repair the index, start the recorded good version, else `main`; no version healthy
      means no app. */
  function Booted(w: World, pending: set<Sha>, firstHealthy: bool, secondHealthy: bool): (bool, World) {
    var idx := Reconciled(w.reg, w.git, Ancestors(w.git, w.main), pending);
    var target := BootTarget(w);
    if firstHealthy then
      (true, w.(reg := idx, current := Handle(target, SlotA), slots := BootSlots(w.slots, target)))
    else if target == w.main then (false, w.(reg := idx))
    else
      var marked := w.(reg := WithStatus(idx, target, HealthFailed, None));
      if secondHealthy then
        (true, marked.(current := Handle(w.main, SlotA), slots := BootSlots(w.slots, w.main)))
      else (false, marked)
  }

  class Kernel {
    const registry: Registry
    const store: Store
    var git: seq<Commit>
    var main: Sha
    var current: Handle
    var slots: Slots
    var lines: map<string, Sha>

    function View(): World
      reads this, registry, store
    {
      World(git, main, current, slots, registry.View(), store.checks)
    }

    constructor (registry: Registry, store: Store, git: seq<Commit>, main: Sha, current: Handle, slots: Slots)
      ensures this.registry == registry && this.store == store
      ensures View() == World(git, main, current, slots, registry.View(), store.checks) && lines == map[]
    {
      this.registry, this.store := registry, store;
      lines := map[];
      this.git, this.main, this.current, this.slots := git, main, current, slots;
    }

    /** Mark the versions that fall off the active line. */
    method MarkOffLine(offLine: seq<Sha>, from: Sha, sha: Sha)
      requires forall i, j | 0 <= i < j < |offLine| :: offLine[i] != offLine[j]
      modifies registry
      ensures registry.nextSeq == old(registry.nextSeq)
      ensures registry.versions == LeaveLine(old(registry.versions), (set x | x in offLine), from, sha)
    {
      for i := 0 to |offLine|
        invariant registry.nextSeq == old(registry.nextSeq)
        invariant registry.versions == LeaveLine(old(registry.versions), (set x | x in offLine[..i]), from, sha)
      {
        hide LeaveLine;
        var x := offLine[i];
        ghost var now := offLine[..i + 1];
        assert now == offLine[..i] + [x];
        LeaveOne(old(registry.versions), (set y | y in offLine[..i]), x, from, sha);
        assert (set y | y in now) == (set y | y in offLine[..i]) + {x};
        registry.SetStatus(x, if x == from then RolledBack else Abandoned, Some(sha));
      }
      assert offLine[..|offLine|] == offLine;
    }

    /** Re-legitimise the versions that come back onto the active line. */
    method MarkBackOn(backOn: seq<Sha>)
      requires forall i, j | 0 <= i < j < |backOn| :: backOn[i] != backOn[j]
      modifies registry
      ensures registry.nextSeq == old(registry.nextSeq)
      ensures registry.versions == RejoinLine(old(registry.versions), set x | x in backOn)
    {
      for i := 0 to |backOn|
        invariant registry.nextSeq == old(registry.nextSeq)
        invariant registry.versions == RejoinLine(old(registry.versions), set x | x in backOn[..i])
      {
        hide RejoinLine;
        var x := backOn[i];
        ghost var now := backOn[..i + 1];
        assert now == backOn[..i] + [x];
        RejoinOne(old(registry.versions), (set y | y in backOn[..i]), x);
        assert (set y | y in now) == (set y | y in backOn[..i]) + {x};
        if x in registry.versions {
          var status := registry.versions[x].status;
          if status == Abandoned || status == RolledBack {
            registry.SetStatus(x, Restored, None);
          } else if status == LinePromoted {
            registry.SetStatus(x, Promoted, None);
          }
        }
      }
      assert backOn[..|backOn|] == backOn;
    }

    /** Make the candidate the live app: current, `main`, and the boot pointer with its undo stack. */
    method SwitchTo(sha: Sha, op: HistoryOp)
      modifies this
      ensures git == old(git) && main == sha
      ensures current == Handle(sha, OtherSlot(old(current.slot)))
      ensures var history := Stacked(old(slots.history), old(current.version), sha, op);
              slots == Slots(current.slot, Some(sha), Top(history), Some(sha), history)
    {
      var departed := current;
      var newSlot := OtherSlot(departed.slot);
      current := Handle(sha, newSlot);
      main := sha;
      var history := slots.history;
      if op == Pop {
        if history != [] { history := history[..|history| - 1]; }
      } else if departed.version != sha {
        if history == [] || history[|history| - 1] != departed.version { history := history + [departed.version]; }
      }
      history := LastN(history, PROMOTION_HISTORY_MAX);
      slots := Slots(newSlot, Some(sha), Top(history), Some(sha), history);
    }

    /** Re-draw the active line after `main` moved from `from` to `sha`: statuses, then checks. */
    method MoveLine(from: Sha, sha: Sha)
      requires Sound(git)
      modifies registry, store
      ensures var off := Ancestors(git, from) - Ancestors(git, sha);
              var back := Ancestors(git, sha) - Ancestors(git, from);
              && registry.View() == MovedIndex(old(registry.View()), off, back, from, sha)
              && store.checks == AllSynced(old(store.checks), off, back + {sha})
    {
      ghost var off := Ancestors(git, from) - Ancestors(git, sha);
      ghost var back := Ancestors(git, sha) - Ancestors(git, from);
      var offLine := CommitsOnlyIn(git, from, sha);
      RangeIsDifference(git, from, sha);
      assert (set x | x in offLine) == off;
      MarkOffLine(offLine, from, sha);
      var ahead := CommitsOnlyIn(git, sha, from);
      RangeIsDifference(git, sha, from);
      var backOn := Without(ahead, sha);
      assert (set x | x in backOn) == back - {sha};
      MarkBackOn(backOn);
      assert back - {sha} + {sha} == back + {sha};
      var _, _ := store.SyncLifecycle(set x | x in offLine, (set x | x in backOn) + {sha});
    }

    /** Blue-green: the candidate starts in the other slot and is promoted only when healthy and,
        with the gate on, verified; until then nothing but its own status changes. */
    method RebootToVersion(r: Request) returns (ok: bool)
      requires Usable(r) && Sound(git)
      modifies this, registry, store
      ensures View() == Rebooted(old(View()), r)
      ensures ok <==> Rejection(r).None?
    {
      if !r.trial.healthy {
        registry.SetStatus(r.sha, HealthFailed, None);
        return false;
      }
      if r.trial.gateOn && (r.names != [] || r.regressions) && !r.trial.verified {
        registry.SetStatus(r.sha, VerifyFailed, None);
        return false;
      }
      Promote(r);
      return true;
    }

    /** The bookkeeping of a successful reboot. */
    method Promote(r: Request)
      requires Usable(r) && Sound(git)
      modifies this, registry, store
      ensures View() == Promoted'(old(View()), r)
    {
      var oldMain := main;
      SwitchTo(r.sha, r.op);
      if oldMain != r.sha {
        MoveLine(oldMain, r.sha);
      } else {
        assert registry.versions == MovedIndex(registry.View(), {}, {}, oldMain, r.sha).versions;
      }
      registry.SetStatus(r.sha, Promoted, None);
      if r.names != [] && r.freeze {
        var _ := store.FreezeChecks(r.names, r.sha, r.ids);
      }
    }

    /** One-step undo. */
    method Rollback(trial: Trial) returns (ok: bool)
      requires Sound(git)
      modifies this, registry, store
      ensures View() == RolledBackOnce(old(View()), trial)
      ensures ok <==> UndoTarget(old(slots)).Some? && trial.healthy
    {
      var target := if slots.history != [] then Top(slots.history) else slots.previousVersion;
      if target.None? { return false; }
      ok := RebootToVersion(Plain(target.value, Pop, trial, false));
    }

    /** Jump to any known version; the gate never blocks it. */
    method RollbackTo(sha: Sha, trial: Trial) returns (ok: bool)
      requires Sound(git)
      modifies this, registry, store
      ensures View() == Rebooted(old(View()), Plain(sha, Push, trial, false))
      ensures ok <==> trial.healthy
    {
      ok := RebootToVersion(Plain(sha, Push, trial, false));
    }

    /** The live app went unhealthy: go back to the latest other promoted version. */
    method OnLiveUnhealthy(trial: Trial)
      requires Sound(git)
      modifies this, registry, store
      ensures View() == Recovered(old(View()), trial)
    {
      var bad := current.version;
      var rest := slots.history;
      while rest != [] && rest[|rest| - 1] == bad
        invariant LatestOther(slots.history, bad) == LatestOther(rest, bad)
        decreases |rest|
      {
        rest := rest[..|rest| - 1];
      }
      var target := if rest != [] then Top(rest)
                    else if slots.lastKnownGood == Some(bad) then None else slots.lastKnownGood;
      if target.Some? {
        var _ := RebootToVersion(Plain(target.value, Pop, trial, false));
      }
    }

    /** Commit the inverse (or a re-application) of one version on top of `main` and ship it. */
    method RunGitOp(kind: GitOp, target: Sha, sha: Sha, trial: Trial) returns (ok: bool)
      requires Sound(git + [Commit(sha, Some(main))])
      modifies this, registry, store
      ensures View() == GitOpShipped(old(View()), kind, target, sha, trial)
    {
      assert (git + [Commit(sha, Some(main))])[..|git|] == git;
      registry.RecordCommit(sha, Some(main), if kind == Revert then Some(target) else None,
                            if kind == Reapply then Some(target) else None, Committed);
      git := git + [Commit(sha, Some(main))];
      ok := RebootToVersion(Plain(sha, Push, trial, true));
      if ok {
        registry.SetStatus(target, if kind == Revert then Reverted else Reapplied, Some(sha));
        if kind == Revert {
          var _, _ := store.SyncLifecycle({target}, {});
        } else {
          var _, _ := store.SyncLifecycle({}, {target});
        }
      }
    }

    /** Ship a committed change to its named line: only a healthy, verified candidate moves the line,
        and production is not touched either way. */
    method AdvanceLine(line: string, sha: Sha, trial: Trial) returns (ok: bool)
      modifies this`lines, registry
      ensures ok <==> Rejection(Plain(sha, Push, trial, true)).None?
      ensures View() == LineAdvanced(old(View()), sha, trial)
      ensures lines == if ok then old(lines)[line := sha] else old(lines)
    {
      if !trial.healthy {
        registry.SetStatus(sha, HealthFailed, None);
        return false;
      }
      if trial.gateOn && !trial.verified {
        registry.SetStatus(sha, VerifyFailed, None);
        return false;
      }
      lines := lines[line := sha];
      registry.SetStatus(sha, LinePromoted, None);
      return true;
    }

    /** Kernel start: repair the index, boot the recorded good version or `main`, rewrite the slots. */
    method Boot(pending: set<Sha>, firstHealthy: bool, secondHealthy: bool) returns (up: bool)
      modifies this, registry
      ensures (up, View()) == Booted(old(View()), pending, firstHealthy, secondHealthy)
    {
      var _, _, _ := registry.Reconcile(git, Ancestors(git, main), pending);
      var target := if slots.lastKnownGood.Some? then slots.lastKnownGood.value else main;
      var ok := firstHealthy;
      if !ok && target != main {
        registry.SetStatus(target, HealthFailed, None);
        target := main;
        ok := secondHealthy;
      }
      if !ok { return false; }
      current := Handle(target, SlotA);
      var prev := slots.activeVersion;
      slots := Slots(SlotA, Some(target),
                     if slots.history != [] then Top(slots.history) else if prev != Some(target) then prev else None,
                     Some(target), slots.history);
      return true;
    }
  }

  function Without(s: seq<Sha>, x: Sha): (r: seq<Sha>)
    ensures forall y :: y in r <==> y in s && y != x
    ensures (forall i, j | 0 <= i < j < |s| :: s[i] != s[j]) ==> forall i, j | 0 <= i < j < |r| :: r[i] != r[j]
  {
    if s == [] then []
    else
      var rest := Without(s[1..], x);
      assert forall y :: y in s <==> y == s[0] || y in s[1..];
      if s[0] == x then rest
      else
        assert forall j | 0 <= j < |rest| :: rest[j] in rest && rest[j] in s[1..];
        [s[0]] + rest
  }
}
