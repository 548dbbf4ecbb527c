/** The firmware's loop over whole runs: when it goes on, and that an approved kernel is the next to run. */
module KernelLoop {
  import opened Wrappers
  import Text
  import opened KernelSlots

  // ---- one turn --------------------------------------------------------------------------

  /** A freshly swapped kernel that does not come up. */
  predicate GateFails(c: Crypto, key: string, d: Disk, t: Turn) {
    t.pinOk && d.active.Some? && Swaps(c, key, d) && !t.healthy
  }

  /** A turn ends the loop exactly when the integrity check fails, or a kernel that was not rolled back
      exits cleanly: a failed gate, a requested restart and a crash all go on. */
  lemma LoopEndsExactly(c: Crypto, key: string, d: Disk, failures: nat, t: Turn)
    ensures Supervised(c, key, d, failures, t).2 == Stop
       <==> !t.pinOk || (!GateFails(c, key, d, t) && t.exit == Clean)
  {
    hide Swaps, Prepared, AllAsked;
  }

  /** A failed gate puts the tree and the pointer back that were there before, and leaves a note naming the
      version that failed, if it has a name. The backup is spent. */
  lemma FailedGatePutsBack(c: Crypto, key: string, d: Disk, failures: nat, t: Turn)
    requires GateFails(c, key, d, t)
    ensures var (after, count, _) := Supervised(c, key, d, failures, t);
            && count == failures
            && after == d.(backup := None, active := d.prev,
                           note := if d.active.value.version == "" then d.note else Some(d.active.value.version))
  {
    hide Swaps, AllAsked;
  }

  /** Every start of the firmware counts crashes from zero: a turn that ends the loop leaves no count, and
      any other hands its own on. */
  lemma StartsCountAfresh(c: Crypto, key: string, d: Disk, failures: nat, t: Turn)
    ensures var (after, count, outcome) := Supervised(c, key, d, failures, t);
            Next(c, key, d, failures, t) == (after, if outcome == Stop then 0 else count)
  {
    hide Supervised;
  }

  /** The crash count: a swap that passes its gate starts it again, an exit that was asked for leaves it,
      and a crash with a pointer on disk adds one, or at the third clears the pointer and the count. */
  lemma CrashesAreCounted(c: Crypto, key: string, d: Disk, failures: nat, t: Turn)
    requires t.pinOk && !GateFails(c, key, d, t)
    ensures var swapped := d.active.Some? && Swaps(c, key, d);
            var before := if swapped then 0 else failures;
            var q := AllAsked(c, key, if swapped then Prepared(c, key, d) else d, t.requests);
            var (after, count, _) := Supervised(c, key, d, failures, t);
            if t.exit != Crash || q.active.None? then (after, count) == (q, before)
            else if before < 2 then (after, count) == (q, before + 1)
            else after == q.(active := None) && count == 0
  {
    hide Swaps, AllAsked;
  }

  // ---- what is asked for -----------------------------------------------------------------

  /** An approval is accepted exactly when no public key is set or a signature over the digest comes with
      it. Then the active file names the version, and the one it replaces is kept; else nothing changes. */
  lemma ApprovalAcceptedExactly(c: Crypto, key: string, d: Disk, pending: PendingKernel, signature: string)
    ensures var (ok, u) := Approved(c, key, d, pending, signature);
            && (ok <==> Strip(key) == ""
                        || (|signature| > 0 && c.signed(pending.digest, Strip(key), Strip(signature))))
            && (!ok ==> u == d)
            && (ok ==> u == d.(active := u.active, prev := u.prev) && u.active.Some?
                       && u.active.value.version == pending.version && u.active.value.digest == pending.digest
                       && u.active.value.signature == Strip(signature)
                       && u.prev == if d.active.Some? then d.active else d.prev)
  {
    hide Text.Trim;
  }

  /** A rollback is accepted exactly when there is a pointer and a target of another version: the kept
      predecessor, or without one the seed. */
  lemma RollbackAcceptedExactly(d: Disk, seed: Option<PendingKernel>)
    ensures var (ok, u) := RollbackRequested(d, seed);
            && (ok <==> d.active.Some?
                        && if d.prev.Some? then d.prev.value.version != d.active.value.version
                           else seed.Some? && seed.value.version != d.active.value.version)
            && (!ok ==> u == d)
            && (ok ==> u == d.(active := u.active, prev := d.active) && u.active.Some?
                       && (d.prev.Some? ==> u.active == d.prev)
                       && (d.prev.None? ==> u.active == Some(Pointer(seed.value.version, seed.value.digest, "", true))))
  {
  }

  /** What each request does to the disk: an approval and a rollback what is said above, and a new version
      is kept in the store with no other changed. */
  lemma RequestsTakeEffect(c: Crypto, key: string, d: Disk, requests: seq<Request>, r: Request)
    ensures var before, u := AllAsked(c, key, d, requests), AllAsked(c, key, d, requests + [r]);
            && (r.Approve? ==> u == Approved(c, key, before, r.pending, r.signature).1)
            && (r.Rollback? ==> u == RollbackRequested(before, r.seed).1)
            && (r.Commit? ==>
                  && u == before.(repo := u.repo) && r.version in u.repo && u.repo[r.version] == r.tree
                  && u.repo.Keys == before.repo.Keys + {r.version}
                  && forall v | v in before.repo && v != r.version :: u.repo[v] == before.repo[v])
  {
    hide Approved, RollbackRequested;
    AskedSnoc(c, key, d, requests, r);
  }

  // ---- the loop --------------------------------------------------------------------------

  /** The loop over these turns, until one ends it. */
  function Loop(c: Crypto, key: string, d: Disk, failures: nat, turns: seq<Turn>): (Disk, nat, Outcome) {
    if turns == [] then (d, failures, Again)
    else
      var before := Loop(c, key, d, failures, turns[..|turns| - 1]);
      if before.2 == Stop then before else Supervised(c, key, before.0, before.1, turns[|turns| - 1])
  }

  lemma LoopSnoc(c: Crypto, key: string, d: Disk, failures: nat, turns: seq<Turn>, t: Turn)
    ensures var before := Loop(c, key, d, failures, turns);
            Loop(c, key, d, failures, turns + [t])
            == if before.2 == Stop then before else Supervised(c, key, before.0, before.1, t)
  {
    hide Supervised;
    assert (turns + [t])[..|turns|] == turns;
  }

  lemma AskedSnoc(c: Crypto, key: string, d: Disk, requests: seq<Request>, r: Request)
    ensures AllAsked(c, key, d, requests + [r]) == Asked(c, key, AllAsked(c, key, d, requests), r)
  {
    hide Asked;
    assert (requests + [r])[..|requests|] == requests;
  }

  /** What a requested restart leaves to the next turn. */
  lemma RestartLeaves(c: Crypto, key: string, d: Disk, failures: nat, t: Turn)
    requires t.pinOk && t.exit == Restart && !GateFails(c, key, d, t)
    ensures var (after, _, outcome) := Supervised(c, key, d, failures, t);
            outcome == Again && after == AllAsked(c, key, if d.active.Some? then Prepared(c, key, d) else d, t.requests)
  {
    hide Swaps, AllAsked, Prepared;
  }

  /** The tree a launched turn runs, and leaves. */
  lemma TurnRuns(c: Crypto, key: string, d: Disk, failures: nat, t: Turn)
    requires t.pinOk && t.healthy && d.active.Some?
    ensures Supervised(c, key, d, failures, t).0.live
         == if Swaps(c, key, d) then d.repo[d.active.value.version] else d.live
  {
    RequestsKeepTree(c, key, Prepared(c, key, d), t.requests);
    hide Swaps, AllAsked;
  }

  /** Whatever a run of the loop that has not ended left behind: when the running kernel's last request is
      an accepted approval and it then exits for a restart, the loop goes on, and the next turn runs the
      approved tree exactly when that has the approved digest and, with a public key set, the signature
      is more than blanks; else it runs the tree that was there. */
  lemma ApprovedKernelRunsNext(c: Crypto, key: string, d: Disk, failures: nat, turns: seq<Turn>,
                               healthy: bool, requests: seq<Request>, pending: PendingKernel, signature: string,
                               next: Turn)
    requires Loop(c, key, d, failures, turns).2 == Again && Normalised(pending.digest)
    requires next.pinOk && next.healthy
    requires var t := Turn(true, healthy, requests + [Approve(pending, signature)], Restart);
             var e := Loop(c, key, d, failures, turns).0;
             var q := AllAsked(c, key, if e.active.Some? then Prepared(c, key, e) else e, requests);
             !GateFails(c, key, e, t) && ApprovalOk(c, key, pending, signature) && pending.version in q.repo
    ensures var t := Turn(true, healthy, requests + [Approve(pending, signature)], Restart);
            var e := Loop(c, key, d, failures, turns).0;
            var q := AllAsked(c, key, if e.active.Some? then Prepared(c, key, e) else e, requests);
            var tree := q.repo[pending.version];
            && Loop(c, key, d, failures, turns + [t]).2 == Again
            && Loop(c, key, d, failures, turns + [t] + [next]).0.live
               == if c.digest(tree) == pending.digest != c.digest(q.live)
                     && (Strip(key) == "" || Strip(signature) != "") then tree else q.live
  {
    hide Supervised, Prepared, AllAsked, Swaps, Normalised, ApprovalOk, Text.Trim, Loop;
    var t := Turn(true, healthy, requests + [Approve(pending, signature)], Restart);
    var (e, g, _) := Loop(c, key, d, failures, turns);
    var p := if e.active.Some? then Prepared(c, key, e) else e;
    var q := AllAsked(c, key, p, requests);
    RestartLeaves(c, key, e, g, t);
    AskedSnoc(c, key, p, requests, Approve(pending, signature));
    LoopSnoc(c, key, d, failures, turns, t);
    LoopSnoc(c, key, d, failures, turns + [t], next);
    var approved := Approved(c, key, q, pending, signature).1;
    ApprovalLeadsToSwap(c, key, q, pending, signature);
    var (_, f, _) := Supervised(c, key, e, g, t);
    TurnRuns(c, key, approved, f, next);
  }

  /** The same for the operator's rollback: after the restart the loop goes on, and the next turn runs the
      predecessor's tree exactly when that deploys, differs from kernel/ and is vouched for. */
  lemma RollbackRunsNext(c: Crypto, key: string, d: Disk, failures: nat, turns: seq<Turn>, healthy: bool,
                         requests: seq<Request>, seed: Option<PendingKernel>, next: Turn)
    requires Loop(c, key, d, failures, turns).2 == Again && next.pinOk && next.healthy
    requires var t := Turn(true, healthy, requests + [Rollback(seed)], Restart);
             var e := Loop(c, key, d, failures, turns).0;
             var q := AllAsked(c, key, if e.active.Some? then Prepared(c, key, e) else e, requests);
             && !GateFails(c, key, e, t) && RollbackRequested(q, seed).0
             && q.prev.Some? && q.prev.value.version in q.repo
    ensures var t := Turn(true, healthy, requests + [Rollback(seed)], Restart);
            var e := Loop(c, key, d, failures, turns).0;
            var q := AllAsked(c, key, if e.active.Some? then Prepared(c, key, e) else e, requests);
            var tree := q.repo[q.prev.value.version];
            && Loop(c, key, d, failures, turns + [t]).2 == Again
            && Loop(c, key, d, failures, turns + [t] + [next]).0.live
               == if Text.Lower(q.prev.value.digest) != c.digest(q.live) && VouchesFor(c, key, q.prev.value, tree)
                  then tree else q.live
  {
    hide Supervised, Prepared, AllAsked, Swaps, Loop;
    var t := Turn(true, healthy, requests + [Rollback(seed)], Restart);
    var (e, g, _) := Loop(c, key, d, failures, turns);
    var p := if e.active.Some? then Prepared(c, key, e) else e;
    var q := AllAsked(c, key, p, requests);
    RestartLeaves(c, key, e, g, t);
    AskedSnoc(c, key, p, requests, Rollback(seed));
    LoopSnoc(c, key, d, failures, turns, t);
    LoopSnoc(c, key, d, failures, turns + [t], next);
    var back := RollbackRequested(q, seed).1;
    SwapSpelled(c, key, back);
    var (_, f, _) := Supervised(c, key, e, g, t);
    TurnRuns(c, key, back, f, next);
  }

  lemma SwapSpelled(c: Crypto, key: string, d: Disk)
    requires d.active.Some?
    ensures Swaps(c, key, d) <==>
              && Text.Lower(d.active.value.digest) != c.digest(d.live) && d.active.value.version in d.repo
              && VouchesFor(c, key, d.active.value, d.repo[d.active.value.version])
  {
  }
}
