/** The firmware's half of a gated kernel update, and the two operator requests that feed it: the
    reconcile, verify, swap, health-gate, roll-back protocol over small pointer files. */
module KernelSlots {
  import opened Wrappers
  import Text

  /** A kernel source tree. */
  datatype Tree = Tree(source: string)

  /** The digest of a tree, and whether a signature over a digest is valid under a public key. */
  datatype Crypto = Crypto(digest: Tree -> string, signed: (string, string, string) -> bool)

  /** What an active-kernel file names; an absent field reads as "". */
  datatype Pointer = Pointer(version: string, digest: string, signature: string, shipped: bool)

  /** Everything the two parties share: the tree at kernel/, its backup, the pointer files, the
      version store, and the boot-result note. */
  datatype Disk = Disk(live: Tree, backup: Option<Tree>, active: Option<Pointer>, prev: Option<Pointer>,
                       repo: map<string, Tree>, note: Option<string>)

  const MAX_ACTIVE_FAILURES := 3

  function Strip(s: string): string {
    Text.Trim(s, Text.IsSpace)
  }

  predicate InSync(c: Crypto, d: Disk) {
    d.active.None? || Text.Lower(d.active.value.digest) == c.digest(d.live)
  }

  /** The gate before a swap: digest match and, when a public key is set, a valid signature. */
  predicate Verified(c: Crypto, key: string, tree: Tree, p: Pointer) {
    var expected := Text.Lower(Strip(p.digest));
    && c.digest(tree) == expected
    && (Strip(key) != "" ==> Strip(p.signature) != "" && c.signed(expected, Strip(key), Strip(p.signature)))
  }

  predicate Swaps(c: Crypto, key: string, d: Disk) {
    && !InSync(c, d)
    && d.active.value.version in d.repo
    && Verified(c, key, d.repo[d.active.value.version], d.active.value)
  }

  function Prepared(c: Crypto, key: string, d: Disk): Disk {
    if Swaps(c, key, d) then d.(live := d.repo[d.active.value.version], backup := Some(d.live)) else d
  }

  /** The freshly swapped kernel failed its gate. */
  function RolledBack(d: Disk): Disk {
    d.(live := if d.backup.Some? then d.backup.value else d.live, backup := None, active := d.prev)
  }

  /** The note the restored kernel finds at its next boot; a nameless version leaves none. */
  function Noted(d: Disk, version: string): Disk {
    if version == "" then d else d.(note := Some(version))
  }

  // ---- the operator's two requests --------------------------------------------------------

  /** `write_active_kernel`: the current pointer, if any, becomes the rollback target. */
  function WithActive(d: Disk, p: Pointer): Disk {
    d.(active := Some(p), prev := if d.active.Some? then d.active else d.prev)
  }

  datatype PendingKernel = PendingKernel(version: string, digest: string)

  predicate ApprovalOk(c: Crypto, key: string, pending: PendingKernel, signature: string) {
    Strip(key) != "" ==> signature != "" && c.signed(pending.digest, Strip(key), Strip(signature))
  }

  function Approved(c: Crypto, key: string, d: Disk, pending: PendingKernel, signature: string): (bool, Disk) {
    if !ApprovalOk(c, key, pending, signature) then (false, d)
    else (true, WithActive(d, Pointer(pending.version, pending.digest, Strip(signature), false)))
  }

  /** The operator's rollback: to the recorded predecessor, else to the shipped seed. */
  function RollbackRequested(d: Disk, seed: Option<PendingKernel>): (bool, Disk) {
    if d.active.None? then (false, d)
    else
      var target := if d.prev.Some? then d.prev
                    else if seed.None? then None
                    else Some(Pointer(seed.value.version, seed.value.digest, "", true));
      if target.None? || target.value.version == d.active.value.version then (false, d)
      else (true, WithActive(d, target.value))
  }

  /** What the running kernel is asked for: a decision of the operator, or a new version to keep. */
  datatype Request =
    | Approve(pending: PendingKernel, signature: string)
    | Rollback(seed: Option<PendingKernel>)
    | Commit(version: string, tree: Tree)

  function Asked(c: Crypto, key: string, d: Disk, r: Request): Disk {
    match r
    case Approve(pending, signature) => Approved(c, key, d, pending, signature).1
    case Rollback(seed) => RollbackRequested(d, seed).1
    case Commit(version, tree) => d.(repo := d.repo[version := tree])
  }

  function AllAsked(c: Crypto, key: string, d: Disk, requests: seq<Request>): Disk {
    if requests == [] then d
    else Asked(c, key, AllAsked(c, key, d, requests[..|requests| - 1]), requests[|requests| - 1])
  }

  // ---- one turn --------------------------------------------------------------------------

  /** `Clean` also stands for any exit when supervision is off. */
  datatype Exit = Restart | Clean | Crash

  /** One turn of the supervise loop: does the pinned integrity check pass, does a gated kernel come
      up, what is it asked for while it runs, how does it end. */
  datatype Turn = Turn(pinOk: bool, healthy: bool, requests: seq<Request>, exit: Exit)

  datatype Outcome = Again | Stop

  /** The loop's own memory: consecutive crashes of an active kernel. */
  function Supervised(c: Crypto, key: string, d: Disk, failures: nat, t: Turn): (Disk, nat, Outcome) {
    var swapped := d.active.Some? && Swaps(c, key, d);
    var p := if d.active.Some? then Prepared(c, key, d) else d;
    if !t.pinOk then (p, failures, Stop)
    else if swapped && !t.healthy then (RolledBack(Noted(p, d.active.value.version)), failures, Again)
    else
      var f := if swapped then 0 else failures;
      var q := AllAsked(c, key, p, t.requests);
      match t.exit
      case Restart => (q, f, Again)
      case Clean => (q, f, Stop)
      case Crash =>
        if q.active.None? then (q, f, Again)
        else if f + 1 >= MAX_ACTIVE_FAILURES then (q.(active := None), 0, Again)
        else (q, f + 1, Again)
  }

  /** The crash counter after a turn: when the loop ends it is gone, and the next start begins at zero. */
  function Carried(failures: nat, outcome: Outcome): nat {
    if outcome == Stop then 0 else failures
  }

  class Firmware {
    const crypto: Crypto
    const key: string
    var disk: Disk
    var failures: nat

    constructor (crypto: Crypto, key: string, disk: Disk)
      ensures this.crypto == crypto && this.key == key && this.disk == disk && failures == 0
    {
      this.crypto, this.key, this.disk, this.failures := crypto, key, disk, 0;
    }

    /** Make kernel/ match the active pointer, or leave it untouched. */
    method PrepareKernel() returns (swapped: bool)
      modifies this`disk
      ensures swapped == Swaps(crypto, key, old(disk))
      ensures disk == Prepared(crypto, key, old(disk))
    {
      if disk.active.None? || Text.Lower(disk.active.value.digest) == crypto.digest(disk.live) { return false; }
      var active := disk.active.value;
      if active.version !in disk.repo { return false; }
      var candidate := disk.repo[active.version];
      if !Verified(crypto, key, candidate, active) { return false; }
      disk := disk.(backup := Some(disk.live));
      disk := disk.(live := candidate);
      return true;
    }

    method RollbackAfterHealthFailure()
      modifies this`disk
      ensures disk == RolledBack(old(disk))
    {
      if disk.backup.Some? { disk := disk.(live := disk.backup.value, backup := None); }
      disk := disk.(active := disk.prev);
    }

    /** What the running kernel writes: its operators' requests, in order. */
    method RunKernel(requests: seq<Request>)
      modifies this`disk
      ensures disk == AllAsked(crypto, key, old(disk), requests)
    {
      for k := 0 to |requests|
        invariant disk == AllAsked(crypto, key, old(disk), requests[..k])
      {
        assert requests[..k + 1][..k] == requests[..k];
        disk := Asked(crypto, key, disk, requests[k]);
      }
      assert requests[..|requests|] == requests;
    }

    /** One turn: reconcile, check, launch, gate, wait. */
    method Supervise(t: Turn) returns (outcome: Outcome)
      modifies this
      ensures (disk, failures, outcome) == Supervised(crypto, key, old(disk), old(failures), t)
    {
      hide Swaps, Prepared, AllAsked, RolledBack;
      var swapped := false;
      var toVersion := "";
      if disk.active.Some? {
        toVersion := disk.active.value.version;
        swapped := PrepareKernel();
      }
      if !t.pinOk { return Stop; }
      if swapped {
        if !t.healthy {
          if toVersion != "" { disk := disk.(note := Some(toVersion)); }
          RollbackAfterHealthFailure();
          return Again;
        }
        failures := 0;
      }
      RunKernel(t.requests);
      if t.exit == Restart { return Again; }
      if t.exit == Clean { return Stop; }
      if disk.active.Some? {
        failures := failures + 1;
        if failures >= MAX_ACTIVE_FAILURES {
          disk := disk.(active := None);
          failures := 0;
        }
      }
      return Again;
    }
  }

  // ---- what reaches kernel/ ---------------------------------------------------------------

  /** What the firmware finds at one boot: pointer files and version store in any state. */
  datatype Found = Found(active: Option<Pointer>, prev: Option<Pointer>, repo: map<string, Tree>, turn: Turn)

  /** The disk and the crash counter after those boots. */
  function Boots(c: Crypto, key: string, d: Disk, failures: nat, founds: seq<Found>): (Disk, nat) {
    if founds == [] then (d, failures)
    else
      var last := founds[|founds| - 1];
      var (before, f) := Boots(c, key, d, failures, founds[..|founds| - 1]);
      var (after, g, outcome) :=
        Supervised(c, key, before.(active := last.active, prev := last.prev, repo := last.repo), f, last.turn);
      (after, Carried(g, outcome))
  }

  /** The active file has the digest of the tree and, with a public key set, carries a signature over it
      that is valid under the key. */
  ghost predicate VouchesFor(c: Crypto, key: string, p: Pointer, tree: Tree) {
    && Text.Lower(Strip(p.digest)) == c.digest(tree)
    && (Strip(key) == "" || (Strip(p.signature) != "" && c.signed(c.digest(tree), Strip(key), Strip(p.signature))))
  }

  ghost predicate Vouched(c: Crypto, key: string, founds: seq<Found>, tree: Tree) {
    exists k | 0 <= k < |founds| :: founds[k].active.Some? && VouchesFor(c, key, founds[k].active.value, tree)
  }

  /** Requests touch neither kernel/ nor its backup, and leave no predecessor without a pointer. */
  lemma {:induction false} RequestsKeepTree(c: Crypto, key: string, d: Disk, requests: seq<Request>)
    ensures var q := AllAsked(c, key, d, requests);
            && q.live == d.live && q.backup == d.backup && q.note == d.note
            && (NoStalePrev(d) ==> NoStalePrev(q)) && (d.active.Some? ==> q.active.Some?)
  {
    hide ApprovalOk;
    if requests != [] { RequestsKeepTree(c, key, d, requests[..|requests| - 1]); }
  }

  /** One turn leaves at kernel/ what was there, or what this turn's pointer vouches for. */
  lemma TurnKeepsOrVouches(c: Crypto, key: string, d: Disk, failures: nat, t: Turn)
    ensures var live := Supervised(c, key, d, failures, t).0.live;
            live == d.live || (d.active.Some? && VouchesFor(c, key, d.active.value, live))
  {
    if d.active.Some? && Swaps(c, key, d) { SwapIsVouched(c, key, d); }
    var p := if d.active.Some? then Prepared(c, key, d) else d;
    if d.active.Some? { PreparedTree(c, key, d); }
    RequestsKeepTree(c, key, p, t.requests);
    hide Swaps, AllAsked, VouchesFor, Prepared;
  }

  lemma PreparedTree(c: Crypto, key: string, d: Disk)
    requires d.active.Some?
    ensures var p := Prepared(c, key, d);
            if Swaps(c, key, d) then p.live == d.repo[d.active.value.version] && p.backup == Some(d.live) else p == d
  {
    hide InSync, Verified;
  }

  lemma SwapIsVouched(c: Crypto, key: string, d: Disk)
    requires d.active.Some? && Swaps(c, key, d)
    ensures VouchesFor(c, key, d.active.value, d.repo[d.active.value.version])
    ensures Prepared(c, key, d).live == d.repo[d.active.value.version] && Prepared(c, key, d).backup == Some(d.live)
  {
  }

  /** Whatever the pointer files and the version store hold at each boot, over any number of boots,
      gates and rollbacks, kernel/ holds the tree it began with or one that some boot verified:
      digest equal to the approved one and, with a public key set, validly signed. */
  lemma {:induction false} OnlyVouchedTreesRun(c: Crypto, key: string, d: Disk, failures: nat, founds: seq<Found>)
    ensures var live := Boots(c, key, d, failures, founds).0.live;
            live == d.live || Vouched(c, key, founds, live)
  {
    hide Supervised, VouchesFor;
    if founds != [] {
      var init, last := founds[..|founds| - 1], founds[|founds| - 1];
      OnlyVouchedTreesRun(c, key, d, failures, init);
      var (before, f) := Boots(c, key, d, failures, init);
      if before.live != d.live {
        var k :| 0 <= k < |init| && init[k].active.Some?
                 && VouchesFor(c, key, init[k].active.value, before.live);
        assert founds[k] == init[k];
        assert Vouched(c, key, founds, before.live);
      }
      TurnKeepsOrVouches(c, key, before.(active := last.active, prev := last.prev, repo := last.repo), f, last.turn);
    }
  }

  // ---- approval and failure ---------------------------------------------------------------

  ghost predicate Normalised(s: string) {
    Text.Lower(Strip(s)) == s && Text.Lower(s) == s
  }

  /** An approved version is swapped in exactly when its stored tree has the approved digest, kernel/ has
      not, and, with a public key set, its signature is more than blanks. */
  lemma ApprovalLeadsToSwap(c: Crypto, key: string, d: Disk, pending: PendingKernel, signature: string)
    requires ApprovalOk(c, key, pending, signature) && Normalised(pending.digest)
    ensures var approved := Approved(c, key, d, pending, signature).1;
            && (Swaps(c, key, approved) <==>
                  && pending.version in d.repo
                  && c.digest(d.repo[pending.version]) == pending.digest != c.digest(d.live)
                  && (Strip(key) != "" ==> Strip(signature) != ""))
            && (Swaps(c, key, approved) ==> Prepared(c, key, approved).live == d.repo[pending.version])
  {
    hide Text.Trim;
    Text.TrimIsTrimmed(signature, Text.IsSpace);
    Text.TrimIsTrimmed(Strip(signature), Text.IsSpace);
  }

  /** After a request, the swap and a failed gate, kernel/ is as before the request. The pointer is
      too, exactly when there was one or no older one lay beside it; then the next boot swaps nothing. */
  lemma FailedGateRestores(c: Crypto, key: string, d: Disk, p: Pointer, failures: nat, requests: seq<Request>,
                           exit: Exit)
    requires InSync(c, d) && Swaps(c, key, WithActive(d, p))
    ensures var (after, _, outcome) :=
              Supervised(c, key, WithActive(d, p), failures, Turn(true, false, requests, exit));
            && outcome == Again && after.live == d.live
            && after.note == (if p.version != "" then Some(p.version) else d.note)
            && (after.active == d.active <==> (d.active.Some? || d.prev.None?))
            && (after.active == d.active ==> InSync(c, after) && !Swaps(c, key, after))
  {
  }

  /** The same for the operator's rollback, without a condition: it is refused without a pointer. */
  lemma FailedRollbackRestores(c: Crypto, key: string, d: Disk, seed: Option<PendingKernel>, failures: nat,
                               requests: seq<Request>, exit: Exit)
    requires InSync(c, d) && RollbackRequested(d, seed).0
    requires Swaps(c, key, RollbackRequested(d, seed).1)
    ensures var (after, _, _) :=
              Supervised(c, key, RollbackRequested(d, seed).1, failures, Turn(true, false, requests, exit));
            && after.live == d.live && after.active == d.active
            && InSync(c, after) && !Swaps(c, key, after)
  {
    var target := RollbackRequested(d, seed).1.active.value;
    assert RollbackRequested(d, seed).1 == WithActive(d, target);
    FailedGateRestores(c, key, d, target, failures, requests, exit);
  }

  /** No rollback target without a pointer. */
  predicate NoStalePrev(d: Disk) {
    d.active.None? ==> d.prev.None?
  }

  /** The disk and the crash counter after one turn. */
  function Next(c: Crypto, key: string, d: Disk, failures: nat, t: Turn): (Disk, nat) {
    var (after, f, outcome) := Supervised(c, key, d, failures, t);
    (after, Carried(f, outcome))
  }

  /** Does this turn give up on the active kernel after repeated crashes? */
  predicate FallsBack(c: Crypto, key: string, d: Disk, failures: nat, t: Turn) {
    t.pinOk && t.exit == Crash
    && var p := if d.active.Some? then Prepared(c, key, d) else d;
       var swapped := d.active.Some? && Swaps(c, key, d);
       AllAsked(c, key, p, t.requests).active.Some? && (swapped ==> t.healthy)
       && (if swapped then 0 else failures) + 1 >= MAX_ACTIVE_FAILURES
  }

  ghost predicate NeverFallsBack(c: Crypto, key: string, d: Disk, failures: nat, turns: seq<Turn>)
    decreases |turns|
  {
    turns == [] ||
    (!FallsBack(c, key, d, failures, turns[0])
     && var next := Next(c, key, d, failures, turns[0]);
        NeverFallsBack(c, key, next.0, next.1, turns[1..]))
  }

  ghost function After(c: Crypto, key: string, d: Disk, failures: nat, turns: seq<Turn>): Disk
    decreases |turns|
  {
    if turns == [] then d
    else
      var next := Next(c, key, d, failures, turns[0]);
      After(c, key, next.0, next.1, turns[1..])
  }

  lemma StepKeepsNoStalePrev(c: Crypto, key: string, d: Disk, failures: nat, t: Turn)
    requires NoStalePrev(d) && !FallsBack(c, key, d, failures, t)
    ensures NoStalePrev(Next(c, key, d, failures, t).0)
  {
    hide AllAsked, Swaps;
    RequestsKeepTree(c, key, if d.active.Some? then Prepared(c, key, d) else d, t.requests);
  }

  /** In runs that never give up on a crashing kernel the condition of FailedGateRestores always
      holds, so a failed update leaves tree and pointer as they were before its approval. */
  lemma {:induction false} RunKeepsNoStalePrev(c: Crypto, key: string, d: Disk, failures: nat, turns: seq<Turn>)
    requires NoStalePrev(d) && NeverFallsBack(c, key, d, failures, turns)
    ensures NoStalePrev(After(c, key, d, failures, turns))
    decreases |turns|
  {
    if turns != [] {
      StepKeepsNoStalePrev(c, key, d, failures, turns[0]);
      var next := Next(c, key, d, failures, turns[0]);
      RunKeepsNoStalePrev(c, key, next.0, next.1, turns[1..]);
    }
  }

  /** In such a run, from a disk where no older pointer lies about, every update that is approved in
      sync, swapped in and fails its gate leaves tree and pointer as they were before its approval. */
  lemma FailedUpdateIsUndone(c: Crypto, key: string, d: Disk, failures: nat, turns: seq<Turn>,
                             pending: PendingKernel, signature: string, crashes: nat,
                             requests: seq<Request>, exit: Exit)
    requires NoStalePrev(d) && NeverFallsBack(c, key, d, failures, turns)
    requires var before := After(c, key, d, failures, turns);
             InSync(c, before) && Approved(c, key, before, pending, signature).0
             && Swaps(c, key, Approved(c, key, before, pending, signature).1)
    ensures var before := After(c, key, d, failures, turns);
            var approved := Approved(c, key, before, pending, signature).1;
            var after := Supervised(c, key, approved, crashes, Turn(true, false, requests, exit)).0;
            && after.live == before.live && after.active == before.active
            && InSync(c, after) && Prepared(c, key, after) == after
  {
    var before := After(c, key, d, failures, turns);
    RunKeepsNoStalePrev(c, key, d, failures, turns);
    FailedGateRestores(c, key, before, Pointer(pending.version, pending.digest, Strip(signature), false),
                       crashes, requests, exit);
  }

  /** Giving up on a crashing kernel clears the pointer and keeps its predecessor, so a later failed
      update would not clear the pointer again but point it at that predecessor. */
  lemma FallBackLeavesStalePrev(c: Crypto, key: string, d: Disk)
    requires d.active.Some? && d.prev.Some? && InSync(c, d)
    ensures var givenUp := Supervised(c, key, d, MAX_ACTIVE_FAILURES - 1, Turn(true, true, [], Crash)).0;
            givenUp.active.None? && !NoStalePrev(givenUp) && givenUp.live == d.live
  {
  }

  function Turns(c: Crypto, key: string, d: Disk, turns: seq<Turn>): (Disk, nat) {
    if turns == [] then (d, 0)
    else
      var (before, failures) := Turns(c, key, d, turns[..|turns| - 1]);
      var (after, f, _) := Supervised(c, key, before, failures, turns[|turns| - 1]);
      (after, f)
  }

  function Crashes(turns: seq<Turn>): nat {
    if turns == [] then 0
    else Crashes(turns[..|turns| - 1]) + if turns[|turns| - 1].exit == Crash then 1 else 0
  }

  /** One turn of an active kernel in sync that does not end the loop. */
  lemma CrashCounts(c: Crypto, key: string, d: Disk, failures: nat, t: Turn)
    requires d.active.Some? && InSync(c, d) && t.pinOk && t.requests == [] && t.exit != Clean
    ensures var (after, f, _) := Supervised(c, key, d, failures, t);
            (after, f) == if t.exit == Restart then (d, failures)
                          else if failures + 1 >= MAX_ACTIVE_FAILURES then (d.(active := None), 0)
                          else (d, failures + 1)
  {
  }

  /** An active kernel is given up at its third crash and not before, however many requested restarts
      lie between the crashes: only a swap that passes its gate starts the count again. */
  lemma {:induction false} FallsBackAtThirdCrash(c: Crypto, key: string, d: Disk, turns: seq<Turn>)
    requires d.active.Some? && InSync(c, d) && forall t | t in turns :: t.pinOk && t.requests == [] && t.exit != Clean
    ensures Crashes(turns) < MAX_ACTIVE_FAILURES ==> Turns(c, key, d, turns) == (d, Crashes(turns))
    ensures Crashes(turns) == MAX_ACTIVE_FAILURES && turns[|turns| - 1].exit == Crash ==>
              Turns(c, key, d, turns) == (d.(active := None), 0)
  {
    hide InSync, Supervised;
    if turns != [] {
      var init, last := turns[..|turns| - 1], turns[|turns| - 1];
      assert last in turns && forall t | t in init :: t in turns;
      FallsBackAtThirdCrash(c, key, d, init);
      CrashCounts(c, key, d, Crashes(init), last);
    }
  }

  /** An accepted operator rollback keeps the version it leaves as the next rollback target: once the
      target runs, asking again is always accepted and leads straight back to that version. */
  lemma SecondRollbackReturns(c: Crypto, key: string, d: Disk, seed: Option<PendingKernel>,
                              again: Option<PendingKernel>, failures: nat, exit: Exit)
    requires RollbackRequested(d, seed).0 && exit != Crash
    ensures var (_, asked) := RollbackRequested(d, seed);
            var (after, _, _) := Supervised(c, key, asked, failures, Turn(true, true, [], exit));
            var (ok, back) := RollbackRequested(after, again);
            && asked.prev == d.active
            && ok && back.active == d.active && back.prev == asked.active
  {
  }

  /** Rolling back to the shipped kernel names it without a signature: with a public key set the
      firmware never swaps it in, and without one it does whenever the seed deploys as recorded. */
  lemma SeedRollbackNeedsUnsignedMode(c: Crypto, key: string, d: Disk, seed: PendingKernel)
    requires d.prev.None? && d.active.Some? && d.active.value.version != seed.version
    requires Normalised(seed.digest) && seed.digest != c.digest(d.live)
    requires seed.version in d.repo && c.digest(d.repo[seed.version]) == seed.digest
    ensures var (ok, asked) := RollbackRequested(d, Some(seed));
            ok && (Swaps(c, key, asked) <==> Strip(key) == "")
  {
  }
}
