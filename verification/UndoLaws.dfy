/** The undo stack inverts promotion. */
module UndoLaws {
  import opened Wrappers
  import opened VersionTree
  import opened CheckStore
  import opened Promotion
  import opened PromotionLaws

  /** A request that goes through and moves `main`. */
  ghost predicate Advances(w: World, r: Request) {
    Usable(r) && r.op == Push && Rejection(r).None? && r.sha in Shas(w.git) && r.sha != w.main
  }

  /** The undo stack with the active version on top. */
  function Trail(w: World): seq<Sha> {
    w.slots.history + [w.main]
  }

  lemma PromotionExtendsTrail(w: World, r: Request)
    requires Good(w) && Advances(w, r)
    ensures var longer := Trail(w) + [r.sha];
            Trail(Rebooted(w, r)) == if |longer| > PROMOTION_HISTORY_MAX + 1 then longer[1..] else longer
  {
    hide Indexed, Placed, NoStutter, MovedIndex, AllSynced, NewChecks, Ancestors;
    TopDiffers(w.slots.history, w.main);
    PushedTrail(w.slots.history, w.main, r.sha);
  }

  lemma TopDiffers(history: seq<Sha>, active: Sha)
    requires NoStutter(history + [active])
    ensures history != [] ==> history[|history| - 1] != active
  {
    assert DiffersFromNext(history + [active], |history| - 1);
  }

  /** Pushing the departed version and cutting to the bound is dropping the oldest of the trail. */
  lemma PushedTrail(history: seq<Sha>, active: Sha, sha: Sha)
    requires active != sha && (history != [] ==> history[|history| - 1] != active)
    requires |history| <= PROMOTION_HISTORY_MAX
    ensures var longer := history + [active] + [sha];
            Stacked(history, active, sha, Push) + [sha]
            == if |longer| > PROMOTION_HISTORY_MAX + 1 then longer[1..] else longer
  {
  }

  lemma RollbackShortensTrail(w: World, trial: Trial)
    requires Good(w) && trial.healthy && w.slots.history != []
    ensures Trail(RolledBackOnce(w, trial)) == w.slots.history
    ensures RolledBackOnce(w, trial).current.slot == OtherSlot(w.current.slot)
  {
  }

  lemma TopOfTrail(w: World)
    ensures w.main == Trail(w)[|Trail(w)| - 1] && w.slots.history == Trail(w)[..|Trail(w)| - 1]
  {
  }

  /** `back` is where a world with this trail is after one rollback from `up`. */
  lemma RollbackReturns(w: World, up: World, trial: Trial)
    requires Good(up) && trial.healthy && up.current.slot == OtherSlot(w.current.slot)
    requires var longer := Trail(w) + [up.main];
             Trail(up) == if |longer| > PROMOTION_HISTORY_MAX + 1 then longer[1..] else longer
    ensures var back := RolledBackOnce(up, trial);
            && back.main == w.main && back.current == Handle(w.main, w.current.slot)
            && back.slots.activeVersion == Some(w.main) == back.slots.lastKnownGood
            && back.slots.history == if |w.slots.history| == PROMOTION_HISTORY_MAX then w.slots.history[1..]
                                     else w.slots.history
  {
    hide RolledBackOnce, Indexed, NoStutter, Placed;
    TopOfTrail(up);
    RollbackShortensTrail(up, trial);
    RollbackKeepsGood(up, trial);
    var back := RolledBackOnce(up, trial);
    TopOfTrail(back);
    var trail := Trail(w);
    if |w.slots.history| == PROMOTION_HISTORY_MAX {
      assert Trail(back) == trail[1..];
      assert trail[1..][..|trail| - 2] == w.slots.history[1..];
    } else {
      assert Trail(back) == trail;
    }
  }

  /** Promote a different version, then roll back: the same version is live in the same slot again
      and the stack is as before, short of its oldest entry if it was full. */
  lemma RollbackUndoesPromotion(w: World, r: Request, trial: Trial)
    requires Good(w) && Advances(w, r) && trial.healthy
    ensures var back := RolledBackOnce(Rebooted(w, r), trial);
            && back.main == w.main && back.current == w.current
            && back.slots.activeVersion == Some(w.main) == back.slots.lastKnownGood
            && back.slots.history == if |w.slots.history| == PROMOTION_HISTORY_MAX then w.slots.history[1..]
                                     else w.slots.history
  {
    RebootKeepsGood(w, r);
    PromotionExtendsTrail(w, r);
    RollbackReturns(w, Rebooted(w, r), trial);
  }

  ghost predicate Climb(w: World, rs: seq<Request>)
    decreases |rs|
  {
    rs == [] || (Advances(w, rs[0]) && Climb(Rebooted(w, rs[0]), rs[1..]))
  }

  ghost function Promotions(w: World, rs: seq<Request>): World
    requires Climb(w, rs)
    decreases |rs|
  {
    if rs == [] then w else Promotions(Rebooted(w, rs[0]), rs[1..])
  }

  function Targets(rs: seq<Request>): seq<Sha> {
    if rs == [] then [] else [rs[0].sha] + Targets(rs[1..])
  }

  function Undo(w: World, n: nat, trial: Trial): World
    decreases n
  {
    if n == 0 then w else Undo(RolledBackOnce(w, trial), n - 1, trial)
  }

  predicate EndsWith(s: seq<Sha>, tail: seq<Sha>) {
    |tail| <= |s| && s[|s| - |tail|..] == tail
  }

  lemma TailStep(tail: seq<Sha>, rs: seq<Request>)
    requires rs != []
    ensures tail + [rs[0].sha] + Targets(rs[1..]) == tail + Targets(rs)
  {
  }

  lemma ExtendTail(s: seq<Sha>, tail: seq<Sha>, x: Sha)
    requires EndsWith(s, tail)
    ensures EndsWith(s + [x], tail + [x])
    ensures |tail| < |s| ==> EndsWith((s + [x])[1..], tail + [x])
  {
  }

  lemma {:induction false} ClimbLeavesTrail(w: World, rs: seq<Request>, tail: seq<Sha>)
    requires Good(w) && Climb(w, rs) && EndsWith(Trail(w), tail)
    requires |tail| + |rs| <= PROMOTION_HISTORY_MAX + 1
    ensures Good(Promotions(w, rs)) && EndsWith(Trail(Promotions(w, rs)), tail + Targets(rs))
    decreases |rs|
  {
    if rs == [] {
      assert tail + Targets(rs) == tail;
    } else {
      RebootKeepsGood(w, rs[0]);
      PromotionExtendsTrail(w, rs[0]);
      ExtendTail(Trail(w), tail, rs[0].sha);
      ClimbLeavesTrail(Rebooted(w, rs[0]), rs[1..], tail + [rs[0].sha]);
      TailStep(tail, rs);
    }
  }

  lemma PrefixOfPrefix(s: seq<Sha>, k: nat)
    requires 0 < k < |s|
    ensures s[..|s| - 1][..|s| - 1 - (k - 1)] == s[..|s| - k]
  {
  }

  lemma {:induction false} UndoTakesPrefix(w: World, k: nat, trial: Trial)
    requires Good(w) && trial.healthy && k < |Trail(w)|
    ensures Good(Undo(w, k, trial)) && Trail(Undo(w, k, trial)) == Trail(w)[..|Trail(w)| - k]
    decreases k
  {
    hide RolledBackOnce, Good;
    if k > 0 {
      TopOfTrail(w);
      RollbackShortensTrail(w, trial);
      RollbackKeepsGood(w, trial);
      UndoTakesPrefix(RolledBackOnce(w, trial), k - 1, trial);
      PrefixOfPrefix(Trail(w), k);
    }
  }

  /** After n <= 50 promotions, k <= n rollbacks lead to the version that was live n - k promotions in. */
  lemma RollbacksRevisitPromotions(w: World, rs: seq<Request>, k: nat, trial: Trial)
    requires Good(w) && Climb(w, rs) && |rs| <= PROMOTION_HISTORY_MAX && k <= |rs| && trial.healthy
    ensures |Targets(rs)| == |rs|
    ensures Undo(Promotions(w, rs), k, trial).main == ([w.main] + Targets(rs))[|rs| - k]
    ensures Good(Undo(Promotions(w, rs), k, trial))
  {
    TargetsLength(rs);
    assert EndsWith(Trail(w), [w.main]);
    hide Good, Climb, Promotions, Undo, Trail, Targets, EndsWith;
    ClimbLeavesTrail(w, rs, [w.main]);
    TailIndex(Trail(Promotions(w, rs)), [w.main] + Targets(rs), k);
    UndoTakesPrefix(Promotions(w, rs), k, trial);
    TopOfTrail(Undo(Promotions(w, rs), k, trial));
  }

  lemma TailIndex(trail: seq<Sha>, tail: seq<Sha>, k: nat)
    requires EndsWith(trail, tail) && k < |tail|
    ensures k < |trail| && trail[..|trail| - k][|trail| - k - 1] == tail[|tail| - 1 - k]
  {
    assert trail[|trail| - |tail|..][|tail| - 1 - k] == trail[|trail| - k - 1];
  }

  lemma {:induction false} TargetsLength(rs: seq<Request>)
    ensures |Targets(rs)| == |rs|
  {
    if rs != [] { TargetsLength(rs[1..]); }
  }
}
