/** The counters behind the daily cap: what the stored triggers say about a day, against the fires that
    really happened on it, whatever the order of the firing times. */
module TriggerTally {
  import opened Wrappers
  import opened Triggers

  function Stored(triggers: seq<Trigger>, id: Id): Option<Trigger> {
    if triggers == [] then None else if triggers[0].id == id then Some(triggers[0]) else Stored(triggers[1..], id)
  }

  ghost predicate DistinctIds(triggers: seq<Trigger>) {
    forall i, j | 0 <= i < j < |triggers| :: triggers[i].id != triggers[j].id
  }

  /** The fires of all triggers on a day, and those of one trigger. */
  function CountDay(log: seq<Fire>, day: int): nat {
    if log == [] then 0
    else CountDay(log[..|log| - 1], day) + if DayOf(log[|log| - 1].at) == day then 1 else 0
  }

  function CountOf(log: seq<Fire>, id: Id, day: int): nat {
    if log == [] then 0
    else
      var last := log[|log| - 1];
      CountOf(log[..|log| - 1], id, day) + if last.id == id && DayOf(last.at) == day then 1 else 0
  }

  /** The fires of one trigger on a day since it last fired on another. */
  function Streak(log: seq<Fire>, id: Id, day: int): nat {
    if log == [] then 0
    else
      var last := log[|log| - 1];
      if last.id != id then Streak(log[..|log| - 1], id, day)
      else if DayOf(last.at) == day then Streak(log[..|log| - 1], id, day) + 1
      else 0
  }

  /** What a trigger adds to the count of a day. */
  function Share(t: Trigger, day: int): nat {
    if t.firesDay == Some(day) then t.firesToday else 0
  }

  ghost predicate ShareOk(s: Store, k: nat, day: int) {
    k < |s.triggers| ==> Share(s.triggers[k], day) == Streak(s.log, s.triggers[k].id, day)
  }

  /** Every fire was one of a stored trigger, and each counter is the trigger's streak. */
  ghost predicate Tallied(s: Store) {
    && DistinctIds(s.triggers)
    && (forall k | 0 <= k < |s.log| :: Stored(s.triggers, s.log[k].id).Some?)
    && (forall k: nat, day: int :: ShareOk(s, k, day))
  }

  ghost predicate StampKept(log: seq<Fire>, day: int, a: nat, b: nat) {
    a < b < |log| && log[a].id == log[b].id && DayOf(log[a].at) == day ==> DayOf(log[b].at) == day
  }

  /** No trigger that fired on the day has since fired on another. */
  ghost predicate Undisturbed(log: seq<Fire>, day: int) {
    forall a: nat, b: nat :: StampKept(log, day, a, b)
  }

  // ---- stored triggers -------------------------------------------------------------------

  lemma {:induction false} StoredHasId(triggers: seq<Trigger>, id: Id)
    ensures Stored(triggers, id).Some? ==> Stored(triggers, id).value.id == id
  {
    if triggers != [] { StoredHasId(triggers[1..], id); }
  }

  lemma TailDistinct(triggers: seq<Trigger>)
    requires DistinctIds(triggers) && triggers != []
    ensures DistinctIds(triggers[1..])
  {
    forall i, j | 0 <= i < j < |triggers[1..]| ensures triggers[1..][i].id != triggers[1..][j].id {
      assert triggers[1..][i] == triggers[i + 1] && triggers[1..][j] == triggers[j + 1];
    }
  }

  lemma {:induction false} StoredAt(triggers: seq<Trigger>, k: nat)
    requires DistinctIds(triggers) && k < |triggers|
    ensures Stored(triggers, triggers[k].id) == Some(triggers[k])
  {
    if k > 0 {
      TailDistinct(triggers);
      StoredAt(triggers[1..], k - 1);
      assert triggers[1..][k - 1] == triggers[k];
    }
  }

  lemma {:induction false} StoredIndex(triggers: seq<Trigger>, id: Id) returns (k: nat)
    requires Stored(triggers, id).Some?
    ensures k < |triggers| && triggers[k].id == id
  {
    k := 0;
    if triggers[0].id != id {
      var j := StoredIndex(triggers[1..], id);
      k := j + 1;
    }
  }

  lemma {:induction false} StoredAfter(triggers: seq<Trigger>, id: Id, now: int, fp: Fingerprint, x: Id)
    ensures var u := Updated(triggers, id, now, fp);
            Stored(u, x) == if x == id && Stored(triggers, id).Some?
                            then Some(Recorded(Stored(triggers, id).value, now, fp)) else Stored(triggers, x)
  {
    if triggers != [] && triggers[0].id != id {
      StoredAfter(triggers[1..], id, now, fp, x);
    }
  }

  lemma RecordedKeepsSettings(t: Trigger, now: int, fp: Fingerprint)
    ensures var r := Recorded(t, now, fp);
            r.id == t.id && r.kind == t.kind && r.config == t.config && Cooldown(r) == Cooldown(t)
  {
  }

  lemma {:induction false} UpdatedAt(triggers: seq<Trigger>, id: Id, now: int, fp: Fingerprint, k: nat)
    requires DistinctIds(triggers) && k < |triggers|
    ensures var u := Updated(triggers, id, now, fp);
            |u| == |triggers| && u[k] == if triggers[k].id == id then Recorded(triggers[k], now, fp) else triggers[k]
  {
    hide Recorded;
    TailDistinct(triggers);
    if triggers[0].id != id {
      UpdatedLength(triggers[1..], id, now, fp);
      if k > 0 { UpdatedAt(triggers[1..], id, now, fp, k - 1); }
    } else if k > 0 {
      assert triggers[k].id != triggers[0].id;
    }
  }

  lemma {:induction false} UpdatedLength(triggers: seq<Trigger>, id: Id, now: int, fp: Fingerprint)
    ensures |Updated(triggers, id, now, fp)| == |triggers|
  {
    if triggers != [] { UpdatedLength(triggers[1..], id, now, fp); }
  }

  lemma UpdatedDistinct(triggers: seq<Trigger>, id: Id, now: int, fp: Fingerprint)
    requires DistinctIds(triggers)
    ensures DistinctIds(Updated(triggers, id, now, fp))
  {
    hide Recorded, Updated;
    var u := Updated(triggers, id, now, fp);
    UpdatedLength(triggers, id, now, fp);
    forall i, j | 0 <= i < j < |u| ensures u[i].id != u[j].id {
      UpdatedAt(triggers, id, now, fp, i);
      UpdatedAt(triggers, id, now, fp, j);
      RecordedKeepsSettings(triggers[i], now, fp);
      RecordedKeepsSettings(triggers[j], now, fp);
    }
  }

  // ---- the tally over time ---------------------------------------------------------------

  lemma RecordedShare(t: Trigger, now: int, fp: Fingerprint, day: int)
    ensures Share(Recorded(t, now, fp), day) == if day == DayOf(now) then Share(t, day) + 1 else 0
  {
  }

  lemma LogSnoc(log: seq<Fire>, f: Fire, id: Id, day: int)
    ensures CountDay(log + [f], day) == CountDay(log, day) + if DayOf(f.at) == day then 1 else 0
    ensures CountOf(log + [f], id, day) == CountOf(log, id, day) + if f.id == id && DayOf(f.at) == day then 1 else 0
    ensures Streak(log + [f], id, day)
         == if f.id != id then Streak(log, id, day) else if DayOf(f.at) == day then Streak(log, id, day) + 1 else 0
  {
    assert (log + [f])[..|log|] == log;
  }

  /** A fire, whenever it is, keeps the tally. */
  lemma FireKeepsTally(s: Store, id: Id, now: int, fp: Fingerprint)
    requires Tallied(s) && Stored(s.triggers, id).Some?
    ensures Tallied(FiredOnce(s, id, now, fp, false))
  {
    var u, f := FiredOnce(s, id, now, fp, false), Fire(id, now, fp);
    assert u.triggers == Updated(s.triggers, id, now, fp) && u.log == s.log + [f];
    hide FiredOnce, Updated, Recorded, DayOf, Share, Streak, DistinctIds;
    UpdatedDistinct(s.triggers, id, now, fp);
    UpdatedLength(s.triggers, id, now, fp);
    forall k | 0 <= k < |u.log| ensures Stored(u.triggers, u.log[k].id).Some? {
      assert u.log[k] == if k < |s.log| then s.log[k] else f;
      StoredAfter(s.triggers, id, now, fp, u.log[k].id);
    }
    forall k: nat, day: int ensures ShareOk(u, k, day) {
      if k < |u.triggers| {
        assert ShareOk(s, k, day);
        UpdatedAt(s.triggers, id, now, fp, k);
        RecordedKeepsSettings(s.triggers[k], now, fp);
        RecordedShare(s.triggers[k], now, fp, day);
        LogSnoc(s.log, f, s.triggers[k].id, day);
      }
    }
  }

  // ---- what the counters tell ------------------------------------------------------------

  ghost predicate StampsOf(log: seq<Fire>, id: Id, day: int) {
    forall a: nat, b: nat :: a < |log| && log[a].id == id ==> StampKept(log, day, a, b)
  }

  lemma {:induction false} CountZero(log: seq<Fire>, id: Id, day: int)
    ensures CountOf(log, id, day) == 0 <==> forall a | 0 <= a < |log| :: log[a].id == id ==> DayOf(log[a].at) != day
  {
    hide DayOf;
    if log != [] { CountZero(log[..|log| - 1], id, day); }
  }

  lemma StampsSnoc(log: seq<Fire>, f: Fire, id: Id, day: int)
    ensures StampsOf(log + [f], id, day)
       <==> StampsOf(log, id, day) && (f.id == id && DayOf(f.at) != day ==> CountOf(log, id, day) == 0)
  {
    hide DayOf, CountOf;
    var all := log + [f];
    CountZero(log, id, day);
    forall a: nat, b: nat | a < |log| && b < |log| ensures StampKept(all, day, a, b) <==> StampKept(log, day, a, b) {
      assert all[a] == log[a] && all[b] == log[b];
    }
    assert all[|log|] == f && forall a | 0 <= a < |log| :: all[a] == log[a];
    if StampsOf(all, id, day) {
      forall a: nat, b: nat | a < |log| && log[a].id == id ensures StampKept(log, day, a, b) {
        assert StampKept(all, day, a, b);
      }
      forall a | 0 <= a < |log| && log[a].id == id && f.id == id && DayOf(f.at) != day ensures DayOf(log[a].at) != day {
        assert StampKept(all, day, a, |log|);
      }
    }
  }

  /** A trigger's streak is all its fires of the day exactly when it has not fired on another since. */
  lemma {:induction false} StreakIsCount(log: seq<Fire>, id: Id, day: int)
    ensures Streak(log, id, day) <= CountOf(log, id, day)
    ensures Streak(log, id, day) == CountOf(log, id, day) <==> StampsOf(log, id, day)
  {
    hide DayOf;
    if log != [] {
      var init, last := log[..|log| - 1], log[|log| - 1];
      assert log == init + [last];
      StreakIsCount(init, id, day);
      hide StampsOf;
      StampsSnoc(init, last, id, day);
      LogSnoc(init, last, id, day);
    }
  }

  function Sum(triggers: seq<Trigger>, log: seq<Fire>, day: int): nat {
    if triggers == [] then 0 else CountOf(log, triggers[0].id, day) + Sum(triggers[1..], log, day)
  }

  lemma {:induction false} SumSnoc(triggers: seq<Trigger>, log: seq<Fire>, f: Fire, day: int)
    requires DistinctIds(triggers)
    ensures Sum(triggers, log + [f], day)
         == Sum(triggers, log, day) + if Stored(triggers, f.id).Some? && DayOf(f.at) == day then 1 else 0
  {
    hide DayOf, CountOf;
    if triggers != [] {
      TailDistinct(triggers);
      SumSnoc(triggers[1..], log, f, day);
      LogSnoc(log, f, triggers[0].id, day);
      if triggers[0].id == f.id { NotStoredAgain(triggers); }
    }
  }

  lemma NotStoredAgain(triggers: seq<Trigger>)
    requires DistinctIds(triggers) && triggers != []
    ensures Stored(triggers[1..], triggers[0].id) == None
  {
    assert forall k | 0 <= k < |triggers| - 1 :: triggers[1..][k] == triggers[k + 1];
    NotStored(triggers[1..], triggers[0].id);
  }

  lemma {:induction false} NotStored(triggers: seq<Trigger>, id: Id)
    requires forall k | 0 <= k < |triggers| :: triggers[k].id != id
    ensures Stored(triggers, id) == None
  {
    if triggers != [] { NotStored(triggers[1..], id); }
  }

  lemma {:induction false} SumEmpty(triggers: seq<Trigger>, day: int)
    ensures Sum(triggers, [], day) == 0
  {
    if triggers != [] { SumEmpty(triggers[1..], day); }
  }

  lemma {:induction false} SumIsDay(triggers: seq<Trigger>, log: seq<Fire>, day: int)
    requires DistinctIds(triggers) && forall k | 0 <= k < |log| :: Stored(triggers, log[k].id).Some?
    ensures Sum(triggers, log, day) == CountDay(log, day)
  {
    hide DayOf, CountOf, DistinctIds;
    if log == [] {
      SumEmpty(triggers, day);
    } else {
      var init, last := log[..|log| - 1], log[|log| - 1];
      assert log == init + [last];
      SumIsDay(triggers, init, day);
      SumSnoc(triggers, init, last, day);
    }
  }

  /** Over some of the triggers: their counters add up to their fires exactly when none was disturbed. */
  lemma {:induction false} PartialTally(triggers: seq<Trigger>, log: seq<Fire>, day: int)
    requires forall k | 0 <= k < |triggers| :: Share(triggers[k], day) == Streak(log, triggers[k].id, day)
    ensures FiresOn(triggers, day) <= Sum(triggers, log, day)
    ensures FiresOn(triggers, day) == Sum(triggers, log, day)
       <==> forall k | 0 <= k < |triggers| :: StampsOf(log, triggers[k].id, day)
  {
    hide DayOf, CountOf, StampsOf, Streak;
    if triggers != [] {
      assert forall k | 0 <= k < |triggers| - 1 :: triggers[1..][k] == triggers[k + 1];
      PartialTally(triggers[1..], log, day);
      StreakIsCount(log, triggers[0].id, day);
      assert forall k | 1 <= k < |triggers| :: triggers[k] == triggers[1..][k - 1];
    }
  }

  /** The stored counters never tell more than the fires of a day, and tell them all exactly when no
      trigger that fired on the day has since fired on another. */
  lemma CountersTell(s: Store, day: int)
    requires Tallied(s)
    ensures FiresOn(s.triggers, day) <= CountDay(s.log, day)
    ensures FiresOn(s.triggers, day) == CountDay(s.log, day) <==> Undisturbed(s.log, day)
  {
    forall k | 0 <= k < |s.triggers| ensures Share(s.triggers[k], day) == Streak(s.log, s.triggers[k].id, day) {
      assert ShareOk(s, k, day);
    }
    hide Share, Streak, FiresOn, Sum, CountDay, DistinctIds;
    PartialTally(s.triggers, s.log, day);
    SumIsDay(s.triggers, s.log, day);
    UndisturbedByTrigger(s, day);
  }

  lemma UndisturbedByTrigger(s: Store, day: int)
    requires Tallied(s)
    ensures Undisturbed(s.log, day) <==> forall k | 0 <= k < |s.triggers| :: StampsOf(s.log, s.triggers[k].id, day)
  {
    hide ShareOk, DistinctIds;
    if forall k | 0 <= k < |s.triggers| :: StampsOf(s.log, s.triggers[k].id, day) {
      forall a: nat, b: nat ensures StampKept(s.log, day, a, b) {
        if a < |s.log| {
          var k := StoredIndex(s.triggers, s.log[a].id);
          assert StampsOf(s.log, s.triggers[k].id, day);
        }
      }
    }
  }

  /** Below the cap by the counters, on an undisturbed day, is below the cap. */
  lemma GateIsSafe(s: Store, now: int, cap: int)
    requires Tallied(s) && Undisturbed(s.log, DayOf(now)) && !RateLimited(s, now, cap)
    ensures CountDay(s.log, DayOf(now)) < cap
  {
    hide Tallied, Undisturbed;
    CountersTell(s, DayOf(now));
  }

  /** A fire on an undisturbed day leaves it undisturbed. */
  lemma FireKeepsUndisturbed(log: seq<Fire>, f: Fire)
    requires Undisturbed(log, DayOf(f.at))
    ensures Undisturbed(log + [f], DayOf(f.at))
  {
    hide DayOf;
    var all := log + [f];
    forall a: nat, b: nat ensures StampKept(all, DayOf(f.at), a, b) {
      assert StampKept(log, DayOf(f.at), a, b);
      if a < b < |log| { assert all[a] == log[a] && all[b] == log[b]; }
    }
  }
}
