/** What the trigger passes keep over whole runs: the daily cap, and the distance between the fires of
    one trigger. No trigger is deleted and its settings stay. */
module TriggerLaws {
  import opened Wrappers
  import opened Triggers
  import opened TriggerTally

  predicate IsDaily(t: Trigger) {
    t.kind == Schedule && t.config.interval == 0 && t.config.dailyAt.Some?
  }

  // ---- the distance between fires --------------------------------------------------------

  /** What is known of one past fire of a tick's trigger from the trigger's record: when it fired last,
      and the fingerprint unless it is old enough to be forgotten. */
  ghost predicate EntryOk(s: Store, clock: int, k: nat) {
    k < |s.log| && Stored(s.triggers, s.log[k].id).Some? ==>
      var f, t := s.log[k], Stored(s.triggers, s.log[k].id).value;
      t.kind != Webhook ==>
        && t.lastFired.Some? && f.at <= t.lastFired.value <= clock
        && (f.fp != NONE ==>
              (f.fp in t.fired && f.at <= t.fired[f.fp]) || t.lastFired.value - f.at > Cooldown(t))
        && (IsDaily(t) ==> f.at >= Target(t.config.dailyAt.value, f.at))
  }

  /** Two fires of one trigger are apart: an interval for a fixed cadence, a day for a daily trigger,
      the cooldown for one fingerprint. */
  ghost predicate PairOk(s: Store, a: nat, b: nat) {
    a < b < |s.log| && s.log[a].id == s.log[b].id && Stored(s.triggers, s.log[a].id).Some? ==>
      var t := Stored(s.triggers, s.log[a].id).value;
      && (t.kind == Schedule && t.config.interval != 0 ==> s.log[b].at - s.log[a].at >= t.config.interval)
      && (IsDaily(t) ==> DayOf(s.log[a].at) != DayOf(s.log[b].at))
      && (s.log[a].fp != NONE && s.log[a].fp == s.log[b].fp ==> s.log[b].at - s.log[a].at >= Cooldown(t))
  }

  /** A remembered fingerprint is one that fired, at the time it is remembered with. */
  ghost predicate RecordOk(s: Store, id: Id, fp: Fingerprint) {
    Stored(s.triggers, id).Some? && fp in Stored(s.triggers, id).value.fired ==>
      Fire(id, Stored(s.triggers, id).value.fired[fp], fp) in s.log
  }

  ghost predicate AllApart(s: Store) {
    forall a: nat, b: nat :: PairOk(s, a, b)
  }

  /** All fires are apart, and the records say what is needed to keep them so; `clock` is the time of
      the last tick. */
  ghost predicate Spaced(s: Store, clock: int) {
    && (forall k: nat :: EntryOk(s, clock, k))
    && (forall id, fp :: RecordOk(s, id, fp))
    && AllApart(s)
  }

  ghost predicate CapOk(s: Store, cap: int, day: int) {
    CountDay(s.log, day) == 0 || CountDay(s.log, day) <= cap
  }

  ghost predicate Capped(s: Store, cap: int) {
    forall day: int :: CapOk(s, cap, day)
  }

  /** Which laws a run is to keep: the cap, the distances, or both. */
  datatype Rules = Rules(capped: bool, spaced: bool)

  ghost predicate Inv(s: Store, clock: int, cap: int, rules: Rules) {
    && Tallied(s)
    && (rules.capped ==> Capped(s, cap))
    && (rules.spaced ==> Spaced(s, clock))
  }

  // ---- one fire --------------------------------------------------------------------------

  /** Every earlier fire of the trigger for this fingerprint is a cooldown away. */
  ghost predicate Clear(s: Store, t: Trigger, fp: Fingerprint, now: int) {
    forall k | 0 <= k < |s.log| && s.log[k].id == t.id && s.log[k].fp == fp :: now - s.log[k].at >= Cooldown(t)
  }

  /** A fire that is far enough from the earlier ones of its trigger; a webhook has no distance to keep
      and may fire at any time. */
  ghost predicate Apart(s: Store, clock: int, t: Trigger, now: int, fp: Fingerprint) {
    match t.kind
    case Webhook => fp == NONE
    case Schedule => now == clock && fp == NONE && ScheduleDue(t, now)
    case _ => now == clock && (fp != NONE ==> Clear(s, t, fp, now))
  }

  ghost predicate Legal(s: Store, id: Id, clock: int, now: int, fp: Fingerprint, cap: int, rules: Rules) {
    && Stored(s.triggers, id).Some?
    && (rules.capped ==> Undisturbed(s.log, DayOf(now)) && !RateLimited(s, now, cap))
    && (rules.spaced ==> Apart(s, clock, Stored(s.triggers, id).value, now, fp))
  }

  lemma FireKeepsCap(s: Store, id: Id, now: int, fp: Fingerprint, cap: int)
    requires Tallied(s) && Capped(s, cap) && Undisturbed(s.log, DayOf(now)) && !RateLimited(s, now, cap)
    ensures Capped(FiredOnce(s, id, now, fp, false), cap)
  {
    hide Tallied, Undisturbed, RateLimited;
    GateIsSafe(s, now, cap);
    var u := FiredOnce(s, id, now, fp, false);
    forall day: int ensures CapOk(u, cap, day) {
      assert CapOk(s, cap, day);
      LogSnoc(s.log, Fire(id, now, fp), id, day);
    }
  }

  lemma FireKeepsEntry(s: Store, id: Id, clock: int, now: int, fp: Fingerprint, k: nat)
    requires Stored(s.triggers, id).Some? && Apart(s, clock, Stored(s.triggers, id).value, now, fp)
    requires EntryOk(s, clock, k)
    ensures EntryOk(FiredOnce(s, id, now, fp, false), clock, k)
  {
    hide Clear, DayOf, Updated;
    StoredHasId(s.triggers, id);
    var u := FiredOnce(s, id, now, fp, false);
    if k < |u.log| {
      assert u.log[k] == if k < |s.log| then s.log[k] else Fire(id, now, fp);
      StoredAfter(s.triggers, id, now, fp, u.log[k].id);
    }
  }

  /** The new fire is apart from every earlier one of its trigger. */
  lemma NewFireIsApart(s: Store, id: Id, clock: int, now: int, fp: Fingerprint, a: nat)
    requires Stored(s.triggers, id).Some? && Apart(s, clock, Stored(s.triggers, id).value, now, fp)
    requires EntryOk(s, clock, a) && a < |s.log| && s.log[a].id == id
    ensures PairOk(FiredOnce(s, id, now, fp, false), a, |s.log|)
  {
    hide Updated, Recorded;
    StoredHasId(s.triggers, id);
    StoredAfter(s.triggers, id, now, fp, id);
    RecordedKeepsSettings(Stored(s.triggers, id).value, now, fp);
  }

  lemma FireKeepsPair(s: Store, id: Id, clock: int, now: int, fp: Fingerprint, a: nat, b: nat)
    requires Stored(s.triggers, id).Some? && Apart(s, clock, Stored(s.triggers, id).value, now, fp)
    requires EntryOk(s, clock, a) && PairOk(s, a, b)
    ensures PairOk(FiredOnce(s, id, now, fp, false), a, b)
  {
    hide Updated, Recorded, Apart, DayOf, EntryOk;
    var u := FiredOnce(s, id, now, fp, false);
    if a < b < |s.log| {
      assert u.log[a] == s.log[a] && u.log[b] == s.log[b];
      StoredHasId(s.triggers, id);
      StoredAfter(s.triggers, id, now, fp, s.log[a].id);
      RecordedKeepsSettings(Stored(s.triggers, id).value, now, fp);
    } else if a < b == |s.log| && s.log[a].id == id {
      NewFireIsApart(s, id, clock, now, fp, a);
    }
  }

  lemma FireKeepsRecord(s: Store, id: Id, now: int, fp: Fingerprint, x: Id, f: Fingerprint)
    requires RecordOk(s, x, f)
    ensures RecordOk(FiredOnce(s, id, now, fp, false), x, f)
  {
    hide DayOf, Updated, Cooldown;
    var u := FiredOnce(s, id, now, fp, false);
    StoredAfter(s.triggers, id, now, fp, x);
    assert Fire(id, now, fp) == u.log[|s.log|];
    forall e | e in s.log ensures e in u.log {}
  }

  lemma FireKeepsSpaced(s: Store, id: Id, clock: int, now: int, fp: Fingerprint)
    requires Spaced(s, clock) && Stored(s.triggers, id).Some?
    requires Apart(s, clock, Stored(s.triggers, id).value, now, fp)
    ensures Spaced(FiredOnce(s, id, now, fp, false), clock)
  {
    hide Apart, EntryOk, PairOk, RecordOk, FiredOnce;
    var u := FiredOnce(s, id, now, fp, false);
    forall x, f ensures RecordOk(u, x, f) { FireKeepsRecord(s, id, now, fp, x, f); }
    forall k: nat ensures EntryOk(u, clock, k) { FireKeepsEntry(s, id, clock, now, fp, k); }
    forall a: nat, b: nat ensures PairOk(u, a, b) { FireKeepsPair(s, id, clock, now, fp, a, b); }
  }

  /** A legal fire keeps the laws of the run, and the day of the fire undisturbed. */
  lemma FireKeepsInv(s: Store, id: Id, clock: int, now: int, fp: Fingerprint, cap: int, rules: Rules)
    requires Inv(s, clock, cap, rules) && Legal(s, id, clock, now, fp, cap, rules)
    ensures Inv(FiredOnce(s, id, now, fp, false), clock, cap, rules)
    ensures rules.capped ==> Undisturbed(FiredOnce(s, id, now, fp, false).log, DayOf(now))
  {
    hide Tallied, Capped, Spaced, Undisturbed, RateLimited, Apart, Updated;
    FireKeepsTally(s, id, now, fp);
    if rules.capped {
      FireKeepsCap(s, id, now, fp, cap);
      FireKeepsUndisturbed(s.log, Fire(id, now, fp));
    }
    if rules.spaced { FireKeepsSpaced(s, id, clock, now, fp); }
  }

  /** The clock moves on to the next tick. */
  lemma LaterKeepsInv(s: Store, clock: int, now: int, cap: int, rules: Rules)
    requires Inv(s, clock, cap, rules) && (rules.spaced ==> now >= clock)
    ensures Inv(s, now, cap, rules)
  {
    hide Tallied, Capped, AllApart, DayOf, RecordOk;
    if rules.spaced {
      forall k: nat ensures EntryOk(s, now, k) { assert EntryOk(s, clock, k); }
    }
  }

  // ---- the schedule pass -----------------------------------------------------------------

  /** The triggers read at the start of a pass are still what is stored, each once. */
  ghost predicate Snapshot(triggers: seq<Trigger>, todo: seq<Trigger>) {
    && (forall k | 0 <= k < |todo| :: Stored(triggers, todo[k].id) == Some(todo[k]))
    && (forall i, j | 0 <= i < j < |todo| :: todo[i].id != todo[j].id)
  }

  lemma SnapshotAfter(triggers: seq<Trigger>, todo: seq<Trigger>, now: int, fp: Fingerprint)
    requires todo != [] && Snapshot(triggers, todo)
    ensures Snapshot(triggers, todo[1..]) && Snapshot(Updated(triggers, todo[0].id, now, fp), todo[1..])
    ensures Stored(triggers, todo[0].id) == Some(todo[0])
  {
    var rest, u := todo[1..], Updated(triggers, todo[0].id, now, fp);
    forall k | 0 <= k < |rest|
      ensures Stored(triggers, rest[k].id) == Some(rest[k]) && Stored(u, rest[k].id) == Some(rest[k])
    {
      assert rest[k] == todo[k + 1];
      StoredAfter(triggers, todo[0].id, now, fp, rest[k].id);
    }
  }

  lemma SnapshotOfAll(triggers: seq<Trigger>)
    requires DistinctIds(triggers)
    ensures Snapshot(triggers, triggers)
  {
    forall k | 0 <= k < |triggers| ensures Stored(triggers, triggers[k].id) == Some(triggers[k]) {
      StoredAt(triggers, k);
    }
  }

  lemma {:induction false} SchedulePassKeepsInv(s: Store, todo: seq<Trigger>, now: int, cap: int, rules: Rules)
    requires Inv(s, now, cap, rules) && Snapshot(s.triggers, todo)
    requires rules.capped ==> Undisturbed(s.log, DayOf(now))
    ensures Inv(SchedulePass(s, todo, now, cap), now, cap, rules)
    decreases |todo|
  {
    hide Inv, ScheduleDue, RateLimited, Snapshot, Updated, Undisturbed;
    if todo != [] {
      SnapshotAfter(s.triggers, todo, now, NONE);
      if !(todo[0].enabled && todo[0].kind == Schedule) {
        SchedulePassKeepsInv(s, todo[1..], now, cap, rules);
      } else if !RateLimited(s, now, cap) {
        if ScheduleDue(todo[0], now) {
          FireKeepsInv(s, todo[0].id, now, now, NONE, cap, rules);
          SchedulePassKeepsInv(FiredOnce(s, todo[0].id, now, NONE, false), todo[1..], now, cap, rules);
        } else {
          SchedulePassKeepsInv(s, todo[1..], now, cap, rules);
        }
      }
    }
  }

  // ---- what a hit pass fires -------------------------------------------------------------

  function Room(s: Store, now: int, cap: int): nat {
    if cap > FiresOn(s.triggers, DayOf(now)) then cap - FiresOn(s.triggers, DayOf(now)) else 0
  }

  predicate InFlight(h: Candidate, id: Id) {
    h.fp != NONE && id in h.busyFor
  }

  /** The hits that are not in flight for the trigger. */
  function Admitted(hits: seq<Candidate>, id: Id): seq<Candidate> {
    if hits == [] then []
    else (if InFlight(hits[0], id) then [] else [hits[0]]) + Admitted(hits[1..], id)
  }

  function First(hits: seq<Candidate>, n: nat): seq<Candidate> {
    if |hits| <= n then hits else hits[..n]
  }

  /** The hits a pass fires: as many of the admitted ones, from the front, as the day has room for. */
  function Chosen(s: Store, id: Id, hits: seq<Candidate>, now: int, cap: int): seq<Candidate> {
    First(Admitted(hits, id), Room(s, now, cap))
  }

  function FiresFor(id: Id, now: int, hits: seq<Candidate>): seq<Fire> {
    if hits == [] then [] else [Fire(id, now, hits[0].fp)] + FiresFor(id, now, hits[1..])
  }

  lemma {:induction false} FiresForAt(id: Id, now: int, hits: seq<Candidate>)
    ensures var fires := FiresFor(id, now, hits);
            |fires| == |hits| && forall k | 0 <= k < |hits| :: fires[k] == Fire(id, now, hits[k].fp)
  {
    if hits != [] { FiresForAt(id, now, hits[1..]); }
  }

  lemma {:induction false} FiresAfter(triggers: seq<Trigger>, id: Id, now: int, fp: Fingerprint)
    requires Stored(triggers, id).Some?
    ensures FiresOn(Updated(triggers, id, now, fp), DayOf(now)) == FiresOn(triggers, DayOf(now)) + 1
  {
    hide DayOf, Recorded;
    RecordedShare(triggers[0], now, fp, DayOf(now));
    if triggers[0].id != id { FiresAfter(triggers[1..], id, now, fp); }
  }

  /** One turn of a hit pass, by its chosen hits. */
  lemma ChosenStep(s: Store, id: Id, hits: seq<Candidate>, now: int, cap: int)
    requires hits != [] && Stored(s.triggers, id).Some?
    ensures RateLimited(s, now, cap) ==> Chosen(s, id, hits, now, cap) == []
    ensures InFlight(hits[0], id) ==> Chosen(s, id, hits, now, cap) == Chosen(s, id, hits[1..], now, cap)
    ensures !RateLimited(s, now, cap) && !InFlight(hits[0], id) ==>
      var u := FiredOnce(s, id, now, hits[0].fp, false);
      && Stored(u.triggers, id).Some?
      && Chosen(s, id, hits, now, cap) == [hits[0]] + Chosen(u, id, hits[1..], now, cap)
  {
    hide DayOf, FiresOn, Updated, Recorded, InFlight;
    FiresAfter(s.triggers, id, now, hits[0].fp);
    StoredAfter(s.triggers, id, now, hits[0].fp, id);
    FirstStep(hits[0], Admitted(hits[1..], id), Room(s, now, cap));
  }

  lemma FirstStep(h: Candidate, rest: seq<Candidate>, n: nat)
    ensures First([h] + rest, 0) == [] && First([] + rest, n) == First(rest, n) && First(rest, 0) == []
    ensures n > 0 ==> First([h] + rest, n) == [h] + First(rest, n - 1)
  {
    assert [] + rest == rest;
  }

  /** A hit pass adds exactly the fires of its chosen hits, in order. */
  lemma {:induction false} HitPassFires(s: Store, id: Id, hits: seq<Candidate>, now: int, cap: int)
    requires Stored(s.triggers, id).Some?
    ensures HitPass(s, id, hits, now, cap).log == s.log + FiresFor(id, now, Chosen(s, id, hits, now, cap))
    decreases |hits|
  {
    hide Chosen, RateLimited, Updated, Recorded;
    if hits == [] {
      NothingChosen(s, id, now, cap);
    } else {
      ChosenStep(s, id, hits, now, cap);
      if !RateLimited(s, now, cap) {
        if InFlight(hits[0], id) {
          HitPassFires(s, id, hits[1..], now, cap);
        } else {
          var u := FiredOnce(s, id, now, hits[0].fp, false);
          HitPassFires(u, id, hits[1..], now, cap);
          FiresForCons(id, now, hits[0], Chosen(u, id, hits[1..], now, cap));
          assert s.log + ([Fire(id, now, hits[0].fp)] + FiresFor(id, now, Chosen(u, id, hits[1..], now, cap)))
              == u.log + FiresFor(id, now, Chosen(u, id, hits[1..], now, cap));
        }
      }
    }
  }

  lemma NothingChosen(s: Store, id: Id, now: int, cap: int)
    ensures Chosen(s, id, [], now, cap) == [] && FiresFor(id, now, []) == []
  {
  }

  lemma FiresForCons(id: Id, now: int, h: Candidate, rest: seq<Candidate>)
    ensures FiresFor(id, now, [h] + rest) == [Fire(id, now, h.fp)] + FiresFor(id, now, rest)
    ensures FiresFor(id, now, []) == []
  {
    assert ([h] + rest)[1..] == rest;
  }

  // ---- what a hit pass keeps -------------------------------------------------------------

  /** No two candidates share a fingerprint. */
  ghost predicate DistinctPrints(candidates: seq<Candidate>) {
    forall i, j | 0 <= i < j < |candidates| :: candidates[i].fp != candidates[j].fp
  }

  /** The chosen hits can be fired in one go. */
  ghost predicate Separate(t: Trigger, chosen: seq<Candidate>) {
    DistinctPrints(chosen) || Cooldown(t) <= 0
  }

  ghost predicate AllClear(s: Store, id: Id, hits: seq<Candidate>, now: int) {
    Stored(s.triggers, id).Some? &&
    forall k | 0 <= k < |hits| :: hits[k].fp != NONE && Clear(s, Stored(s.triggers, id).value, hits[k].fp, now)
  }

  /** Firing one hit leaves the way clear for the ones that may follow. */
  lemma ClearAfter(s: Store, id: Id, h: Candidate, rest: seq<Candidate>, now: int)
    requires AllClear(s, id, [h] + rest, now) && Separate(Stored(s.triggers, id).value, [h] + rest)
    ensures var u := FiredOnce(s, id, now, h.fp, false);
            && AllClear(u, id, rest, now) && Separate(Stored(u.triggers, id).value, rest)
            && Stored(u.triggers, id).value.kind == Stored(s.triggers, id).value.kind
    ensures h.fp != NONE && Clear(s, Stored(s.triggers, id).value, h.fp, now)
  {
    hide Updated, Recorded;
    var u, hits := FiredOnce(s, id, now, h.fp, false), [h] + rest;
    StoredHasId(s.triggers, id);
    StoredAfter(s.triggers, id, now, h.fp, id);
    RecordedKeepsSettings(Stored(s.triggers, id).value, now, h.fp);
    assert hits[0] == h && forall k | 0 <= k < |rest| :: rest[k] == hits[k + 1];
    forall k | 0 <= k < |rest| ensures rest[k].fp != NONE && Clear(u, Stored(u.triggers, id).value, rest[k].fp, now) {
      assert rest[k] == hits[k + 1];
    }
  }

  lemma {:induction false} HitPassKeepsInv(s: Store, id: Id, hits: seq<Candidate>, now: int, cap: int, rules: Rules)
    requires Inv(s, now, cap, rules) && Stored(s.triggers, id).Some?
    requires rules.capped ==> Undisturbed(s.log, DayOf(now))
    requires rules.spaced ==> Stored(s.triggers, id).value.kind in {ErrorSpike, Advisor}
    requires rules.spaced ==> AllClear(s, id, Chosen(s, id, hits, now, cap), now)
    requires rules.spaced ==> Separate(Stored(s.triggers, id).value, Chosen(s, id, hits, now, cap))
    ensures Inv(HitPass(s, id, hits, now, cap), now, cap, rules)
    ensures rules.capped ==> Undisturbed(HitPass(s, id, hits, now, cap).log, DayOf(now))
    decreases |hits|
  {
    hide Inv, RateLimited, Clear, Updated, Recorded, Chosen, Undisturbed, AllClear, Separate;
    if hits != [] && !RateLimited(s, now, cap) {
      ChosenStep(s, id, hits, now, cap);
      if InFlight(hits[0], id) {
        HitPassKeepsInv(s, id, hits[1..], now, cap, rules);
      } else {
        var u := FiredOnce(s, id, now, hits[0].fp, false);
        if rules.spaced { ClearAfter(s, id, hits[0], Chosen(u, id, hits[1..], now, cap), now); }
        FireKeepsInv(s, id, now, now, hits[0].fp, cap, rules);
        HitPassKeepsInv(u, id, hits[1..], now, cap, rules);
      }
    }
  }

  // ---- what was fetched ------------------------------------------------------------------

  ghost predicate AllCool(t: Trigger, hits: seq<Candidate>, now: int) {
    forall h | h in hits :: h.fp != NONE && CooledDown(t, h.fp, now)
  }

  /** `part` comes from `whole`, without repeating what is there once. */
  ghost predicate PickedFrom(part: seq<Candidate>, whole: seq<Candidate>) {
    (forall h | h in part :: h in whole) && (DistinctPrints(whole) ==> DistinctPrints(part))
  }

  lemma DistinctTail(candidates: seq<Candidate>)
    requires candidates != [] && DistinctPrints(candidates)
    ensures DistinctPrints(candidates[1..])
    ensures forall h | h in candidates[1..] :: h.fp != candidates[0].fp
  {
    var rest := candidates[1..];
    forall i, j | 0 <= i < j < |rest| ensures rest[i].fp != rest[j].fp {
      assert rest[i] == candidates[i + 1] && rest[j] == candidates[j + 1];
    }
    forall h | h in rest ensures h.fp != candidates[0].fp {
      var i :| 0 <= i < |rest| && rest[i] == h;
      assert candidates[i + 1] == h;
    }
  }

  lemma DistinctInit(candidates: seq<Candidate>)
    requires candidates != [] && DistinctPrints(candidates)
    ensures DistinctPrints(candidates[..|candidates| - 1])
    ensures forall h | h in candidates[..|candidates| - 1] :: h.fp != candidates[|candidates| - 1].fp
  {
  }

  lemma {:induction false} SpikesAreCool(t: Trigger, groups: seq<Candidate>, now: int)
    ensures AllCool(t, SpikeHits(t, groups, now), now) && PickedFrom(SpikeHits(t, groups, now), groups)
  {
    if groups != [] {
      var init, last := groups[..|groups| - 1], groups[|groups| - 1];
      SpikesAreCool(t, init, now);
      assert groups == init + [last];
      if DistinctPrints(groups) { DistinctInit(groups); }
    }
  }

  lemma {:induction false} ProposalsAreCool(t: Trigger, proposals: seq<Candidate>, now: int, cap: int)
    ensures AllCool(t, AdvisorHits(t, proposals, now, cap), now)
    ensures PickedFrom(AdvisorHits(t, proposals, now, cap), proposals)
  {
    if proposals != [] {
      assert proposals == [proposals[0]] + proposals[1..];
      if DistinctPrints(proposals) { DistinctTail(proposals); }
      ProposalsAreCool(t, proposals[1..], now, cap);
      ProposalsAreCool(t, proposals[1..], now, cap - 1);
    }
  }

  lemma {:induction false} AdmittedArePicked(hits: seq<Candidate>, id: Id)
    ensures PickedFrom(Admitted(hits, id), hits)
  {
    if hits != [] {
      assert hits == [hits[0]] + hits[1..];
      if DistinctPrints(hits) { DistinctTail(hits); }
      AdmittedArePicked(hits[1..], id);
    }
  }

  lemma ChosenArePicked(s: Store, id: Id, hits: seq<Candidate>, now: int, cap: int)
    ensures PickedFrom(Chosen(s, id, hits, now, cap), hits)
  {
    hide Admitted, Room;
    AdmittedArePicked(hits, id);
  }

  /** A hit that has cooled down by the trigger's record has cooled down by its history. */
  lemma CoolIsClear(s: Store, t: Trigger, fp: Fingerprint, now: int)
    requires Spaced(s, now) && Stored(s.triggers, t.id) == Some(t) && t.kind != Webhook
    requires fp != NONE && CooledDown(t, fp, now)
    ensures Clear(s, t, fp, now)
  {
    forall k | 0 <= k < |s.log| && s.log[k].id == t.id && s.log[k].fp == fp ensures now - s.log[k].at >= Cooldown(t) {
      assert EntryOk(s, now, k);
    }
  }

  /** What a fetch pass chooses for a trigger may be fired, as far as the past is concerned. */
  lemma ChosenAreClear(s: Store, kind: Kind, t: Trigger, candidates: seq<Candidate>, now: int, cap: int)
    requires Spaced(s, now) && Stored(s.triggers, t.id) == Some(t) && t.kind != Webhook
    ensures var chosen := Chosen(s, t.id, Hits(kind, t, candidates, now), now, cap);
            AllClear(s, t.id, chosen, now) && (DistinctPrints(candidates) ==> DistinctPrints(chosen))
  {
    hide Spaced, Clear, CooledDown, SpikeHits, AdvisorHits, DistinctPrints, Chosen;
    var hits := Hits(kind, t, candidates, now);
    var chosen := Chosen(s, t.id, hits, now, cap);
    SpikesAreCool(t, candidates, now);
    ProposalsAreCool(t, candidates, now, t.config.maxPerTick);
    ChosenArePicked(s, t.id, hits, now, cap);
    forall k | 0 <= k < |chosen| ensures chosen[k].fp != NONE && Clear(s, t, chosen[k].fp, now) {
      assert chosen[k] in hits;
      CoolIsClear(s, t, chosen[k].fp, now);
    }
  }

  // ---- settings and history through a pass -----------------------------------------------

  /** The same triggers with the same settings, and a longer history. */
  ghost predicate Continues(s: Store, u: Store) {
    && |s.log| <= |u.log| && u.log[..|s.log|] == s.log
    && forall id :: SameTrigger(s.triggers, u.triggers, id)
  }

  ghost predicate SameTrigger(a: seq<Trigger>, b: seq<Trigger>, id: Id) {
    Stored(a, id).Some? ==>
      && Stored(b, id).Some?
      && Stored(b, id).value.kind == Stored(a, id).value.kind
      && Stored(b, id).value.config == Stored(a, id).value.config
  }

  lemma ContinuesOn(s: Store, u: Store, v: Store)
    requires Continues(s, u) && Continues(u, v)
    ensures Continues(s, v)
  {
    assert v.log[..|s.log|] == v.log[..|u.log|][..|s.log|];
    forall id ensures SameTrigger(s.triggers, v.triggers, id) {
      assert SameTrigger(s.triggers, u.triggers, id) && SameTrigger(u.triggers, v.triggers, id);
    }
  }

  /** What was added to the history carries this time. */
  ghost predicate Stamped(s: Store, u: Store, now: int) {
    forall k | |s.log| <= k < |u.log| :: u.log[k].at == now
  }

  lemma StampedOn(s: Store, u: Store, v: Store, now: int)
    requires Continues(s, u) && Continues(u, v) && Stamped(s, u, now) && Stamped(u, v, now)
    ensures Stamped(s, v, now)
  {
    forall k | |s.log| <= k < |v.log| ensures v.log[k].at == now {
      if k < |u.log| { assert v.log[k] == v.log[..|u.log|][k]; }
    }
  }

  lemma FireContinues(s: Store, id: Id, now: int, fp: Fingerprint, busy: bool)
    ensures Continues(s, FiredOnce(s, id, now, fp, busy)) && Stamped(s, FiredOnce(s, id, now, fp, busy), now)
  {
    var u := FiredOnce(s, id, now, fp, busy);
    forall x ensures SameTrigger(s.triggers, u.triggers, x) {
      hide Recorded, Updated;
      StoredAfter(s.triggers, id, now, fp, x);
      if Stored(s.triggers, x).Some? { RecordedKeepsSettings(Stored(s.triggers, x).value, now, fp); }
    }
  }

  lemma {:induction false} HitPassContinues(s: Store, id: Id, hits: seq<Candidate>, now: int, cap: int)
    ensures Continues(s, HitPass(s, id, hits, now, cap)) && Stamped(s, HitPass(s, id, hits, now, cap), now)
    decreases |hits|
  {
    hide FiredOnce, RateLimited;
    if hits != [] && !RateLimited(s, now, cap) {
      var u := FiredOnce(s, id, now, hits[0].fp, id in hits[0].busyFor);
      FireContinues(s, id, now, hits[0].fp, id in hits[0].busyFor);
      HitPassContinues(u, id, hits[1..], now, cap);
      hide Continues, Stamped;
      ContinuesOn(s, u, HitPass(u, id, hits[1..], now, cap));
      StampedOn(s, u, HitPass(u, id, hits[1..], now, cap), now);
    }
  }

  lemma {:induction false} SchedulePassContinues(s: Store, todo: seq<Trigger>, now: int, cap: int)
    ensures Continues(s, SchedulePass(s, todo, now, cap)) && Stamped(s, SchedulePass(s, todo, now, cap), now)
    decreases |todo|
  {
    hide FiredOnce, RateLimited, ScheduleDue;
    if todo != [] {
      SchedulePassContinues(s, todo[1..], now, cap);
      var u := FiredOnce(s, todo[0].id, now, NONE, false);
      FireContinues(s, todo[0].id, now, NONE, false);
      SchedulePassContinues(u, todo[1..], now, cap);
      Stays(s, now);
      hide Continues, Stamped;
      ContinuesOn(s, u, SchedulePass(u, todo[1..], now, cap));
      StampedOn(s, u, SchedulePass(u, todo[1..], now, cap), now);
    }
  }

  lemma Stays(s: Store, now: int)
    ensures Continues(s, s) && Stamped(s, s, now)
  {
  }

  lemma {:induction false} FetchPassContinues(s: Store, kind: Kind, todo: seq<Trigger>, candidates: seq<Candidate>,
                                              now: int, cap: int)
    ensures var u := FetchPass(s, kind, todo, candidates, now, cap); Continues(s, u) && Stamped(s, u, now)
    decreases |todo|
  {
    hide HitPass, Hits, Live;
    if todo != [] {
      FetchPassContinues(s, kind, todo[1..], candidates, now, cap);
      var hits := Hits(kind, Live(s.triggers, todo[0]), candidates, now);
      var u := HitPass(s, todo[0].id, hits, now, cap);
      HitPassContinues(s, todo[0].id, hits, now, cap);
      FetchPassContinues(u, kind, todo[1..], candidates, now, cap);
      hide Continues, Stamped;
      ContinuesOn(s, u, FetchPass(u, kind, todo[1..], candidates, now, cap));
      StampedOn(s, u, FetchPass(u, kind, todo[1..], candidates, now, cap), now);
    }
  }

  /** Two fires that are too close stay too close. */
  lemma TooCloseForGood(s: Store, u: Store, a: nat, b: nat)
    requires Continues(s, u) && !PairOk(s, a, b)
    ensures !PairOk(u, a, b)
  {
    hide DayOf, IsDaily;
    assert u.log[a] == u.log[..|s.log|][a] && u.log[b] == u.log[..|s.log|][b];
    assert SameTrigger(s.triggers, u.triggers, s.log[a].id);
    SameIsDaily(Stored(s.triggers, s.log[a].id).value, Stored(u.triggers, s.log[a].id).value);
  }

  lemma SameIsDaily(t: Trigger, u: Trigger)
    requires t.kind == u.kind && t.config == u.config
    ensures IsDaily(t) == IsDaily(u) && Cooldown(t) == Cooldown(u)
  {
  }

  lemma ApartBefore(s: Store, u: Store)
    requires Continues(s, u) && AllApart(u)
    ensures AllApart(s)
  {
    hide PairOk, Continues;
    forall a: nat, b: nat ensures PairOk(s, a, b) {
      assert PairOk(u, a, b);
      if !PairOk(s, a, b) { TooCloseForGood(s, u, a, b); }
    }
  }

  // ---- exactly when a fetch pass keeps the cooldown --------------------------------------

  /** A hit pass keeps all fires apart exactly when the hits it fires have different fingerprints, or
      the trigger has no cooldown. */
  lemma HitPassApartExactly(s: Store, id: Id, hits: seq<Candidate>, now: int, cap: int)
    requires Inv(s, now, cap, Rules(false, true)) && Stored(s.triggers, id).Some?
    requires Stored(s.triggers, id).value.kind in {ErrorSpike, Advisor}
    requires AllClear(s, id, Chosen(s, id, hits, now, cap), now)
    ensures AllApart(HitPass(s, id, hits, now, cap))
       <==> Separate(Stored(s.triggers, id).value, Chosen(s, id, hits, now, cap))
  {
    hide HitPass, Chosen, AllClear, Inv;
    var t, chosen, u := Stored(s.triggers, id).value, Chosen(s, id, hits, now, cap), HitPass(s, id, hits, now, cap);
    if Separate(t, chosen) {
      HitPassKeepsInv(s, id, hits, now, cap, Rules(false, true));
      InvIsApart(u, now, cap);
    } else {
      var i, j :| 0 <= i < j < |chosen| && chosen[i].fp == chosen[j].fp;
      ClearAt(s, id, chosen, now, i);
      HitPassContinues(s, id, hits, now, cap);
      HitPassFires(s, id, hits, now, cap);
      RepeatedIsTooClose(s, u, id, now, chosen, i, j);
    }
  }

  lemma ClearAt(s: Store, id: Id, hits: seq<Candidate>, now: int, k: nat)
    requires AllClear(s, id, hits, now) && k < |hits|
    ensures hits[k].fp != NONE
  {
  }

  lemma InvIsApart(s: Store, now: int, cap: int)
    requires Inv(s, now, cap, Rules(false, true))
    ensures AllApart(s) && Spaced(s, now)
  {
  }

  lemma RepeatedIsTooClose(s: Store, u: Store, id: Id, now: int, chosen: seq<Candidate>, i: nat, j: nat)
    requires Continues(s, u) && Stored(s.triggers, id).Some? && Cooldown(Stored(s.triggers, id).value) > 0
    requires u.log == s.log + FiresFor(id, now, chosen) && i < j < |chosen| && chosen[i].fp == chosen[j].fp != NONE
    ensures !PairOk(u, |s.log| + i, |s.log| + j)
  {
    hide FiresFor, DayOf, IsDaily;
    FiresForAt(id, now, chosen);
    assert u.log[|s.log| + i] == Fire(id, now, chosen[i].fp) && u.log[|s.log| + j] == Fire(id, now, chosen[j].fp);
    assert SameTrigger(s.triggers, u.triggers, id);
    SameIsDaily(Stored(s.triggers, id).value, Stored(u.triggers, id).value);
  }
}
