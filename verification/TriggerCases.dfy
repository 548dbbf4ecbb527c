/** Switching triggers off, and inputs on which the conditions of the laws fail. */
module TriggerCases {
  import opened Wrappers
  import opened Triggers
  import opened TriggerTally
  import opened TriggerLaws
  import opened TriggerRuns

  // ---- switched off ----------------------------------------------------------------------

  /** A trigger that is switched off is not fired by the schedule pass, nor by its webhook. */
  lemma {:induction false} SwitchedOffStaysQuiet(s: Store, todo: seq<Trigger>, now: int, cap: int, id: Id)
    requires Snapshot(s.triggers, todo) && Stored(s.triggers, id).Some? && !Stored(s.triggers, id).value.enabled
    ensures Stored(SchedulePass(s, todo, now, cap).triggers, id) == Stored(s.triggers, id)
    ensures DistinctIds(s.triggers) ==> forall signed, masterOn :: WebhookCall(s, id, signed, masterOn, now, cap) == s
    decreases |todo|
  {
    hide ScheduleDue, RateLimited, Snapshot, Updated, DistinctIds, Recorded;
    if DistinctIds(s.triggers) && Find(s.triggers, id).Some? { WebhookIsStored(s.triggers, id); }
    if todo != [] {
      SnapshotAfter(s.triggers, todo, now, NONE);
      StoredAfter(s.triggers, todo[0].id, now, NONE, id);
      SwitchedOffStaysQuiet(s, todo[1..], now, cap, id);
      if todo[0].enabled && todo[0].kind == Schedule && ScheduleDue(todo[0], now) {
        SwitchedOffStaysQuiet(FiredOnce(s, todo[0].id, now, NONE, false), todo[1..], now, cap, id);
      }
    }
  }

  function CountFires(log: seq<Fire>, id: Id): nat {
    if log == [] then 0 else CountFires(log[..|log| - 1], id) + if log[|log| - 1].id == id then 1 else 0
  }

  lemma {:induction false} CountAppend(a: seq<Fire>, b: seq<Fire>, id: Id)
    ensures CountFires(a + b, id) == CountFires(a, id) + CountFires(b, id)
  {
    if b == [] {
      assert a + b == a;
    } else {
      assert (a + b)[..|a + b| - 1] == a + b[..|b| - 1];
      CountAppend(a, b[..|b| - 1], id);
    }
  }

  lemma {:induction false} CountFired(id: Id, now: int, hits: seq<Candidate>, x: Id)
    ensures CountFires(FiresFor(id, now, hits), x) == if id == x then |hits| else 0
  {
    if hits != [] {
      CountFired(id, now, hits[1..], x);
      CountAppend([Fire(id, now, hits[0].fp)], FiresFor(id, now, hits[1..]), x);
      assert [Fire(id, now, hits[0].fp)][..0] == [];
    }
  }

  lemma FirstFires(s: Store, kind: Kind, t: Trigger, candidates: seq<Candidate>, now: int, cap: int, id: Id)
    requires Stored(s.triggers, t.id).Some?
    ensures CountFires(AfterFirst(s, kind, t, candidates, now, cap).log, id)
         == CountFires(s.log, id)
            + if t.id == id && t.enabled && t.kind == kind then |ChosenFor(s, kind, t, candidates, now, cap)| else 0
  {
    hide Chosen, HitPass, Hits, FiresFor, CountFires;
    var chosen := ChosenFor(s, kind, t, candidates, now, cap);
    HitPassFires(s, t.id, Hits(kind, Live(s.triggers, t), candidates, now), now, cap);
    CountAppend(s.log, FiresFor(t.id, now, chosen), id);
    CountFired(t.id, now, chosen, id);
  }

  lemma {:induction false} UnlistedStaysQuiet(s: Store, kind: Kind, todo: seq<Trigger>, candidates: seq<Candidate>,
                                              now: int, cap: int, id: Id)
    requires Known(s.triggers, todo) && forall k | 0 <= k < |todo| :: todo[k].id != id
    ensures CountFires(FetchPass(s, kind, todo, candidates, now, cap).log, id) == CountFires(s.log, id)
    decreases |todo|
  {
    hide Known, Continues, AfterFirst, ChosenFor;
    if todo != [] {
      var u := AfterFirst(s, kind, todo[0], candidates, now, cap);
      FetchStep(s, kind, todo, candidates, now, cap);
      KnownAfter(s, u, todo);
      FirstFires(s, kind, todo[0], candidates, now, cap, id);
      UnlistedStaysQuiet(u, kind, todo[1..], candidates, now, cap, id);
    }
  }

  /** A fetch pass goes by the list read when the tick began: how often it fires a trigger depends on the
      switch in that list and not on the one stored by then. So a trigger switched off in between fires
      exactly when it was listed as enabled and some hit is chosen for it. */
  lemma {:induction false} FetchGoesByItsList(s: Store, kind: Kind, todo: seq<Trigger>, candidates: seq<Candidate>,
                                              now: int, cap: int, k: nat)
    requires Known(s.triggers, todo) && DistinctIds(todo) && k < |todo|
    ensures var before := FetchPass(s, kind, todo[..k], candidates, now, cap);
            CountFires(FetchPass(s, kind, todo, candidates, now, cap).log, todo[k].id)
            == CountFires(s.log, todo[k].id)
               + if todo[k].enabled && todo[k].kind == kind
                 then |ChosenFor(before, kind, todo[k], candidates, now, cap)| else 0
    decreases |todo|
  {
    hide Known, Continues, AfterFirst, ChosenFor;
    var u, id := AfterFirst(s, kind, todo[0], candidates, now, cap), todo[k].id;
    FetchStep(s, kind, todo, candidates, now, cap);
    KnownAfter(s, u, todo);
    FirstFires(s, kind, todo[0], candidates, now, cap, id);
    if k == 0 {
      assert todo[..0] == [];
      assert forall j | 0 <= j < |todo[1..]| :: todo[1..][j] == todo[j + 1];
      UnlistedStaysQuiet(u, kind, todo[1..], candidates, now, cap, id);
    } else {
      TailDistinct(todo);
      FetchGoesByItsList(u, kind, todo[1..], candidates, now, cap, k - 1);
      FetchStep(s, kind, todo[..k], candidates, now, cap);
      assert todo[..k][0] == todo[0] && todo[..k][1..] == todo[1..][..k - 1] && todo[1..][k - 1] == todo[k];
    }
  }

  // ---- why the conditions are needed -----------------------------------------------------

  const SETTINGS := Config(0, None, 1, 0, false, None, 1, false)

  /** A fetch that lists a fingerprint twice makes a trigger fire twice for it at once. */
  lemma RepeatedPrintFiresTwice(fp: Fingerprint, now: int)
    requires fp != NONE
    ensures var t := Trigger(Id("t"), ErrorSpike, true, SETTINGS, None, None, 0, map[]);
            var g := Candidate(fp, false, now, 1, true, {});
            FetchPass(Store([t], []), ErrorSpike, [t], [g, g], now, 5).log
              == [Fire(Id("t"), now, fp), Fire(Id("t"), now, fp)]
  {
    var t := Trigger(Id("t"), ErrorSpike, true, SETTINGS, None, None, 0, map[]);
    var g := Candidate(fp, false, now, 1, true, {});
    var s := Store([t], []);
    var u := FiredOnce(s, t.id, now, fp, false);
    TwoSpikes(t, g, now);
    OneTrigger(s, t, [g, g], now, 5);
    assert Live([t], t) == t;
    assert FiresOn([t], DayOf(now)) == 0;
    FiresAfter([t], t.id, now, fp);
    TwoHits(s, t.id, g, now, 5);
    hide FetchPass, HitPass, Updated, Recorded, SpikeHits, Live, FiresOn;
    assert [] + [Fire(t.id, now, fp)] + [Fire(t.id, now, fp)] == [Fire(t.id, now, fp), Fire(t.id, now, fp)];
  }

  lemma TwoSpikes(t: Trigger, g: Candidate, now: int)
    requires SpikeHit(t, g, now)
    ensures SpikeHits(t, [g, g], now) == [g, g]
  {
    hide SpikeHit;
    OneSpike(t, g, now);
    assert [g, g][..1] == [g];
  }

  lemma TwoHits(s: Store, id: Id, g: Candidate, now: int, cap: int)
    requires id !in g.busyFor && !RateLimited(s, now, cap) && !RateLimited(FiredOnce(s, id, now, g.fp, false), now, cap)
    ensures HitPass(s, id, [g, g], now, cap) == FiredOnce(FiredOnce(s, id, now, g.fp, false), id, now, g.fp, false)
  {
    hide FiredOnce, RateLimited;
    assert [g, g][1..] == [g];
    OneHit(FiredOnce(s, id, now, g.fp, false), id, g, now, cap);
  }

  /** A tick that began before midnight and goes on, after its fetch, behind a webhook of the new day no
      longer sees the old day's count: with a cap of one, the old day gets two fires. */
  lemma LatePassExceedsCap(fp: Fingerprint)
    requires fp != NONE
    ensures var t := Trigger(Id("t"), Webhook, true, SETTINGS, None, None, 0, map[]);
            var q := Trigger(Id("q"), ErrorSpike, true, SETTINGS, None, None, 0, map[]);
            var s := WebhookCall(Store([t, q], []), Id("t"), true, true, DAY - 2, 1);
            var u := WebhookCall(s, Id("t"), true, true, DAY + 1, 1);
            var v := FetchPass(u, ErrorSpike, [q], [Candidate(fp, false, 0, 1, true, {})], DAY - 1, 1);
            CountDay(v.log, 0) == 2
  {
    var t := Trigger(Id("t"), Webhook, true, SETTINGS, None, None, 0, map[]);
    var q := Trigger(Id("q"), ErrorSpike, true, SETTINGS, None, None, 0, map[]);
    var t1, t2 := Recorded(t, DAY - 2, NONE), Recorded(Recorded(t, DAY - 2, NONE), DAY + 1, NONE);
    var a, b, c := Fire(Id("t"), DAY - 2, NONE), Fire(Id("t"), DAY + 1, NONE), Fire(Id("q"), DAY - 1, fp);
    HookFires(t, q, [], DAY - 2);
    HookFires(t1, q, [a], DAY + 1);
    LateHit(Store([t2, q], [a] + [b]), q, Candidate(fp, false, 0, 1, true, {}));
    hide WebhookCall, FetchPass, Recorded;
    LogSnoc([], a, a.id, 0);
    LogSnoc([a], b, a.id, 0);
    LogSnoc([a] + [b], c, a.id, 0);
    assert [] + [a] == [a];
  }

  lemma HookFires(t: Trigger, q: Trigger, log: seq<Fire>, now: int)
    requires t.kind == Webhook && t.enabled && t.firesDay != Some(DayOf(now)) && q.firesDay == None
    ensures WebhookCall(Store([t, q], log), t.id, true, true, now, 1)
         == Store([Recorded(t, now, NONE), q], log + [Fire(t.id, now, NONE)])
  {
    hide Recorded;
    assert [t, q][1..] == [q] && [q][1..] == [];
    assert FiresOn([q], DayOf(now)) == 0 && FiresOn([t, q], DayOf(now)) == 0;
  }

  lemma LateHit(u: Store, q: Trigger, g: Candidate)
    requires |u.triggers| == 2 && u.triggers[0].id != q.id && u.triggers[1] == q && FiresOn(u.triggers, 0) == 0
    requires q == Trigger(Id("q"), ErrorSpike, true, SETTINGS, None, None, 0, map[])
    requires g.fp != NONE && g == Candidate(g.fp, false, 0, 1, true, {})
    ensures FetchPass(u, ErrorSpike, [q], [g], DAY - 1, 1).log == u.log + [Fire(q.id, DAY - 1, g.fp)]
  {
    SecondIsLive(u.triggers, q);
    OneSpike(q, g, DAY - 1);
    hide FiresOn, SpikeHits, SpikeHit, Live, Updated, FetchPass, HitPass;
    OneTrigger(u, q, [g], DAY - 1, 1);
    OneHit(u, q.id, g, DAY - 1, 1);
  }

  lemma SecondIsLive(triggers: seq<Trigger>, t: Trigger)
    requires |triggers| == 2 && triggers[0].id != t.id && triggers[1] == t
    ensures Live(triggers, t) == t
  {
    assert triggers[1..][0] == t;
  }

  lemma OneTrigger(s: Store, t: Trigger, candidates: seq<Candidate>, now: int, cap: int)
    requires t.enabled && t.kind == ErrorSpike
    ensures FetchPass(s, ErrorSpike, [t], candidates, now, cap)
         == HitPass(s, t.id, SpikeHits(Live(s.triggers, t), candidates, now), now, cap)
  {
    hide HitPass, SpikeHits, Live;
    assert [t][1..] == [];
  }

  lemma OneHit(s: Store, id: Id, g: Candidate, now: int, cap: int)
    ensures HitPass(s, id, [g], now, cap)
         == if RateLimited(s, now, cap) then s else FiredOnce(s, id, now, g.fp, id in g.busyFor)
  {
    hide FiredOnce, RateLimited;
    assert [g][1..] == [];
  }

  lemma OneSpike(t: Trigger, g: Candidate, now: int)
    requires SpikeHit(t, g, now)
    ensures SpikeHits(t, [g], now) == [g]
  {
    assert [g][..0] == [] && SpikeHits(t, [], now) == [];
  }
}
