/** Exactly when a trigger fires: a webhook, a schedule, an error group, a proposal; and that a one-shot
    trigger fires once. */
module TriggerFires {
  import opened Wrappers
  import opened Triggers
  import opened TriggerTally
  import opened TriggerLaws
  import opened TriggerRuns
  import opened TriggerCases

  /** The trigger at `k` is the first stored one that is a webhook with this id. */
  predicate FirstHook(triggers: seq<Trigger>, id: Id, k: nat) {
    && k < |triggers| && triggers[k].id == id && triggers[k].kind == Webhook
    && forall j | 0 <= j < k :: !(triggers[j].id == id && triggers[j].kind == Webhook)
  }

  predicate NoHook(triggers: seq<Trigger>, id: Id) {
    forall j | 0 <= j < |triggers| :: !(triggers[j].id == id && triggers[j].kind == Webhook)
  }

  lemma {:induction false} FindIsFirst(triggers: seq<Trigger>, id: Id)
    ensures Find(triggers, id) == None <==> NoHook(triggers, id)
    ensures forall k: nat :: FirstHook(triggers, id, k) ==> Find(triggers, id) == Some(triggers[k])
    ensures Find(triggers, id).Some? ==> exists k: nat :: FirstHook(triggers, id, k)
  {
    if triggers != [] {
      var rest := triggers[1..];
      FindIsFirst(rest, id);
      assert forall j | 0 <= j < |rest| :: rest[j] == triggers[j + 1];
      if triggers[0].id == id && triggers[0].kind == Webhook {
        assert FirstHook(triggers, id, 0);
      } else {
        forall k: nat | FirstHook(triggers, id, k) ensures FirstHook(rest, id, k - 1) {}
        if Find(rest, id).Some? {
          var k: nat :| FirstHook(rest, id, k);
          assert FirstHook(triggers, id, k + 1);
        }
      }
    }
  }

  /** The day has room for a fire. */
  predicate HasRoom(s: Store, now: int, cap: int) {
    FiresOn(s.triggers, DayOf(now)) < cap
  }

  // ---- webhooks --------------------------------------------------------------------------

  /** Each refusal by its own condition, the first that applies: no such webhook, a bad signature, the
      master switch, the trigger's own switch, the daily cap. */
  lemma WebhookRefusesInOrder(s: Store, id: Id, signed: bool, masterOn: bool, now: int, cap: int, k: nat)
    ensures var reply := WebhookReply(s, id, signed, masterOn, now, cap);
            && (reply == UnknownWebhook <==> NoHook(s.triggers, id))
            && (FirstHook(s.triggers, id, k) ==>
                  && (reply == BadSignature <==> !signed)
                  && (reply == SwitchedOff <==> signed && !masterOn)
                  && (reply == TriggerDisabled <==> signed && masterOn && !s.triggers[k].enabled)
                  && (reply == CapReached <==> signed && masterOn && s.triggers[k].enabled && !HasRoom(s, now, cap))
                  && (reply == Accepted <==> signed && masterOn && s.triggers[k].enabled && HasRoom(s, now, cap)))
  {
    hide Find, FiresOn;
    FindIsFirst(s.triggers, id);
    if FirstHook(s.triggers, id, k) { assert Find(s.triggers, id) == Some(s.triggers[k]); }
  }

  /** A webhook call adds one fire, of that trigger at that time, exactly when the first stored webhook
      with the id is enabled, the call is signed, the master switch is on and the day has room; in every
      other case nothing is stored and nothing fires. */
  lemma WebhookFiresExactly(s: Store, id: Id, signed: bool, masterOn: bool, now: int, cap: int)
    ensures var u := WebhookCall(s, id, signed, masterOn, now, cap);
            if signed && masterOn && HasRoom(s, now, cap)
               && exists k: nat :: FirstHook(s.triggers, id, k) && s.triggers[k].enabled
            then u.log == s.log + [Fire(id, now, NONE)] && |u.triggers| == |s.triggers|
            else u == s
  {
    hide FirstHook, NoHook, WebhookReply, HasRoom, FiresOn, Recorded;
    UpdatedLength(s.triggers, id, now, NONE);
    WebhookRefusesInOrder(s, id, signed, masterOn, now, cap, 0);
    FindIsFirst(s.triggers, id);
    if !NoHook(s.triggers, id) {
      var k: nat :| FirstHook(s.triggers, id, k);
      WebhookRefusesInOrder(s, id, signed, masterOn, now, cap, k);
      forall j: nat | FirstHook(s.triggers, id, j) ensures j == k { OneFirst(s.triggers, id, j, k); }
    } else {
      forall j: nat ensures !FirstHook(s.triggers, id, j) { NoneFirst(s.triggers, id, j); }
    }
  }

  lemma OneFirst(triggers: seq<Trigger>, id: Id, j: nat, k: nat)
    requires FirstHook(triggers, id, j) && FirstHook(triggers, id, k)
    ensures j == k
  {
  }

  lemma NoneFirst(triggers: seq<Trigger>, id: Id, j: nat)
    requires NoHook(triggers, id)
    ensures !FirstHook(triggers, id, j)
  {
  }

  // ---- what a fire records ---------------------------------------------------------------

  /** What a fire leaves in its trigger: its time, one more on the count of its day, the trigger off when it
      is a one-shot, and for a fingerprint its time, with those a cooldown or more old forgotten. The
      settings stay, and so does every other trigger. */
  lemma FireIsRecorded(s: Store, k: nat, now: int, fp: Fingerprint)
    requires DistinctIds(s.triggers) && k < |s.triggers|
    ensures var u := FiredOnce(s, s.triggers[k].id, now, fp, false);
            && |u.triggers| == |s.triggers|
            && (forall j | 0 <= j < |s.triggers| && j != k :: u.triggers[j] == s.triggers[j])
            && var t, v := s.triggers[k], u.triggers[k];
               && v.id == t.id && v.kind == t.kind && v.config == t.config
               && v.lastFired == Some(now) && v.firesDay == Some(now / 86400)
               && v.firesToday == (if t.firesDay == Some(now / 86400) then t.firesToday + 1 else 1)
               && (v.enabled <==> t.enabled && !t.config.once)
               && (fp == NONE ==> v.fired == t.fired)
               && (fp != NONE ==>
                     forall f :: (f in v.fired <==>
                                    (f == fp && Cooldown(t) >= 0)
                                    || (f != fp && f in t.fired && now - t.fired[f] <= Cooldown(t)))
                                 && (f in v.fired ==> v.fired[f] == if f == fp then now else t.fired[f]))
  {
    hide Cooldown;
    var id := s.triggers[k].id;
    UpdatedLength(s.triggers, id, now, fp);
    forall j | 0 <= j < |s.triggers|
      ensures Updated(s.triggers, id, now, fp)[j] == if j == k then Recorded(s.triggers[j], now, fp) else s.triggers[j]
    {
      UpdatedAt(s.triggers, id, now, fp, j);
    }
  }

  // ---- schedules -------------------------------------------------------------------------

  /** The latest time of a daily trigger up to now, today's or none. */
  predicate DailyDue(at: (nat, nat), lastFired: Option<int>, now: int) {
    var todays := now - now % 86400 + (at.0 % 24) * 3600 + (at.1 % 60) * 60;
    todays <= now && match lastFired case Some(l) => l < todays case None => 0 < todays
  }

  /** A schedule trigger that is considered fires exactly when the day has room, it is enabled, and its
      time has come: its interval, if it has one, since its last fire or at once without one; else the
      time of day, if it has one, unless it fired since. */
  lemma ScheduleFiresExactly(s: Store, t: Trigger, now: int, cap: int)
    ensures var u := SchedulePass(s, [t], now, cap);
            var dueByNow := if t.config.interval != 0
                            then t.lastFired == None || t.lastFired.value + t.config.interval <= now
                            else t.config.dailyAt.Some? && DailyDue(t.config.dailyAt.value, t.lastFired, now);
            if t.enabled && t.kind == Schedule && dueByNow && HasRoom(s, now, cap)
            then u.log == s.log + [Fire(t.id, now, NONE)]
            else u == s
  {
    hide FiresOn, Updated;
    assert [t][1..] == [];
  }

  /** A schedule pass goes through its list in order, one trigger after the other; once the day is full
      nothing further fires. */
  lemma {:induction false} SchedulePassInTurn(s: Store, a: seq<Trigger>, b: seq<Trigger>, now: int, cap: int)
    ensures SchedulePass(s, a + b, now, cap) == SchedulePass(SchedulePass(s, a, now, cap), b, now, cap)
    decreases |a|
  {
    hide ScheduleDue, FiredOnce, RateLimited;
    if a == [] {
      assert a + b == b;
    } else {
      assert (a + b)[1..] == a[1..] + b;
      SchedulePassInTurn(s, a[1..], b, now, cap);
      SchedulePassInTurn(FiredOnce(s, a[0].id, now, NONE, false), a[1..], b, now, cap);
      if RateLimited(s, now, cap) { FullStays(s, b, now, cap); }
    }
  }

  lemma {:induction false} FullStays(s: Store, todo: seq<Trigger>, now: int, cap: int)
    requires RateLimited(s, now, cap)
    ensures SchedulePass(s, todo, now, cap) == s
  {
    hide RateLimited, ScheduleDue, FiredOnce;
    if todo != [] { FullStays(s, todo[1..], now, cap); }
  }

  // ---- error groups and proposals --------------------------------------------------------

  /** The fingerprint has not fired, or at least a cooldown ago: the configured one, or a day, or thirty
      days for proposals. */
  predicate Rested(t: Trigger, fp: Fingerprint, now: int) {
    var cooldown := match t.config.cooldown
                    case Some(c) => c
                    case None => if t.kind == Advisor then 30 * 86400 else 86400;
    fp !in t.fired || t.fired[fp] + cooldown <= now
  }

  /** An error group fires a trigger exactly when the trigger is an enabled one for errors, the day has
      room, the group is not resolved, has a fingerprint, was seen within the window if there is one, is
      frequent enough, or is there at all for a trigger that trips on new ones, has rested, and is not in
      flight. */
  lemma GroupFiresExactly(s: Store, t: Trigger, g: Candidate, now: int, cap: int)
    requires Stored(s.triggers, t.id) == Some(t)
    ensures var u := FetchPass(s, ErrorSpike, [t], [g], now, cap);
            if t.enabled && t.kind == ErrorSpike && HasRoom(s, now, cap)
               && !g.resolved && g.fp.text != ""
               && (t.config.window <= 0 || g.lastTs + t.config.window >= now)
               && (t.config.threshold <= g.count || (t.config.tripOnNew && 0 < g.count))
               && Rested(t, g.fp, now) && t.id !in g.busyFor
            then u.log == s.log + [Fire(t.id, now, g.fp)]
            else u == s
  {
    OneOfEach(s, ErrorSpike, t, g, now, cap);
    assert [g][..0] == [] && SpikeHits(t, [], now) == [];
    assert SpikeHits(t, [g], now) == if SpikeHit(t, g, now) then [g] else [];
    hide FiresOn, Updated, FetchPass, SpikeHits;
  }

  /** A proposal fires a trigger exactly when the trigger is an enabled advisor, the day has room, the
      proposal has an id and a prompt, has rested, and is not in flight. */
  lemma ProposalFiresExactly(s: Store, t: Trigger, p: Candidate, now: int, cap: int)
    requires Stored(s.triggers, t.id) == Some(t)
    ensures var u := FetchPass(s, Advisor, [t], [p], now, cap);
            if t.enabled && t.kind == Advisor && HasRoom(s, now, cap)
               && p.fp.text != "" && p.due && Rested(t, p.fp, now) && t.id !in p.busyFor
            then u.log == s.log + [Fire(t.id, now, p.fp)]
            else u == s
  {
    OneOfEach(s, Advisor, t, p, now, cap);
    assert [p][1..] == [];
    assert AdvisorHits(t, [p], now, t.config.maxPerTick) == if AdvisorHit(t, p, now) then [p] else [];
    hide FiresOn, Updated, FetchPass, AdvisorHits;
  }

  lemma OneOfEach(s: Store, kind: Kind, t: Trigger, c: Candidate, now: int, cap: int)
    requires Stored(s.triggers, t.id) == Some(t)
    ensures Hits(kind, t, [c], now) == [] || Hits(kind, t, [c], now) == [c]
    ensures var u := FetchPass(s, kind, [t], [c], now, cap);
            if t.enabled && t.kind == kind && Hits(kind, t, [c], now) == [c] && HasRoom(s, now, cap)
            then u == FiredOnce(s, t.id, now, c.fp, t.id in c.busyFor) else u == s
  {
    HitsOfOne(kind, t, c, now);
    assert [t][1..] == [];
    hide SpikeHit, Hits, AdvisorHit, FiredOnce, FiresOn, Live;
    LiveIsStored(s.triggers, t);
    OneHit(s, t.id, c, now, cap);
    hide HitPass;
    FetchStep(s, kind, [t], [c], now, cap);
    assert HitPass(s, t.id, [], now, cap) == s by { NoHits(s, t.id, now, cap); }
  }

  lemma HitsOfOne(kind: Kind, t: Trigger, c: Candidate, now: int)
    ensures Hits(kind, t, [c], now) == [] || Hits(kind, t, [c], now) == [c]
  {
    hide SpikeHit, AdvisorHit;
    assert [c][..0] == [] && [c][1..] == [];
    assert SpikeHits(t, [], now) == [];
    assert SpikeHits(t, [c], now) == if SpikeHit(t, c, now) then [c] else [];
    assert AdvisorHits(t, [c], now, t.config.maxPerTick) == if AdvisorHit(t, c, now) then [c] else [];
  }

  lemma NoHits(s: Store, id: Id, now: int, cap: int)
    ensures HitPass(s, id, [], now, cap) == s
  {
  }

  /** The groups of a fetch are judged one by one and kept in order. */
  lemma {:induction false} GroupsOneByOne(t: Trigger, a: seq<Candidate>, b: seq<Candidate>, now: int)
    ensures SpikeHits(t, a + b, now) == SpikeHits(t, a, now) + SpikeHits(t, b, now)
  {
    hide SpikeHit;
    if b == [] {
      assert a + b == a;
    } else {
      assert (a + b)[..|a + b| - 1] == a + b[..|b| - 1];
      GroupsOneByOne(t, a, b[..|b| - 1], now);
    }
  }

  /** So are the proposals, until as many as a tick may take are found, one at least. */
  lemma {:induction false} ProposalsOneByOne(t: Trigger, p: Candidate, rest: seq<Candidate>, now: int, cap: int)
    ensures var hits, alone := AdvisorHits(t, [p] + rest, now, cap), AdvisorHits(t, [p], now, cap);
            if alone == [] then hits == AdvisorHits(t, rest, now, cap)
            else if cap > 1 then hits == alone + AdvisorHits(t, rest, now, cap - 1)
            else hits == alone
  {
    hide AdvisorHit;
    assert ([p] + rest)[1..] == rest && [p][1..] == [];
  }

  lemma {:induction false} AtMostPerTick(t: Trigger, proposals: seq<Candidate>, now: int, cap: int)
    ensures |AdvisorHits(t, proposals, now, cap)| <= if cap > 1 then cap else 1
  {
    hide AdvisorHit;
    if proposals != [] {
      AtMostPerTick(t, proposals[1..], now, cap);
      AtMostPerTick(t, proposals[1..], now, cap - 1);
    }
  }

  // ---- one-shot triggers -----------------------------------------------------------------

  /** A one-shot schedule or webhook that has fired is off. */
  ghost predicate Spent(s: Store, id: Id) {
    && DistinctIds(s.triggers)
    && Stored(s.triggers, id).Some? && Stored(s.triggers, id).value.config.once
    && Stored(s.triggers, id).value.kind in {Schedule, Webhook}
    && CountFires(s.log, id) <= 1
    && (CountFires(s.log, id) == 1 ==> !Stored(s.triggers, id).value.enabled)
  }

  lemma FireSpends(s: Store, id: Id, x: Id, now: int, fp: Fingerprint)
    requires Spent(s, id) && (x == id ==> Stored(s.triggers, id).value.enabled)
    ensures Spent(FiredOnce(s, x, now, fp, false), id)
  {
    hide Recorded, Updated;
    StoredAfter(s.triggers, x, now, fp, id);
    UpdatedDistinct(s.triggers, x, now, fp);
    RecordedOff(Stored(s.triggers, id).value, now, fp);
    CountAppend(s.log, [Fire(x, now, fp)], id);
    assert [Fire(x, now, fp)][..0] == [];
    if x == id { assert CountFires(s.log, id) == 0; }
  }

  lemma RecordedOff(t: Trigger, now: int, fp: Fingerprint)
    ensures t.config.once ==> !Recorded(t, now, fp).enabled
    ensures Recorded(t, now, fp).config == t.config && Recorded(t, now, fp).kind == t.kind
  {
  }

  lemma {:induction false} SchedulePassSpends(s: Store, todo: seq<Trigger>, now: int, cap: int, id: Id)
    requires Spent(s, id) && Snapshot(s.triggers, todo)
    ensures Spent(SchedulePass(s, todo, now, cap), id)
    decreases |todo|
  {
    hide ScheduleDue, RateLimited, Snapshot, Updated, Spent;
    if todo != [] {
      SnapshotAfter(s.triggers, todo, now, NONE);
      SchedulePassSpends(s, todo[1..], now, cap, id);
      if todo[0].enabled && todo[0].kind == Schedule && ScheduleDue(todo[0], now) {
        FireSpends(s, id, todo[0].id, now, NONE);
        SchedulePassSpends(FiredOnce(s, todo[0].id, now, NONE, false), todo[1..], now, cap, id);
      }
    }
  }

  lemma {:induction false} HitPassSpends(s: Store, x: Id, hits: seq<Candidate>, now: int, cap: int, id: Id)
    requires Spent(s, id) && x != id
    ensures Spent(HitPass(s, x, hits, now, cap), id)
    decreases |hits|
  {
    hide RateLimited, Updated, Spent;
    if hits != [] && !RateLimited(s, now, cap) {
      FireSpends(s, id, x, now, hits[0].fp);
      HitPassSpends(FiredOnce(s, x, now, hits[0].fp, x in hits[0].busyFor), x, hits[1..], now, cap, id);
    }
  }

  lemma {:induction false} FetchPassSpends(s: Store, kind: Kind, todo: seq<Trigger>, candidates: seq<Candidate>,
                                           now: int, cap: int, id: Id)
    requires Spent(s, id) && Known(s.triggers, todo) && kind in {ErrorSpike, Advisor}
    ensures Spent(FetchPass(s, kind, todo, candidates, now, cap), id)
    decreases |todo|
  {
    hide Known, Continues, HitPass, Hits, Live, CountFires, DistinctIds;
    if todo != [] {
      var u := AfterFirst(s, kind, todo[0], candidates, now, cap);
      FetchStep(s, kind, todo, candidates, now, cap);
      KnownAfter(s, u, todo);
      if todo[0].enabled && todo[0].kind == kind {
        HitPassSpends(s, todo[0].id, Hits(kind, Live(s.triggers, todo[0]), candidates, now), now, cap, id);
      }
      FetchPassSpends(u, kind, todo[1..], candidates, now, cap, id);
    }
  }

  lemma StepSpends(w: World, step: Step, cap: int, id: Id)
    requires Spent(w.store, id) && Enabled(w, step, Rules(false, false)) && step != Toggle(id, true)
    ensures Spent(Next(w, step, cap).store, id)
  {
    hide Known, SchedulePass, FetchPass, FiredOnce, Unfired, Snapshot, CountFires;
    var s := w.store;
    match step
    case Create(t) =>
      StoredAppend(s.triggers, t, id);
      StoredAppend(s.triggers, t, t.id);
    case Toggle(x, enabled) => ToggledSpends(s, x, enabled, id);
    case Schedules(now) =>
      SnapshotOfAll(s.triggers);
      SchedulePassSpends(s, s.triggers, now, cap, id);
    case Fetched(kind, todo, candidates, now) => FetchPassSpends(s, kind, todo, candidates, now, cap, id);
    case Hook(x, _, _, now) =>
      if Find(s.triggers, x).Some? {
        WebhookIsStored(s.triggers, x);
        if WebhookReply(s, x, step.signed, step.masterOn, now, cap) == Accepted { FireSpends(s, id, x, now, NONE); }
      }
  }

  lemma ToggledSpends(s: Store, x: Id, enabled: bool, id: Id)
    requires Spent(s, id) && !(x == id && enabled)
    ensures Spent(s.(triggers := Toggled(s.triggers, x, enabled)), id)
  {
    hide CountFires, Toggled;
    ToggledIs(s.triggers, x, enabled, id);
    ToggledAt(s.triggers, x, enabled, id);
  }

  lemma {:induction false} ToggledAt(triggers: seq<Trigger>, x: Id, enabled: bool, id: Id)
    ensures Stored(triggers, id).Some? ==>
              && Stored(Toggled(triggers, x, enabled), id).Some?
              && Stored(Toggled(triggers, x, enabled), id).value.enabled
                 == if x == id then enabled else Stored(triggers, id).value.enabled
  {
    if triggers != [] { ToggledAt(triggers[1..], x, enabled, id); }
  }

  function RunFrom(w: World, steps: seq<Step>, cap: int): World {
    if steps == [] then w else Next(RunFrom(w, steps[..|steps| - 1], cap), steps[|steps| - 1], cap)
  }

  ghost predicate RunnableFrom(w: World, steps: seq<Step>, cap: int) {
    steps == [] ||
    (RunnableFrom(w, steps[..|steps| - 1], cap)
     && Enabled(RunFrom(w, steps[..|steps| - 1], cap), steps[|steps| - 1], Rules(false, false)))
  }

  /** A one-shot schedule or webhook that has not fired yet fires at most once over every run, in any order
      of its times, in which nobody switches it on; and once it has fired it is off. */
  lemma {:induction false} OneShotFiresOnce(w: World, steps: seq<Step>, cap: int, id: Id)
    requires DistinctIds(w.store.triggers) && Stored(w.store.triggers, id).Some?
    requires var t := Stored(w.store.triggers, id).value; t.config.once && t.kind in {Schedule, Webhook}
    requires CountFires(w.store.log, id) == 0 && RunnableFrom(w, steps, cap)
    requires forall k | 0 <= k < |steps| :: steps[k] != Toggle(id, true)
    ensures var u := RunFrom(w, steps, cap).store;
            && CountFires(u.log, id) <= 1 && Stored(u.triggers, id).Some?
            && (CountFires(u.log, id) == 1 ==> !Stored(u.triggers, id).value.enabled)
  {
    OneShotSpent(w, steps, cap, id);
  }

  lemma {:induction false} OneShotSpent(w: World, steps: seq<Step>, cap: int, id: Id)
    requires Spent(w.store, id) && RunnableFrom(w, steps, cap)
    requires forall k | 0 <= k < |steps| :: steps[k] != Toggle(id, true)
    ensures Spent(RunFrom(w, steps, cap).store, id)
  {
    hide Spent, Next, Enabled;
    if steps != [] {
      OneShotSpent(w, steps[..|steps| - 1], cap, id);
      StepSpends(RunFrom(w, steps[..|steps| - 1], cap), steps[|steps| - 1], cap, id);
    }
  }
}
