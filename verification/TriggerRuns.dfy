/** Whole runs of ticks, webhooks and settings: exactly when the counters tell the truth, when the daily
    cap holds, and when the fires of one trigger keep their distance. */
module TriggerRuns {
  import opened Wrappers
  import opened Triggers
  import opened TriggerTally
  import opened TriggerLaws

  // ---- the fetch passes ------------------------------------------------------------------

  /** Every trigger to consider is stored, with its kind. */
  ghost predicate Known(triggers: seq<Trigger>, todo: seq<Trigger>) {
    forall k | 0 <= k < |todo| ::
      Stored(triggers, todo[k].id).Some? && Stored(triggers, todo[k].id).value.kind == todo[k].kind
  }

  lemma KnownAfter(s: Store, u: Store, todo: seq<Trigger>)
    requires todo != [] && Known(s.triggers, todo) && Continues(s, u)
    ensures Known(u.triggers, todo[1..])
    ensures Stored(s.triggers, todo[0].id).Some? && Stored(s.triggers, todo[0].id).value.kind == todo[0].kind
  {
    forall k | 0 <= k < |todo[1..]|
      ensures Stored(u.triggers, todo[1..][k].id).Some?
           && Stored(u.triggers, todo[1..][k].id).value.kind == todo[1..][k].kind
    {
      assert todo[1..][k] == todo[k + 1];
      assert SameTrigger(s.triggers, u.triggers, todo[k + 1].id);
    }
  }

  lemma {:induction false} LiveIsStored(triggers: seq<Trigger>, t: Trigger)
    ensures Stored(triggers, t.id).Some? ==> Live(triggers, t) == Stored(triggers, t.id).value
    ensures Live(triggers, t).id == t.id
  {
    if triggers != [] { LiveIsStored(triggers[1..], t); }
  }

  /** What the pass fires for one trigger of its list. */
  function ChosenFor(s: Store, kind: Kind, t: Trigger, candidates: seq<Candidate>, now: int, cap: int): seq<Candidate> {
    Chosen(s, t.id, Hits(kind, Live(s.triggers, t), candidates, now), now, cap)
  }

  function AfterFirst(s: Store, kind: Kind, t: Trigger, candidates: seq<Candidate>, now: int, cap: int): Store {
    if t.enabled && t.kind == kind then HitPass(s, t.id, Hits(kind, Live(s.triggers, t), candidates, now), now, cap)
    else s
  }

  /** For each trigger in turn, the hits it fires have different fingerprints, or it has no cooldown. */
  ghost predicate FetchSeparate(s: Store, kind: Kind, todo: seq<Trigger>, candidates: seq<Candidate>, now: int,
                                cap: int)
    decreases |todo|
  {
    todo == [] ||
    ((todo[0].enabled && todo[0].kind == kind ==>
        Separate(Live(s.triggers, todo[0]), ChosenFor(s, kind, todo[0], candidates, now, cap)))
     && FetchSeparate(AfterFirst(s, kind, todo[0], candidates, now, cap), kind, todo[1..], candidates, now, cap))
  }

  lemma FetchStep(s: Store, kind: Kind, todo: seq<Trigger>, candidates: seq<Candidate>, now: int, cap: int)
    requires todo != []
    ensures FetchPass(s, kind, todo, candidates, now, cap)
         == FetchPass(AfterFirst(s, kind, todo[0], candidates, now, cap), kind, todo[1..], candidates, now, cap)
    ensures Continues(s, AfterFirst(s, kind, todo[0], candidates, now, cap))
  {
    hide HitPass, Hits, Live, Continues;
    Stays(s, now);
    HitPassContinues(s, todo[0].id, Hits(kind, Live(s.triggers, todo[0]), candidates, now), now, cap);
  }

  /** One trigger of a fetch pass keeps the laws of the run. */
  lemma FirstKeepsInv(s: Store, kind: Kind, t: Trigger, candidates: seq<Candidate>, now: int, cap: int, rules: Rules)
    requires Inv(s, now, cap, rules) && kind in {ErrorSpike, Advisor}
    requires Stored(s.triggers, t.id).Some? && Stored(s.triggers, t.id).value.kind == t.kind
    requires rules.capped ==> Undisturbed(s.log, DayOf(now))
    requires rules.spaced && t.enabled && t.kind == kind ==>
      Separate(Live(s.triggers, t), ChosenFor(s, kind, t, candidates, now, cap))
    ensures Inv(AfterFirst(s, kind, t, candidates, now, cap), now, cap, rules)
    ensures rules.capped ==> Undisturbed(AfterFirst(s, kind, t, candidates, now, cap).log, DayOf(now))
  {
    hide Tallied, Capped, Spaced, Undisturbed, HitPass, Hits, Live, Chosen, AllClear, Separate;
    LiveIsStored(s.triggers, t);
    StoredHasId(s.triggers, t.id);
    if t.enabled && t.kind == kind {
      var live := Live(s.triggers, t);
      if rules.spaced { ChosenAreClear(s, kind, live, candidates, now, cap); }
      HitPassKeepsInv(s, t.id, Hits(kind, live, candidates, now), now, cap, rules);
    }
  }

  lemma {:induction false} FetchPassKeepsInv(s: Store, kind: Kind, todo: seq<Trigger>, candidates: seq<Candidate>,
                                             now: int, cap: int, rules: Rules)
    requires Inv(s, now, cap, rules) && Known(s.triggers, todo) && kind in {ErrorSpike, Advisor}
    requires rules.capped ==> Undisturbed(s.log, DayOf(now))
    requires rules.spaced ==> FetchSeparate(s, kind, todo, candidates, now, cap)
    ensures Inv(FetchPass(s, kind, todo, candidates, now, cap), now, cap, rules)
    decreases |todo|
  {
    hide Inv, Known, Continues, Undisturbed, AfterFirst, ChosenFor, Separate, Live;
    if todo != [] {
      var u := AfterFirst(s, kind, todo[0], candidates, now, cap);
      FetchStep(s, kind, todo, candidates, now, cap);
      KnownAfter(s, u, todo);
      FirstKeepsInv(s, kind, todo[0], candidates, now, cap, rules);
      FetchPassKeepsInv(u, kind, todo[1..], candidates, now, cap, rules);
    }
  }

  lemma FirstApartExactly(s: Store, kind: Kind, t: Trigger, candidates: seq<Candidate>, now: int, cap: int)
    requires Inv(s, now, cap, Rules(false, true)) && kind in {ErrorSpike, Advisor}
    requires Stored(s.triggers, t.id).Some? && Stored(s.triggers, t.id).value.kind == t.kind
    requires t.enabled && t.kind == kind
    ensures AllApart(AfterFirst(s, kind, t, candidates, now, cap))
       <==> Separate(Live(s.triggers, t), ChosenFor(s, kind, t, candidates, now, cap))
  {
    hide Tallied, AllApart, HitPass, Hits, Live, Chosen, AllClear, Separate;
    LiveIsStored(s.triggers, t);
    StoredHasId(s.triggers, t.id);
    ChosenAreClear(s, kind, Live(s.triggers, t), candidates, now, cap);
    HitPassApartExactly(s, t.id, Hits(kind, Live(s.triggers, t), candidates, now), now, cap);
  }

  /** A fetch pass keeps all fires apart exactly when, for each trigger in turn, the hits it fires have
      different fingerprints, or the trigger has no cooldown. */
  lemma {:induction false} FetchPassApartExactly(s: Store, kind: Kind, todo: seq<Trigger>, candidates: seq<Candidate>,
                                                 now: int, cap: int)
    requires Inv(s, now, cap, Rules(false, true)) && Known(s.triggers, todo) && kind in {ErrorSpike, Advisor}
    ensures AllApart(FetchPass(s, kind, todo, candidates, now, cap))
       <==> FetchSeparate(s, kind, todo, candidates, now, cap)
    decreases |todo|
  {
    if todo == [] {
      InvIsApart(s, now, cap);
    } else {
      hide Inv, Known, Continues, AfterFirst, ChosenFor, Separate, Live, AllApart;
      var u := AfterFirst(s, kind, todo[0], candidates, now, cap);
      FetchStep(s, kind, todo, candidates, now, cap);
      KnownAfter(s, u, todo);
      if todo[0].enabled && todo[0].kind == kind { FirstApartExactly(s, kind, todo[0], candidates, now, cap); }
      var separate := Separate(Live(s.triggers, todo[0]), ChosenFor(s, kind, todo[0], candidates, now, cap));
      if todo[0].enabled && todo[0].kind == kind && !separate {
        FetchPassContinues(u, kind, todo[1..], candidates, now, cap);
        if AllApart(FetchPass(s, kind, todo, candidates, now, cap)) {
          ApartBefore(u, FetchPass(u, kind, todo[1..], candidates, now, cap));
        }
      } else {
        FirstKeepsInv(s, kind, todo[0], candidates, now, cap, Rules(false, true));
        FetchPassApartExactly(u, kind, todo[1..], candidates, now, cap);
      }
    }
  }

  /** A fetch without a repeated fingerprint meets the condition. */
  lemma {:induction false} DistinctFetchIsSeparate(s: Store, kind: Kind, todo: seq<Trigger>, candidates: seq<Candidate>,
                                                   now: int, cap: int)
    requires DistinctPrints(candidates)
    ensures FetchSeparate(s, kind, todo, candidates, now, cap)
    decreases |todo|
  {
    hide DistinctPrints, Chosen, SpikeHits, AdvisorHits, AfterFirst;
    if todo != [] {
      var live := Live(s.triggers, todo[0]);
      SpikesAreCool(live, candidates, now);
      ProposalsAreCool(live, candidates, now, live.config.maxPerTick);
      ChosenArePicked(s, todo[0].id, Hits(kind, live, candidates, now), now, cap);
      var next := AfterFirst(s, kind, todo[0], candidates, now, cap);
      DistinctFetchIsSeparate(next, kind, todo[1..], candidates, now, cap);
    }
  }

  // ---- webhooks --------------------------------------------------------------------------

  lemma {:induction false} FindHasId(triggers: seq<Trigger>, id: Id)
    ensures Find(triggers, id).Some? ==> exists k :: 0 <= k < |triggers| && triggers[k].id == id
  {
    if triggers != [] && triggers[0].id != id {
      FindHasId(triggers[1..], id);
      if Find(triggers[1..], id).Some? {
        var k :| 0 <= k < |triggers[1..]| && triggers[1..][k].id == id;
        assert triggers[k + 1].id == id;
      }
    }
  }

  lemma {:induction false} WebhookIsStored(triggers: seq<Trigger>, id: Id)
    requires DistinctIds(triggers) && Find(triggers, id).Some?
    ensures Stored(triggers, id) == Find(triggers, id) && Find(triggers, id).value.kind == Webhook
  {
    if triggers[0].id == id {
      if triggers[0].kind != Webhook { FindHasId(triggers[1..], id); }
    } else {
      TailDistinct(triggers);
      WebhookIsStored(triggers[1..], id);
    }
  }

  /** A webhook call, at any time, keeps the laws of the run. */
  lemma HookKeepsInv(s: Store, clock: int, id: Id, signed: bool, masterOn: bool, now: int, cap: int, rules: Rules)
    requires Inv(s, clock, cap, rules) && (rules.capped ==> Undisturbed(s.log, DayOf(now)))
    ensures Inv(WebhookCall(s, id, signed, masterOn, now, cap), clock, cap, rules)
  {
    hide ShareOk, Capped, Spaced, Undisturbed, DistinctIds, RateLimited;
    if WebhookReply(s, id, signed, masterOn, now, cap) == Accepted {
      WebhookIsStored(s.triggers, id);
      FireKeepsInv(s, id, clock, now, NONE, cap, rules);
    }
  }

  // ---- settings --------------------------------------------------------------------------

  predicate Unfired(t: Trigger) {
    t.lastFired == None && t.firesDay == None && t.firesToday == 0 && t.fired == map[]
  }

  /** `set_trigger_enabled`. */
  function Toggled(triggers: seq<Trigger>, id: Id, enabled: bool): seq<Trigger> {
    if triggers == [] then []
    else if triggers[0].id == id then [triggers[0].(enabled := enabled)] + triggers[1..]
    else [triggers[0]] + Toggled(triggers[1..], id, enabled)
  }

  lemma {:induction false} StoredAppend(triggers: seq<Trigger>, t: Trigger, x: Id)
    requires Stored(triggers, t.id) == None
    ensures Stored(triggers + [t], x) == if x == t.id then Some(t) else Stored(triggers, x)
    ensures forall k | 0 <= k < |triggers| :: triggers[k].id != t.id
  {
    if triggers == [] {
      assert triggers + [t] == [t];
    } else {
      assert (triggers + [t])[1..] == triggers[1..] + [t];
      StoredAppend(triggers[1..], t, x);
    }
  }

  lemma {:induction false} NoStreak(log: seq<Fire>, id: Id, day: int)
    requires forall k | 0 <= k < |log| :: log[k].id != id
    ensures Streak(log, id, day) == 0
  {
    if log != [] { NoStreak(log[..|log| - 1], id, day); }
  }

  lemma CreateKeepsTally(s: Store, t: Trigger)
    requires Tallied(s) && Stored(s.triggers, t.id) == None && Unfired(t)
    ensures Tallied(s.(triggers := s.triggers + [t]))
  {
    hide Streak, DayOf;
    var u := s.(triggers := s.triggers + [t]);
    StoredAppend(s.triggers, t, t.id);
    forall k | 0 <= k < |s.log| ensures s.log[k].id != t.id && Stored(u.triggers, s.log[k].id).Some? {
      StoredAppend(s.triggers, t, s.log[k].id);
    }
    forall k: nat, day: int ensures ShareOk(u, k, day) {
      assert ShareOk(s, k, day);
      NoStreak(s.log, t.id, day);
    }
  }

  /** The same records, up to the switch. */
  ghost predicate SameRecords(s: Store, u: Store) {
    s.log == u.log && forall id :: SameRecord(s, u, id)
  }

  ghost predicate SameRecord(s: Store, u: Store, id: Id) {
    Stored(s.triggers, id).Some? ==>
      && Stored(u.triggers, id).Some?
      && Stored(u.triggers, id).value == Stored(s.triggers, id).value.(enabled := Stored(u.triggers, id).value.enabled)
  }

  lemma RecordsKeepSpaced(s: Store, u: Store, clock: int)
    requires Spaced(s, clock) && SameRecords(s, u)
    requires forall k | 0 <= k < |s.log| :: Stored(s.triggers, s.log[k].id).Some?
    requires forall id | Stored(s.triggers, id) == None && Stored(u.triggers, id).Some? ::
               Unfired(Stored(u.triggers, id).value)
    ensures Spaced(u, clock)
  {
    hide DayOf, Target, SameRecords;
    assert s.log == u.log && forall id :: SameRecord(s, u, id) by { SameRecordsMeans(s, u); }
    forall k: nat ensures EntryOk(u, clock, k) {
      assert EntryOk(s, clock, k);
      if k < |s.log| { assert SameRecord(s, u, s.log[k].id); }
    }
    forall a: nat, b: nat ensures PairOk(u, a, b) {
      assert PairOk(s, a, b);
      if a < |s.log| { assert SameRecord(s, u, s.log[a].id); }
    }
    forall id, fp ensures RecordOk(u, id, fp) {
      assert RecordOk(s, id, fp) && SameRecord(s, u, id);
    }
  }

  lemma SameRecordsMeans(s: Store, u: Store)
    requires SameRecords(s, u)
    ensures s.log == u.log && forall id :: SameRecord(s, u, id)
  {
  }

  lemma CreateKeepsInv(s: Store, t: Trigger, clock: int, cap: int, rules: Rules)
    requires Inv(s, clock, cap, rules) && Stored(s.triggers, t.id) == None && Unfired(t)
    ensures Inv(s.(triggers := s.triggers + [t]), clock, cap, rules)
  {
    var u := s.(triggers := s.triggers + [t]);
    hide ShareOk, DistinctIds, CapOk, EntryOk, PairOk, RecordOk, Unfired;
    CreateKeepsTally(s, t);
    forall id ensures SameRecord(s, u, id) { StoredAppend(s.triggers, t, id); }
    forall id | Stored(s.triggers, id) == None && Stored(u.triggers, id).Some?
      ensures Unfired(Stored(u.triggers, id).value)
    {
      StoredAppend(s.triggers, t, id);
    }
    if rules.capped { CapIsOfLog(s, u, cap); }
    if rules.spaced { RecordsKeepSpaced(s, u, clock); }
  }

  lemma CapIsOfLog(s: Store, u: Store, cap: int)
    requires s.log == u.log && Capped(s, cap)
    ensures Capped(u, cap)
  {
    forall day: int ensures CapOk(u, cap, day) { assert CapOk(s, cap, day); }
  }

  lemma {:induction false} ToggledIs(triggers: seq<Trigger>, id: Id, enabled: bool, x: Id)
    ensures var u := Toggled(triggers, id, enabled);
            && |u| == |triggers|
            && (forall k | 0 <= k < |triggers| :: u[k] == triggers[k].(enabled := u[k].enabled))
            && (Stored(triggers, x) == None <==> Stored(u, x) == None)
            && (Stored(triggers, x).Some? ==>
                  Stored(u, x).value == Stored(triggers, x).value.(enabled := Stored(u, x).value.enabled))
  {
    if triggers != [] && triggers[0].id != id { ToggledIs(triggers[1..], id, enabled, x); }
  }

  lemma ToggleKeepsInv(s: Store, id: Id, enabled: bool, clock: int, cap: int, rules: Rules)
    requires Inv(s, clock, cap, rules)
    ensures Inv(s.(triggers := Toggled(s.triggers, id, enabled)), clock, cap, rules)
  {
    var u := s.(triggers := Toggled(s.triggers, id, enabled));
    hide CapOk, EntryOk, PairOk, RecordOk, Unfired, Toggled, Streak;
    ToggledIs(s.triggers, id, enabled, id);
    forall x ensures SameRecord(s, u, x) && (Stored(s.triggers, x) == None ==> Stored(u.triggers, x) == None) {
      ToggledIs(s.triggers, id, enabled, x);
    }
    forall k: nat, day: int ensures ShareOk(u, k, day) { assert ShareOk(s, k, day); }
    if rules.capped { CapIsOfLog(s, u, cap); }
    if rules.spaced { RecordsKeepSpaced(s, u, clock); }
  }

  // ---- runs ------------------------------------------------------------------------------

  /** The store, the time of the last tick, and that of the last tick or webhook call. */
  datatype World = World(store: Store, clock: int, latest: int)

  datatype Step =
    | Create(t: Trigger)
    | Toggle(id: Id, enabled: bool)
    | Schedules(now: int)
    | Fetched(kind: Kind, todo: seq<Trigger>, candidates: seq<Candidate>, now: int)
    | Hook(id: Id, signed: bool, masterOn: bool, now: int)

  function TimeOf(step: Step): Option<int> {
    match step
    case Create(_) => None
    case Toggle(_, _) => None
    case Schedules(now) => Some(now)
    case Fetched(_, _, _, now) => Some(now)
    case Hook(_, _, _, now) => Some(now)
  }

  predicate IsTick(step: Step) {
    step.Schedules? || step.Fetched?
  }

  /** A new trigger has a new id and a fetch pass works on stored triggers. For the cap, no trigger that
      fired on the day of a pass or call has since fired on another day; for the distances, ticks come
      in the order of their times. */
  ghost predicate Enabled(w: World, step: Step, rules: Rules) {
    && (step.Create? ==> Stored(w.store.triggers, step.t.id) == None && Unfired(step.t))
    && (step.Fetched? ==> step.kind in {ErrorSpike, Advisor} && Known(w.store.triggers, step.todo))
    && (rules.capped && TimeOf(step).Some? ==> Undisturbed(w.store.log, DayOf(TimeOf(step).value)))
    && (rules.spaced && IsTick(step) ==> TimeOf(step).value >= w.clock)
  }

  function Next(w: World, step: Step, cap: int): World {
    var s := w.store;
    match step
    case Create(t) => w.(store := s.(triggers := s.triggers + [t]))
    case Toggle(id, enabled) => w.(store := s.(triggers := Toggled(s.triggers, id, enabled)))
    case Schedules(now) => World(SchedulePass(s, s.triggers, now, cap), now, now)
    case Fetched(kind, todo, candidates, now) => World(FetchPass(s, kind, todo, candidates, now, cap), now, now)
    case Hook(id, signed, masterOn, now) =>
      World(WebhookCall(s, id, signed, masterOn, now, cap), w.clock, now)
  }

  ghost predicate StepSeparate(w: World, step: Step, cap: int) {
    step.Fetched? ==> FetchSeparate(w.store, step.kind, step.todo, step.candidates, step.now, cap)
  }

  lemma StepKeepsInv(w: World, step: Step, cap: int, rules: Rules)
    requires Inv(w.store, w.clock, cap, rules) && Enabled(w, step, rules)
    requires rules.spaced ==> StepSeparate(w, step, cap)
    ensures Inv(Next(w, step, cap).store, Next(w, step, cap).clock, cap, rules)
  {
    hide ShareOk, Capped, Spaced, Undisturbed, DistinctIds, Snapshot, FetchSeparate;
    match step
    case Create(t) => CreateKeepsInv(w.store, t, w.clock, cap, rules);
    case Toggle(id, enabled) => ToggleKeepsInv(w.store, id, enabled, w.clock, cap, rules);
    case Schedules(now) =>
      LaterKeepsInv(w.store, w.clock, now, cap, rules);
      SnapshotOfAll(w.store.triggers);
      SchedulePassKeepsInv(w.store, w.store.triggers, now, cap, rules);
    case Fetched(kind, todo, candidates, now) =>
      LaterKeepsInv(w.store, w.clock, now, cap, rules);
      FetchPassKeepsInv(w.store, kind, todo, candidates, now, cap, rules);
    case Hook(id, signed, masterOn, now) => HookKeepsInv(w.store, w.clock, id, signed, masterOn, now, cap, rules);
  }

  lemma StepContinues(w: World, step: Step, cap: int)
    requires Enabled(w, step, Rules(false, false))
    ensures Continues(w.store, Next(w, step, cap).store)
    ensures TimeOf(step).Some? ==> Stamped(w.store, Next(w, step, cap).store, TimeOf(step).value)
    ensures TimeOf(step) == None ==> Next(w, step, cap).store.log == w.store.log
  {
    hide SchedulePass, FetchPass, FiredOnce, Unfired, WebhookReply;
    var s := w.store;
    match step
    case Create(t) =>
      forall id ensures SameTrigger(s.triggers, s.triggers + [t], id) { StoredAppend(s.triggers, t, id); }
    case Toggle(x, enabled) =>
      forall id ensures SameTrigger(s.triggers, Toggled(s.triggers, x, enabled), id) {
        ToggledIs(s.triggers, x, enabled, id);
      }
    case Schedules(now) => SchedulePassContinues(s, s.triggers, now, cap);
    case Fetched(kind, todo, candidates, now) => FetchPassContinues(s, kind, todo, candidates, now, cap);
    case Hook(id, _, _, now) =>
      Stays(s, now);
      FireContinues(s, id, now, NONE, false);
  }

  function Run(steps: seq<Step>, start: int, cap: int): World {
    if steps == [] then World(Store([], []), start, start)
    else Next(Run(steps[..|steps| - 1], start, cap), steps[|steps| - 1], cap)
  }

  ghost predicate Runnable(steps: seq<Step>, start: int, cap: int, rules: Rules) {
    steps == [] ||
    (Runnable(steps[..|steps| - 1], start, cap, rules)
     && Enabled(Run(steps[..|steps| - 1], start, cap), steps[|steps| - 1], rules))
  }

  /** Every fetch pass of the run meets its condition. */
  ghost predicate RunSeparate(steps: seq<Step>, start: int, cap: int) {
    steps == [] ||
    (RunSeparate(steps[..|steps| - 1], start, cap)
     && StepSeparate(Run(steps[..|steps| - 1], start, cap), steps[|steps| - 1], cap))
  }

  lemma EmptyIsInv(start: int, cap: int, rules: Rules)
    ensures Inv(Store([], []), start, cap, rules)
  {
  }

  lemma {:induction false} RunKeepsInv(steps: seq<Step>, start: int, cap: int, rules: Rules)
    requires Runnable(steps, start, cap, rules) && (rules.spaced ==> RunSeparate(steps, start, cap))
    ensures Inv(Run(steps, start, cap).store, Run(steps, start, cap).clock, cap, rules)
  {
    hide Inv, Next, Enabled, StepSeparate;
    if steps == [] {
      EmptyIsInv(start, cap, rules);
    } else {
      RunKeepsInv(steps[..|steps| - 1], start, cap, rules);
      StepKeepsInv(Run(steps[..|steps| - 1], start, cap), steps[|steps| - 1], cap, rules);
    }
  }

  // ---- the daily cap ---------------------------------------------------------------------

  /** In every run, whatever the order of its times: the counters the gate adds up never tell more than
      the fires of a day, and tell them all exactly when no trigger that fired on the day has since
      fired on another. */
  lemma CountersTellTheDay(steps: seq<Step>, start: int, cap: int, day: int)
    requires Runnable(steps, start, cap, Rules(false, false))
    ensures var s := Run(steps, start, cap).store;
            && FiresOn(s.triggers, day) <= CountDay(s.log, day)
            && (FiresOn(s.triggers, day) == CountDay(s.log, day) <==> Undisturbed(s.log, day))
  {
    hide Run, Runnable, Tallied, Undisturbed;
    RunKeepsInv(steps, start, cap, Rules(false, false));
    CountersTell(Run(steps, start, cap).store, day);
  }

  /** In a run whose passes and calls each find their day undisturbed, the fires of all triggers on a
      day never exceed the daily cap. */
  lemma UndisturbedRunKeepsCap(steps: seq<Step>, start: int, cap: int, day: int)
    requires Runnable(steps, start, cap, Rules(true, false))
    ensures CountDay(Run(steps, start, cap).store.log, day) <= if cap > 0 then cap else 0
  {
    hide Run, Runnable;
    RunKeepsInv(steps, start, cap, Rules(true, false));
    assert CapOk(Run(steps, start, cap).store, cap, day);
  }

  /** No pass or call is of an earlier day than one before it; within a day times may go back, as they
      do when a webhook overtakes the fetch of a tick. */
  ghost predicate InDayOrder(steps: seq<Step>, start: int, cap: int) {
    steps == [] ||
    (InDayOrder(steps[..|steps| - 1], start, cap)
     && (TimeOf(steps[|steps| - 1]).Some? ==>
           DayOf(TimeOf(steps[|steps| - 1]).value) >= DayOf(Run(steps[..|steps| - 1], start, cap).latest)))
  }

  ghost predicate DaysOk(log: seq<Fire>, latest: int, a: nat, b: nat) {
    && (a < |log| ==> DayOf(log[a].at) <= DayOf(latest))
    && (a < b < |log| ==> DayOf(log[a].at) <= DayOf(log[b].at))
  }

  ghost predicate ByDay(log: seq<Fire>, latest: int) {
    forall a: nat, b: nat :: DaysOk(log, latest, a, b)
  }

  lemma ByDayOn(s: Store, u: Store, latest: int, now: int)
    requires ByDay(s.log, latest) && DayOf(now) >= DayOf(latest) && Continues(s, u) && Stamped(s, u, now)
    ensures ByDay(u.log, now)
  {
    hide DayOf;
    forall k | 0 <= k < |s.log| ensures u.log[k] == s.log[k] { assert u.log[k] == u.log[..|s.log|][k]; }
    forall a: nat, b: nat ensures DaysOk(u.log, now, a, b) { assert DaysOk(s.log, latest, a, b); }
  }

  lemma ByDayIsUndisturbed(log: seq<Fire>, latest: int, day: int)
    requires ByDay(log, latest) && day >= DayOf(latest)
    ensures Undisturbed(log, day)
  {
    hide DayOf;
    forall a: nat, b: nat ensures StampKept(log, day, a, b) {
      assert DaysOk(log, latest, a, b) && DaysOk(log, latest, b, b);
    }
  }

  lemma {:induction false} DayOrderUndisturbed(steps: seq<Step>, start: int, cap: int)
    requires Runnable(steps, start, cap, Rules(false, false)) && InDayOrder(steps, start, cap)
    ensures Runnable(steps, start, cap, Rules(true, false))
    ensures ByDay(Run(steps, start, cap).store.log, Run(steps, start, cap).latest)
  {
    hide DayOf, Continues, Stamped, Undisturbed;
    if steps != [] {
      var init, last := steps[..|steps| - 1], steps[|steps| - 1];
      var w := Run(init, start, cap);
      DayOrderUndisturbed(init, start, cap);
      StepContinues(w, last, cap);
      if TimeOf(last).Some? {
        ByDayIsUndisturbed(w.store.log, w.latest, DayOf(TimeOf(last).value));
        ByDayOn(w.store, Next(w, last, cap).store, w.latest, TimeOf(last).value);
      }
    }
  }

  /** Over any run in the order of its days, the fires of all triggers on one day never exceed the cap. */
  lemma DailyCapHolds(steps: seq<Step>, start: int, cap: int, day: int)
    requires Runnable(steps, start, cap, Rules(false, false)) && InDayOrder(steps, start, cap)
    ensures CountDay(Run(steps, start, cap).store.log, day) <= if cap > 0 then cap else 0
  {
    hide Run, Runnable;
    DayOrderUndisturbed(steps, start, cap);
    UndisturbedRunKeepsCap(steps, start, cap, day);
  }

  // ---- the distances ---------------------------------------------------------------------

  lemma StepApartExactly(w: World, step: Step, cap: int)
    requires Inv(w.store, w.clock, cap, Rules(false, true)) && Enabled(w, step, Rules(false, true))
    ensures AllApart(Next(w, step, cap).store) <==> StepSeparate(w, step, cap)
  {
    hide Inv, AllApart, FetchSeparate, Known;
    if step.Fetched? {
      LaterKeepsInv(w.store, w.clock, step.now, cap, Rules(false, true));
      FetchPassApartExactly(w.store, step.kind, step.todo, step.candidates, step.now, cap);
    } else {
      StepKeepsInv(w, step, cap, Rules(false, true));
      InvIsApart(Next(w, step, cap).store, Next(w, step, cap).clock, cap);
    }
  }

  lemma EnabledAnyway(w: World, step: Step, rules: Rules)
    requires Enabled(w, step, rules)
    ensures Enabled(w, step, Rules(false, false))
  {
  }

  /** Over any run whose ticks come in order, with webhook calls at any time in between: all fires are
      apart exactly when in every fetch pass the hits that a trigger fires have different fingerprints,
      or it has no cooldown. */
  lemma {:induction false} FiresAreApartExactly(steps: seq<Step>, start: int, cap: int)
    requires Runnable(steps, start, cap, Rules(false, true))
    ensures AllApart(Run(steps, start, cap).store) <==> RunSeparate(steps, start, cap)
  {
    if steps != [] {
      hide AllApart, Next, Enabled, StepSeparate, Inv, Continues;
      var init, last := steps[..|steps| - 1], steps[|steps| - 1];
      var w := Run(init, start, cap);
      FiresAreApartExactly(init, start, cap);
      if RunSeparate(init, start, cap) {
        RunKeepsInv(init, start, cap, Rules(false, true));
        StepApartExactly(w, last, cap);
      } else {
        EnabledAnyway(w, last, Rules(false, true));
        StepContinues(w, last, cap);
        if AllApart(Next(w, last, cap).store) { ApartBefore(w.store, Next(w, last, cap).store); }
      }
    }
  }

  /** A run none of whose fetches repeats a fingerprint meets the condition. */
  lemma {:induction false} DistinctRunIsSeparate(steps: seq<Step>, start: int, cap: int)
    requires forall k | 0 <= k < |steps| && steps[k].Fetched? :: DistinctPrints(steps[k].candidates)
    ensures RunSeparate(steps, start, cap)
  {
    hide Run, FetchSeparate, DistinctPrints;
    if steps != [] {
      var init, last := steps[..|steps| - 1], steps[|steps| - 1];
      DistinctRunIsSeparate(init, start, cap);
      if last.Fetched? {
        DistinctFetchIsSeparate(Run(init, start, cap).store, last.kind, last.todo, last.candidates, last.now, cap);
      }
    }
  }

  /** What apart means: two fires of one trigger are at least its interval apart, on different days when
      it is a daily one, and at least the cooldown apart when they are for one fingerprint. */
  lemma FiresAreApart(steps: seq<Step>, start: int, cap: int, a: nat, b: nat)
    requires Runnable(steps, start, cap, Rules(false, true)) && RunSeparate(steps, start, cap)
    requires var log := Run(steps, start, cap).store.log; a < b < |log| && log[a].id == log[b].id
    ensures var s := Run(steps, start, cap).store; var stored := Stored(s.triggers, s.log[a].id);
            && stored.Some?
            && (stored.value.kind == Schedule && stored.value.config.interval != 0 ==>
                  s.log[b].at - s.log[a].at >= stored.value.config.interval)
            && (IsDaily(stored.value) ==> DayOf(s.log[a].at) != DayOf(s.log[b].at))
            && (s.log[a].fp != NONE && s.log[a].fp == s.log[b].fp ==>
                  s.log[b].at - s.log[a].at >= Cooldown(stored.value))
  {
    hide Run, Runnable, RunSeparate;
    RunKeepsInv(steps, start, cap, Rules(false, true));
    assert PairOk(Run(steps, start, cap).store, a, b);
  }

  /** The record a trigger keeps, with old fingerprints forgotten, decides exactly as its whole history
      would. */
  lemma ForgettingIsHarmless(s: Store, clock: int, cap: int, t: Trigger, fp: Fingerprint, now: int)
    requires Inv(s, clock, cap, Rules(false, true)) && now >= clock
    requires Stored(s.triggers, t.id) == Some(t) && t.kind != Webhook && fp != NONE
    ensures CooledDown(t, fp, now) <==> Clear(s, t, fp, now)
  {
    hide Tallied;
    LaterKeepsInv(s, clock, now, cap, Rules(false, true));
    if CooledDown(t, fp, now) {
      CoolIsClear(s, t, fp, now);
    } else {
      assert RecordOk(s, t.id, fp);
      var k :| 0 <= k < |s.log| && s.log[k] == Fire(t.id, t.fired[fp], fp);
      assert now - s.log[k].at < Cooldown(t);
    }
  }
}
