/** Exactly when the daily cap holds: pass by pass, and over whole runs in any order of their times. */
module TriggerCap {
  import opened Wrappers
  import opened Triggers
  import opened TriggerTally
  import opened TriggerLaws
  import opened TriggerRuns

  // ---- one pass --------------------------------------------------------------------------

  function Least(a: nat, b: nat): nat {
    if a < b then a else b
  }

  /** The day has room for this many more fires, or no trigger that fired on it has since fired on
      another day. */
  ghost predicate Fits(s: Store, now: int, cap: int, wanted: nat) {
    Undisturbed(s.log, DayOf(now)) || CountDay(s.log, DayOf(now)) + wanted <= cap
  }

  /** Something that wants to fire a number of times, and does as far as the counters leave room, keeps
      the cap of its day exactly when that number fits. */
  lemma PassCapExactly(s: Store, u: Store, now: int, cap: int, wanted: nat)
    requires Tallied(s) && CapOk(s, cap, DayOf(now))
    requires CountDay(u.log, DayOf(now)) == CountDay(s.log, DayOf(now)) + Least(wanted, Room(s, now, cap))
    ensures CapOk(u, cap, DayOf(now)) <==> Fits(s, now, cap, wanted)
  {
    hide Tallied, Undisturbed, CountDay, FiresOn, DayOf;
    CountersTell(s, DayOf(now));
  }

  lemma {:induction false} CountFiresFor(log: seq<Fire>, id: Id, now: int, hits: seq<Candidate>, day: int)
    ensures CountDay(log + FiresFor(id, now, hits), day)
         == CountDay(log, day) + if DayOf(now) == day then |hits| else 0
    decreases |hits|
  {
    hide DayOf, CountDay;
    if hits == [] {
      assert log + [] == log;
    } else {
      var f := Fire(id, now, hits[0].fp);
      LogSnoc(log, f, id, day);
      CountFiresFor(log + [f], id, now, hits[1..], day);
      assert log + ([f] + FiresFor(id, now, hits[1..])) == log + [f] + FiresFor(id, now, hits[1..]);
    }
  }

  /** A hit pass that begins within the cap of its day keeps it exactly when all its hits that are not in
      flight fit. */
  lemma HitPassCapExactly(s: Store, id: Id, hits: seq<Candidate>, now: int, cap: int)
    requires Tallied(s) && Stored(s.triggers, id).Some? && CapOk(s, cap, DayOf(now))
    ensures CapOk(HitPass(s, id, hits, now, cap), cap, DayOf(now)) <==> Fits(s, now, cap, |Admitted(hits, id)|)
  {
    hide Tallied, Fits, CapOk, HitPass, Admitted, CountDay, Room, FiresFor, DayOf;
    HitPassFires(s, id, hits, now, cap);
    CountFiresFor(s.log, id, now, Chosen(s, id, hits, now, cap), DayOf(now));
    PassCapExactly(s, HitPass(s, id, hits, now, cap), now, cap, |Admitted(hits, id)|);
  }

  function DueCount(todo: seq<Trigger>, now: int): nat {
    if todo == [] then 0
    else DueCount(todo[1..], now)
         + if todo[0].enabled && todo[0].kind == Schedule && ScheduleDue(todo[0], now) then 1 else 0
  }

  lemma RoomAfter(s: Store, id: Id, now: int, cap: int)
    requires Stored(s.triggers, id).Some? && !RateLimited(s, now, cap)
    ensures Room(s, now, cap) == Room(FiredOnce(s, id, now, NONE, false), now, cap) + 1
    ensures CountDay(FiredOnce(s, id, now, NONE, false).log, DayOf(now)) == CountDay(s.log, DayOf(now)) + 1
  {
    hide Updated, FiresOn, CountDay, DayOf;
    FiresAfter(s.triggers, id, now, NONE);
    LogSnoc(s.log, Fire(id, now, NONE), id, DayOf(now));
  }

  /** The schedule pass fires the triggers that are due, as far as the day has room. */
  lemma {:induction false} SchedulePassCounts(s: Store, todo: seq<Trigger>, now: int, cap: int)
    requires Snapshot(s.triggers, todo)
    ensures CountDay(SchedulePass(s, todo, now, cap).log, DayOf(now))
         == CountDay(s.log, DayOf(now)) + Least(DueCount(todo, now), Room(s, now, cap))
    decreases |todo|
  {
    hide ScheduleDue, Snapshot, Updated, DayOf, CountDay, FiresOn;
    if todo != [] {
      SnapshotAfter(s.triggers, todo, now, NONE);
      SchedulePassCounts(s, todo[1..], now, cap);
      if todo[0].enabled && todo[0].kind == Schedule && ScheduleDue(todo[0], now) && !RateLimited(s, now, cap) {
        RoomAfter(s, todo[0].id, now, cap);
        SchedulePassCounts(FiredOnce(s, todo[0].id, now, NONE, false), todo[1..], now, cap);
      }
    }
  }

  // ---- the history grows -----------------------------------------------------------------

  lemma {:induction false} CountGrows(a: seq<Fire>, b: seq<Fire>, day: int)
    ensures CountDay(a, day) <= CountDay(a + b, day)
    ensures (forall k | 0 <= k < |b| :: DayOf(b[k].at) != day) ==> CountDay(a + b, day) == CountDay(a, day)
  {
    hide DayOf;
    if b == [] {
      assert a + b == a;
    } else {
      assert (a + b)[..|a + b| - 1] == a + b[..|b| - 1];
      CountGrows(a, b[..|b| - 1], day);
    }
  }

  /** What exceeds the cap does so for good. */
  lemma CapOkBefore(s: Store, u: Store, cap: int, day: int)
    requires Continues(s, u) && CapOk(u, cap, day)
    ensures CapOk(s, cap, day)
  {
    hide CountDay, SameTrigger;
    assert u.log == s.log + u.log[|s.log|..];
    CountGrows(s.log, u.log[|s.log|..], day);
  }

  /** A pass only counts for its own day. */
  lemma OtherDays(s: Store, u: Store, now: int, cap: int, day: int)
    requires Continues(s, u) && Stamped(s, u, now) && day != DayOf(now)
    ensures CapOk(u, cap, day) <==> CapOk(s, cap, day)
  {
    hide CountDay, SameTrigger, DayOf;
    var more := u.log[|s.log|..];
    assert u.log == s.log + more;
    forall k | 0 <= k < |more| ensures DayOf(more[k].at) != day { assert more[k] == u.log[|s.log| + k]; }
    CountGrows(s.log, more, day);
  }

  lemma CappedExactly(s: Store, u: Store, now: int, cap: int)
    requires Capped(s, cap) && Continues(s, u) && Stamped(s, u, now)
    ensures Capped(u, cap) <==> CapOk(u, cap, DayOf(now))
  {
    hide CapOk, DayOf, Continues, Stamped;
    forall day: int | day != DayOf(now) ensures CapOk(u, cap, day) {
      assert CapOk(s, cap, day);
      OtherDays(s, u, now, cap, day);
    }
  }

  // ---- a fetch pass ----------------------------------------------------------------------

  function Wanted(s: Store, kind: Kind, t: Trigger, candidates: seq<Candidate>, now: int): nat {
    |Admitted(Hits(kind, Live(s.triggers, t), candidates, now), t.id)|
  }

  /** For each trigger in turn, its hits that are not in flight fit. */
  ghost predicate FetchFits(s: Store, kind: Kind, todo: seq<Trigger>, candidates: seq<Candidate>, now: int, cap: int)
    decreases |todo|
  {
    todo == [] ||
    ((todo[0].enabled && todo[0].kind == kind ==>
        Fits(s, now, cap, Wanted(s, kind, todo[0], candidates, now)))
     && FetchFits(AfterFirst(s, kind, todo[0], candidates, now, cap), kind, todo[1..], candidates, now, cap))
  }

  lemma FirstCapExactly(s: Store, kind: Kind, t: Trigger, candidates: seq<Candidate>, now: int, cap: int)
    requires Tallied(s) && Stored(s.triggers, t.id).Some? && CapOk(s, cap, DayOf(now))
    ensures CapOk(AfterFirst(s, kind, t, candidates, now, cap), cap, DayOf(now))
       <==> (t.enabled && t.kind == kind ==> Fits(s, now, cap, Wanted(s, kind, t, candidates, now)))
  {
    hide Tallied, Fits, CapOk, HitPass, Admitted, Hits, Live, DayOf;
    HitPassCapExactly(s, t.id, Hits(kind, Live(s.triggers, t), candidates, now), now, cap);
  }

  /** A fetch pass that begins within the cap of its day keeps it exactly when, trigger by trigger, the
      hits that are not in flight fit. */
  lemma {:induction false} FetchPassCapExactly(s: Store, kind: Kind, todo: seq<Trigger>, candidates: seq<Candidate>,
                                               now: int, cap: int)
    requires Inv(s, now, cap, Rules(false, false)) && Known(s.triggers, todo) && kind in {ErrorSpike, Advisor}
    requires CapOk(s, cap, DayOf(now))
    ensures CapOk(FetchPass(s, kind, todo, candidates, now, cap), cap, DayOf(now))
       <==> FetchFits(s, kind, todo, candidates, now, cap)
    decreases |todo|
  {
    if todo != [] {
      hide Tallied, Known, Continues, AfterFirst, Wanted, Fits, Live, CapOk, DayOf;
      var u := AfterFirst(s, kind, todo[0], candidates, now, cap);
      FetchStep(s, kind, todo, candidates, now, cap);
      KnownAfter(s, u, todo);
      FirstCapExactly(s, kind, todo[0], candidates, now, cap);
      FirstKeepsInv(s, kind, todo[0], candidates, now, cap, Rules(false, false));
      if CapOk(u, cap, DayOf(now)) {
        FetchPassCapExactly(u, kind, todo[1..], candidates, now, cap);
      } else {
        FetchPassContinues(u, kind, todo[1..], candidates, now, cap);
        if CapOk(FetchPass(u, kind, todo[1..], candidates, now, cap), cap, DayOf(now)) {
          CapOkBefore(u, FetchPass(u, kind, todo[1..], candidates, now, cap), cap, DayOf(now));
        }
      }
    }
  }

  // ---- runs ------------------------------------------------------------------------------

  /** What the step wants to fire fits: the due triggers of a schedule pass, trigger by trigger the hits
      of a fetch pass, and the one fire of an accepted webhook call. */
  ghost predicate StepFits(w: World, step: Step, cap: int) {
    match step
    case Create(_) => true
    case Toggle(_, _) => true
    case Schedules(now) => Fits(w.store, now, cap, DueCount(w.store.triggers, now))
    case Fetched(kind, todo, candidates, now) => FetchFits(w.store, kind, todo, candidates, now, cap)
    case Hook(id, signed, masterOn, now) =>
      WebhookReply(w.store, id, signed, masterOn, now, cap) == Accepted ==> Fits(w.store, now, cap, 1)
  }

  lemma HookCapExactly(s: Store, id: Id, signed: bool, masterOn: bool, now: int, cap: int)
    requires Tallied(s) && CapOk(s, cap, DayOf(now))
    ensures CapOk(WebhookCall(s, id, signed, masterOn, now, cap), cap, DayOf(now))
       <==> (WebhookReply(s, id, signed, masterOn, now, cap) == Accepted ==> Fits(s, now, cap, 1))
  {
    hide ShareOk, DistinctIds, Fits, CapOk, CountDay, DayOf;
    if WebhookReply(s, id, signed, masterOn, now, cap) == Accepted {
      WebhookIsStored(s.triggers, id);
      RoomAfter(s, id, now, cap);
      PassCapExactly(s, FiredOnce(s, id, now, NONE, false), now, cap, 1);
    }
  }

  lemma StepCapOk(w: World, step: Step, cap: int)
    requires Tallied(w.store) && Capped(w.store, cap) && Enabled(w, step, Rules(false, false))
    requires TimeOf(step).Some?
    ensures CapOk(Next(w, step, cap).store, cap, DayOf(TimeOf(step).value)) <==> StepFits(w, step, cap)
  {
    hide ShareOk, Fits, FetchFits, CapOk, CountDay, DayOf, FetchPass, SchedulePass, WebhookCall, DueCount, Room,
         Snapshot, Known;
    assert CapOk(w.store, cap, DayOf(TimeOf(step).value));
    match step
    case Schedules(now) =>
      SnapshotOfAll(w.store.triggers);
      SchedulePassCounts(w.store, w.store.triggers, now, cap);
      PassCapExactly(w.store, SchedulePass(w.store, w.store.triggers, now, cap), now, cap,
                     DueCount(w.store.triggers, now));
    case Fetched(kind, todo, candidates, now) =>
      FetchPassCapExactly(w.store, kind, todo, candidates, now, cap);
    case Hook(id, signed, masterOn, now) => HookCapExactly(w.store, id, signed, masterOn, now, cap);
  }

  lemma StepCapExactly(w: World, step: Step, cap: int)
    requires Tallied(w.store) && Capped(w.store, cap) && Enabled(w, step, Rules(false, false))
    ensures Capped(Next(w, step, cap).store, cap) <==> StepFits(w, step, cap)
  {
    hide Tallied, Capped, Continues, Stamped, Next, Enabled;
    StepContinues(w, step, cap);
    if TimeOf(step).Some? {
      StepCapOk(w, step, cap);
      CappedExactly(w.store, Next(w, step, cap).store, TimeOf(step).value, cap);
    } else {
      CapIsOfLog(w.store, Next(w, step, cap).store, cap);
    }
  }

  /** Every step of the run fits. */
  ghost predicate RunFits(steps: seq<Step>, start: int, cap: int) {
    steps == [] ||
    (RunFits(steps[..|steps| - 1], start, cap)
     && StepFits(Run(steps[..|steps| - 1], start, cap), steps[|steps| - 1], cap))
  }

  lemma CappedBefore(s: Store, u: Store, cap: int)
    requires Continues(s, u) && Capped(u, cap)
    ensures Capped(s, cap)
  {
    hide Continues, CapOk;
    forall day: int ensures CapOk(s, cap, day) {
      assert CapOk(u, cap, day);
      CapOkBefore(s, u, cap, day);
    }
  }

  /** Over every run, in any order of its times: no day ever has more fires than the cap, exactly when at
      each step what it wants to fire fits the cap of its day, or no trigger that fired on that day has
      since fired on another. */
  lemma {:induction false} DailyCapHoldsExactly(steps: seq<Step>, start: int, cap: int)
    requires Runnable(steps, start, cap, Rules(false, false))
    ensures Capped(Run(steps, start, cap).store, cap) <==> RunFits(steps, start, cap)
  {
    if steps != [] {
      hide Capped, Tallied, Next, Enabled, StepFits, Continues;
      var init, last := steps[..|steps| - 1], steps[|steps| - 1];
      var w := Run(init, start, cap);
      DailyCapHoldsExactly(init, start, cap);
      RunKeepsInv(init, start, cap, Rules(false, false));
      if RunFits(init, start, cap) {
        StepCapExactly(w, last, cap);
      } else {
        StepContinues(w, last, cap);
        if Capped(Next(w, last, cap).store, cap) { CappedBefore(w.store, Next(w, last, cap).store, cap); }
      }
    }
  }
}
