/** Autonomous triggers: when one fires, what a fire records, and the passes that fire them.
    Times are whole seconds. */
module Triggers {
  import opened Wrappers

  datatype Id = Id(text: string)
  datatype Fingerprint = Fingerprint(text: string)
  datatype Kind = Schedule | Webhook | ErrorSpike | Advisor

  /** `interval` in seconds, zero when absent; `dailyAt` an hour and minute; an absent cooldown has a
      default by kind. */
  datatype Config = Config(interval: int, dailyAt: Option<(nat, nat)>, threshold: int, window: int,
                           tripOnNew: bool, cooldown: Option<int>, maxPerTick: int, once: bool)

  datatype Trigger = Trigger(id: Id, kind: Kind, enabled: bool, config: Config, lastFired: Option<int>,
                             firesDay: Option<int>, firesToday: nat, fired: map<Fingerprint, int>)

  /** One autonomous change put on the queue; the fingerprint is empty for schedules and webhooks. */
  datatype Fire = Fire(id: Id, at: int, fp: Fingerprint)

  /** The stored triggers, and the history of fires. */
  datatype Store = Store(triggers: seq<Trigger>, log: seq<Fire>)

  const DAY := 86400
  const NONE := Fingerprint("")

  /** The UTC day of a time. */
  function DayOf(now: int): int {
    now / DAY
  }

  /** Today's time for a daily trigger. */
  function Target(dailyAt: (nat, nat), now: int): int {
    DayOf(now) * DAY + (dailyAt.0 % 24) * 3600 + (dailyAt.1 % 60) * 60
  }

  /** `schedule_due`. */
  predicate ScheduleDue(t: Trigger, now: int) {
    if t.config.interval != 0 then t.lastFired.None? || now - t.lastFired.value >= t.config.interval
    else match t.config.dailyAt
      case None => false
      case Some(at) =>
        now >= Target(at, now) && (if t.lastFired.Some? then t.lastFired.value else 0) < Target(at, now)
  }

  function Cooldown(t: Trigger): int {
    match t.config.cooldown
    case Some(c) => c
    case None => if t.kind == Advisor then 720 * 3600 else 24 * 3600
  }

  /** The fingerprint did not fire within the cooldown. */
  predicate CooledDown(t: Trigger, fp: Fingerprint, now: int) {
    fp in t.fired ==> now - t.fired[fp] >= Cooldown(t)
  }

  /** An error group or an open proposal: `busyFor` holds the triggers for which, when it is considered,
      a queued task or a pending version already mentions it. `due` is a proposal's non-blank prompt. */
  datatype Candidate = Candidate(fp: Fingerprint, resolved: bool, lastTs: int, count: int, due: bool, busyFor: set<Id>)

  predicate SpikeHit(t: Trigger, g: Candidate, now: int) {
    && !g.resolved && g.fp != NONE
    && !(t.config.window > 0 && now - g.lastTs > t.config.window)
    && (g.count >= t.config.threshold || (t.config.tripOnNew && g.count >= 1))
    && CooledDown(t, g.fp, now)
  }

  function SpikeHits(t: Trigger, groups: seq<Candidate>, now: int): seq<Candidate> {
    if groups == [] then []
    else
      var last := groups[|groups| - 1];
      SpikeHits(t, groups[..|groups| - 1], now) + if SpikeHit(t, last, now) then [last] else []
  }

  /** `spike_hits`. */
  method FindSpikes(t: Trigger, groups: seq<Candidate>, now: int) returns (hits: seq<Candidate>)
    ensures hits == SpikeHits(t, groups, now)
  {
    hits := [];
    for i := 0 to |groups|
      invariant hits == SpikeHits(t, groups[..i], now)
    {
      assert groups[..i + 1][..i] == groups[..i];
      var g := groups[i];
      if g.resolved || g.fp == NONE { continue; }
      if t.config.window > 0 && now - g.lastTs > t.config.window { continue; }
      if !(g.count >= t.config.threshold || (t.config.tripOnNew && g.count >= 1)) { continue; }
      if g.fp in t.fired && now - t.fired[g.fp] < Cooldown(t) { continue; }
      hits := hits + [g];
    }
    assert groups[..|groups|] == groups;
  }

  predicate AdvisorHit(t: Trigger, p: Candidate, now: int) {
    p.fp != NONE && p.due && CooledDown(t, p.fp, now)
  }

  /** The hits until there are as many as the cap, but one at least. */
  function AdvisorHits(t: Trigger, proposals: seq<Candidate>, now: int, cap: int): seq<Candidate> {
    if proposals == [] then []
    else if !AdvisorHit(t, proposals[0], now) then AdvisorHits(t, proposals[1..], now, cap)
    else if cap <= 1 then [proposals[0]]
    else [proposals[0]] + AdvisorHits(t, proposals[1..], now, cap - 1)
  }

  /** `advisor_hits`. */
  method FindProposals(t: Trigger, proposals: seq<Candidate>, now: int) returns (hits: seq<Candidate>)
    ensures hits == AdvisorHits(t, proposals, now, t.config.maxPerTick)
  {
    hits := [];
    for i := 0 to |proposals|
      invariant i < |proposals| ==> proposals[i..] != []
      invariant |hits| == 0 || |hits| < t.config.maxPerTick
      invariant hits + AdvisorHits(t, proposals[i..], now, t.config.maxPerTick - |hits|)
             == AdvisorHits(t, proposals, now, t.config.maxPerTick)
    {
      var p := proposals[i];
      assert proposals[i..][0] == p && proposals[i..][1..] == proposals[i + 1..];
      if p.fp == NONE || !p.due { continue; }
      if p.fp in t.fired && now - t.fired[p.fp] < Cooldown(t) { continue; }
      ghost var before := hits;
      hits := hits + [p];
      if |hits| >= t.config.maxPerTick { return; }
      var rest := AdvisorHits(t, proposals[i + 1..], now, t.config.maxPerTick - |hits|);
      assert before + ([p] + rest) == hits + rest;
    }
  }

  // ---- firing ----------------------------------------------------------------------------

  function Pruned(fired: map<Fingerprint, int>, cutoff: int): map<Fingerprint, int> {
    map k | k in fired && fired[k] >= cutoff :: fired[k]
  }

  /** What a fire records in the trigger. */
  function Recorded(t: Trigger, now: int, fp: Fingerprint): Trigger {
    t.(lastFired := Some(now), firesDay := Some(DayOf(now)),
       firesToday := (if t.firesDay == Some(DayOf(now)) then t.firesToday else 0) + 1,
       enabled := t.enabled && !t.config.once,
       fired := if fp == NONE then t.fired else Pruned(t.fired[fp := now], now - Cooldown(t)))
  }

  /** `update_trigger`: the first entry with the id. */
  function Updated(triggers: seq<Trigger>, id: Id, now: int, fp: Fingerprint): seq<Trigger> {
    if triggers == [] then []
    else if triggers[0].id == id then [Recorded(triggers[0], now, fp)] + triggers[1..]
    else [triggers[0]] + Updated(triggers[1..], id, now, fp)
  }

  function FiredOnce(s: Store, id: Id, now: int, fp: Fingerprint, busy: bool): Store {
    if fp != NONE && busy then s else Store(Updated(s.triggers, id, now, fp), s.log + [Fire(id, now, fp)])
  }

  function FiresOn(triggers: seq<Trigger>, day: int): nat {
    if triggers == [] then 0
    else (if triggers[0].firesDay == Some(day) then triggers[0].firesToday else 0) + FiresOn(triggers[1..], day)
  }

  predicate RateLimited(s: Store, now: int, cap: int) {
    FiresOn(s.triggers, DayOf(now)) >= cap
  }

  // ---- the passes of a tick --------------------------------------------------------------

  /** The schedule pass over the triggers read when the tick began. */
  function SchedulePass(s: Store, todo: seq<Trigger>, now: int, cap: int): Store
    decreases |todo|
  {
    if todo == [] then s
    else if !(todo[0].enabled && todo[0].kind == Schedule) then SchedulePass(s, todo[1..], now, cap)
    else if RateLimited(s, now, cap) then s
    else SchedulePass(if ScheduleDue(todo[0], now) then FiredOnce(s, todo[0].id, now, NONE, false) else s,
                      todo[1..], now, cap)
  }

  /** The hits of one trigger, one after the other. */
  function HitPass(s: Store, id: Id, hits: seq<Candidate>, now: int, cap: int): Store
    decreases |hits|
  {
    if hits == [] || RateLimited(s, now, cap) then s
    else HitPass(FiredOnce(s, id, now, hits[0].fp, id in hits[0].busyFor), id, hits[1..], now, cap)
  }

  /** The trigger as stored now, or as it was read when it is gone. */
  function Live(triggers: seq<Trigger>, t: Trigger): Trigger {
    if triggers == [] then t else if triggers[0].id == t.id then triggers[0] else Live(triggers[1..], t)
  }

  function Hits(kind: Kind, t: Trigger, candidates: seq<Candidate>, now: int): seq<Candidate> {
    if kind == ErrorSpike then SpikeHits(t, candidates, now)
    else AdvisorHits(t, candidates, now, t.config.maxPerTick)
  }

  /** The pass over the error-spike triggers, or over the advisor triggers, with what was fetched. */
  function FetchPass(s: Store, kind: Kind, todo: seq<Trigger>, candidates: seq<Candidate>, now: int, cap: int): Store
    decreases |todo|
  {
    if todo == [] then s
    else if !(todo[0].enabled && todo[0].kind == kind) then FetchPass(s, kind, todo[1..], candidates, now, cap)
    else
      var live := Live(s.triggers, todo[0]);
      var next := HitPass(s, todo[0].id, Hits(kind, live, candidates, now), now, cap);
      FetchPass(next, kind, todo[1..], candidates, now, cap)
  }

  datatype Reply = UnknownWebhook | BadSignature | SwitchedOff | TriggerDisabled | CapReached | Accepted

  function Find(triggers: seq<Trigger>, id: Id): Option<Trigger> {
    if triggers == [] then None
    else if triggers[0].id == id && triggers[0].kind == Webhook then Some(triggers[0])
    else Find(triggers[1..], id)
  }

  function WebhookReply(s: Store, id: Id, signed: bool, masterOn: bool, now: int, cap: int): Reply {
    match Find(s.triggers, id)
    case None => UnknownWebhook
    case Some(t) =>
      if !signed then BadSignature
      else if !masterOn then SwitchedOff
      else if !t.enabled then TriggerDisabled
      else if RateLimited(s, now, cap) then CapReached
      else Accepted
  }

  function WebhookCall(s: Store, id: Id, signed: bool, masterOn: bool, now: int, cap: int): Store {
    if WebhookReply(s, id, signed, masterOn, now, cap) == Accepted then FiredOnce(s, id, now, NONE, false) else s
  }

  class TriggerManager {
    var triggers: seq<Trigger>
    ghost var log: seq<Fire>

    ghost function View(): Store
      reads this
    {
      Store(triggers, log)
    }

    constructor (stored: seq<Trigger>)
      ensures View() == Store(stored, [])
    {
      triggers, log := stored, [];
    }

    method UpdateTrigger(id: Id, now: int, fp: Fingerprint)
      modifies this`triggers
      ensures triggers == Updated(old(triggers), id, now, fp)
    {
      var k := 0;
      while k < |triggers| && triggers[k].id != id
        invariant 0 <= k <= |triggers| && triggers == old(triggers)
        invariant Updated(triggers, id, now, fp) == triggers[..k] + Updated(triggers[k..], id, now, fp)
      {
        UpdatedBehind(triggers, k, id, now, fp);
        k := k + 1;
      }
      if k < |triggers| {
        assert triggers[k..][1..] == triggers[k + 1..];
        triggers := triggers[k := Recorded(triggers[k], now, fp)];
      }
    }

    /** `_fire`: it does not look at the cap, which is its callers' business. */
    method FireTrigger(id: Id, now: int, fp: Fingerprint, busy: bool)
      modifies this
      ensures View() == FiredOnce(old(View()), id, now, fp, busy)
    {
      if fp != NONE && busy { return; }
      log := log + [Fire(id, now, fp)];
      UpdateTrigger(id, now, fp);
    }

    /** The first part of `tick`. */
    method FireSchedules(now: int, cap: int)
      modifies this
      ensures View() == SchedulePass(old(View()), old(triggers), now, cap)
    {
      var todo := triggers;
      for i := 0 to |todo|
        invariant SchedulePass(View(), todo[i..], now, cap) == SchedulePass(old(View()), todo, now, cap)
      {
        var t := todo[i];
        assert todo[i..][0] == t && todo[i..][1..] == todo[i + 1..];
        if !(t.enabled && t.kind == Schedule) { continue; }
        if FiresOn(triggers, DayOf(now)) >= cap { return; }
        if ScheduleDue(t, now) { FireTrigger(t.id, now, NONE, false); }
      }
    }

    /** The second and third part of `tick`, after the fetch: `todo` was read when the tick began. */
    method FireFetched(kind: Kind, todo: seq<Trigger>, candidates: seq<Candidate>, now: int, cap: int)
      requires kind == ErrorSpike || kind == Advisor
      modifies this
      ensures View() == FetchPass(old(View()), kind, todo, candidates, now, cap)
    {
      hide SpikeHits, AdvisorHits, HitPass;
      for i := 0 to |todo|
        invariant FetchPass(View(), kind, todo[i..], candidates, now, cap)
                == FetchPass(old(View()), kind, todo, candidates, now, cap)
      {
        var t := todo[i];
        assert todo[i..][0] == t && todo[i..][1..] == todo[i + 1..];
        if !(t.enabled && t.kind == kind) { continue; }
        var live := Live(triggers, t);
        var hits: seq<Candidate>;
        if kind == ErrorSpike {
          hits := FindSpikes(live, candidates, now);
        } else {
          hits := FindProposals(live, candidates, now);
        }
        FireHits(t.id, hits, now, cap);
      }
    }

    method FireHits(id: Id, hits: seq<Candidate>, now: int, cap: int)
      modifies this
      ensures View() == HitPass(old(View()), id, hits, now, cap)
    {
      for i := 0 to |hits|
        invariant HitPass(View(), id, hits[i..], now, cap) == HitPass(old(View()), id, hits, now, cap)
      {
        assert hits[i..][0] == hits[i] && hits[i..][1..] == hits[i + 1..];
        if FiresOn(triggers, DayOf(now)) >= cap { return; }
        FireTrigger(id, now, hits[i].fp, id in hits[i].busyFor);
      }
    }

    /** `handle_webhook`; `signed` says whether the signature verifies against the trigger's secret. */
    method HandleWebhook(id: Id, signed: bool, masterOn: bool, now: int, cap: int) returns (reply: Reply)
      modifies this
      ensures reply == WebhookReply(old(View()), id, signed, masterOn, now, cap)
      ensures View() == WebhookCall(old(View()), id, signed, masterOn, now, cap)
    {
      var t := Find(triggers, id);
      if t.None? { return UnknownWebhook; }
      if !signed { return BadSignature; }
      if !masterOn { return SwitchedOff; }
      if !t.value.enabled { return TriggerDisabled; }
      if FiresOn(triggers, DayOf(now)) >= cap { return CapReached; }
      FireTrigger(id, now, NONE, false);
      return Accepted;
    }
  }

  lemma UpdatedBehind(triggers: seq<Trigger>, k: nat, id: Id, now: int, fp: Fingerprint)
    requires k < |triggers| && triggers[k].id != id
    ensures triggers[..k] + Updated(triggers[k..], id, now, fp)
              == triggers[..k + 1] + Updated(triggers[k + 1..], id, now, fp)
  {
    assert triggers[k..][1..] == triggers[k + 1..];
  }
}
