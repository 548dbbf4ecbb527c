/** The table that finds a conversation's hub: hubs are made on demand and dropped when idle and
    unwatched. One conversation is modelled; the others have hubs of their own. */
module RunTable {
  import opened Wrappers
  import opened RunHub
  import opened RunHubLaws

  /** Every hub ever made for the conversation, and the one the table holds. */
  datatype Table = Table(hubs: seq<Hub>, entry: Option<nat>)

  /** `_hub_for`. */
  function HubFor(t: Table): Table {
    if t.entry.Some? then t else Table(t.hubs + [IDLE], Some(|t.hubs|))
  }

  /** `_gc_hub`. */
  function Collected(t: Table, dead: set<nat>): Table {
    match t.entry
    case Some(i) =>
      if i >= |t.hubs| then t
      else
        var h := Polled(t.hubs[i], dead);
        Table(t.hubs[i := h], if !h.active && h.queues == map[] then None else t.entry)
    case None => t
  }

  function With(t: Table, i: nat, h: Hub): Table {
    if i < |t.hubs| then t.(hubs := t.hubs[i := h]) else t
  }

  datatype Step =
    | SendMessage(text: string)
    | StartBody(i: nat, claim: nat, current: nat)
    | EmitFrame(i: nat, frame: Frame)
    | FinishRun(i: nat, claim: nat)
    | Expire(i: nat, claim: nat)
    | StopRun
    | AskRunning
    | OpenWatch
    | StartWatch(i: nat, q: nat)
    | CloseWatch(i: nat, q: nat)

  /** Only a live run emits, and a request that holds a hub got it from the table. */
  predicate Enabled(t: Table, s: Step) {
    match s
    case EmitFrame(i, _) => i < |t.hubs| && t.hubs[i].active
    case StartBody(i, _, _) => i < |t.hubs|
    case FinishRun(i, _) => i < |t.hubs|
    case Expire(i, _) => i < |t.hubs|
    case StartWatch(i, _) => i < |t.hubs|
    case CloseWatch(i, _) => i < |t.hubs|
    case _ => true
  }

  function Next(t: Table, s: Step, dead: set<nat>): Table
    requires Enabled(t, s)
  {
    match s
    case SendMessage(text) =>
      var t := HubFor(t);
      if t.entry.value < |t.hubs| then With(t, t.entry.value, Sent(t.hubs[t.entry.value], text, dead)) else t
    case StartBody(i, g, current) => With(t, i, Started(t.hubs[i], g, current))
    case EmitFrame(i, f) => With(t, i, Published(t.hubs[i], f))
    case FinishRun(i, g) => Collected(With(t, i, Ended(t.hubs[i], g)), dead)
    case Expire(i, g) =>
      var late := g != t.hubs[i].generation || !t.hubs[i].active || t.hubs[i].task.Some?;
      var expired := With(t, i, Expired(t.hubs[i], g));
      if late then expired else Collected(expired, dead)
    case StopRun =>
      Collected(if t.entry.Some? && t.entry.value < |t.hubs|
                then With(t, t.entry.value, StopRequested(t.hubs[t.entry.value], dead)) else t, dead)
    case AskRunning =>
      if t.entry.Some? && t.entry.value < |t.hubs|
      then With(t, t.entry.value, Polled(t.hubs[t.entry.value], dead)) else t
    case OpenWatch => HubFor(t)
    case StartWatch(i, q) => With(t, i, Subscribed(t.hubs[i], q, dead))
    case CloseWatch(i, q) => Collected(With(t, i, Unsubscribed(t.hubs[i], q)), dead)
  }

  /** Only the hub in the table can be live. */
  ghost predicate Inv(t: Table) {
    && (t.entry.Some? ==> t.entry.value < |t.hubs|)
    && forall i | 0 <= i < |t.hubs| :: t.hubs[i].active ==> t.entry == Some(i)
  }

  lemma StepKeepsInv(t: Table, s: Step, dead: set<nat>)
    requires Inv(t) && Enabled(t, s)
    ensures Inv(Next(t, s, dead))
  {
    hide Collected, With;
    match s
    case SendMessage(text) =>
      var u := HubFor(t);
      WithKeepsInv(u, u.entry.value, Sent(u.hubs[u.entry.value], text, dead));
    case StartBody(i, g, current) => WithKeepsInv(t, i, Started(t.hubs[i], g, current));
    case EmitFrame(i, f) => WithKeepsInv(t, i, Published(t.hubs[i], f));
    case FinishRun(i, g) => ChangeAndCollect(t, i, Ended(t.hubs[i], g), dead);
    case Expire(i, g) => ChangeAndCollect(t, i, Expired(t.hubs[i], g), dead);
    case StopRun =>
      if t.entry.Some? {
        ChangeAndCollect(t, t.entry.value, StopRequested(t.hubs[t.entry.value], dead), dead);
      } else {
        CollectKeepsInv(t, dead);
      }
    case AskRunning => if t.entry.Some? { WithKeepsInv(t, t.entry.value, Polled(t.hubs[t.entry.value], dead)); }
    case OpenWatch =>
    case StartWatch(i, q) => WithKeepsInv(t, i, Subscribed(t.hubs[i], q, dead));
    case CloseWatch(i, q) => ChangeAndCollect(t, i, Unsubscribed(t.hubs[i], q), dead);
  }

  lemma WithKeepsInv(t: Table, i: nat, h: Hub)
    requires Inv(t) && i < |t.hubs| && (h.active ==> t.entry == Some(i))
    ensures Inv(With(t, i, h))
  {
  }

  lemma CollectKeepsInv(t: Table, dead: set<nat>)
    requires Inv(t)
    ensures Inv(Collected(t, dead))
  {
  }

  lemma ChangeAndCollect(t: Table, i: nat, h: Hub, dead: set<nat>)
    requires Inv(t) && i < |t.hubs| && (h.active ==> t.entry == Some(i))
    ensures Inv(With(t, i, h)) && Inv(Collected(With(t, i, h), dead))
  {
    WithKeepsInv(t, i, h);
    CollectKeepsInv(With(t, i, h), dead);
  }

  /** A run: each step with the tasks that had ended by then. */
  predicate Runnable(t: Table, steps: seq<(Step, set<nat>)>)
    decreases |steps|
  {
    steps == [] || (Enabled(t, steps[0].0) && Runnable(Next(t, steps[0].0, steps[0].1), steps[1..]))
  }

  function Run(t: Table, steps: seq<(Step, set<nat>)>): Table
    requires Runnable(t, steps)
    decreases |steps|
  {
    if steps == [] then t else Run(Next(t, steps[0].0, steps[0].1), steps[1..])
  }

  lemma {:induction false} RunKeepsInv(t: Table, steps: seq<(Step, set<nat>)>)
    requires Inv(t) && Runnable(t, steps)
    ensures Inv(Run(t, steps))
    decreases |steps|
  {
    hide Inv, Next, Enabled;
    if steps != [] {
      StepKeepsInv(t, steps[0].0, steps[0].1);
      RunKeepsInv(Next(t, steps[0].0, steps[0].1), steps[1..]);
    }
  }

  /** One run per conversation: no two hubs of it are ever live, and the table, hence Stop, reaches
      the live one. */
  lemma OneLiveRun(steps: seq<(Step, set<nat>)>, i: nat, j: nat)
    requires Runnable(Table([], None), steps)
    requires var t := Run(Table([], None), steps);
             i < |t.hubs| && j < |t.hubs| && t.hubs[i].active && t.hubs[j].active
    ensures i == j && Run(Table([], None), steps).entry == Some(i)
  {
    hide Next, Enabled;
    RunKeepsInv(Table([], None), steps);
  }

  /** A watched hub keeps its place in the table as long as somebody watches it. */
  lemma WatchedHubStays(t: Table, s: Step, dead: set<nat>, i: nat, q: nat)
    requires Inv(t) && Enabled(t, s) && t.entry == Some(i) && q in t.hubs[i].queues
    requires s != CloseWatch(i, q)
    ensures i < |Next(t, s, dead).hubs| && Next(t, s, dead).entry == Some(i) && q in Next(t, s, dead).hubs[i].queues
  {
    hide Collected, With, Inv;
    EntryExists(t);
    match s
    case SendMessage(text) => WithKeepsWatched(t, i, Sent(t.hubs[i], text, dead), dead, i, q);
    case StartBody(k, g, current) => WithKeepsWatched(t, k, Started(t.hubs[k], g, current), dead, i, q);
    case EmitFrame(k, f) => WithKeepsWatched(t, k, Published(t.hubs[k], f), dead, i, q);
    case FinishRun(k, g) => WithKeepsWatched(t, k, Ended(t.hubs[k], g), dead, i, q);
    case Expire(k, g) => WithKeepsWatched(t, k, Expired(t.hubs[k], g), dead, i, q);
    case StopRun => WithKeepsWatched(t, i, StopRequested(t.hubs[i], dead), dead, i, q);
    case AskRunning => WithKeepsWatched(t, i, Polled(t.hubs[i], dead), dead, i, q);
    case OpenWatch =>
    case StartWatch(k, x) => WithKeepsWatched(t, k, Subscribed(t.hubs[k], x, dead), dead, i, q);
    case CloseWatch(k, x) => WithKeepsWatched(t, k, Unsubscribed(t.hubs[k], x), dead, i, q);
  }

  lemma WithKeepsWatched(t: Table, k: nat, h: Hub, dead: set<nat>, i: nat, q: nat)
    requires t.entry == Some(i) && i < |t.hubs| && k < |t.hubs| && q in t.hubs[i].queues
    requires k == i ==> q in h.queues
    ensures var u := With(t, k, h); i < |u.hubs| && u.entry == Some(i) && q in u.hubs[i].queues
    ensures var u := Collected(With(t, k, h), dead); i < |u.hubs| && u.entry == Some(i) && q in u.hubs[i].queues
  {
    var u := With(t, k, h);
    assert q in Polled(u.hubs[i], dead).queues;
  }

  /** The steps after which the table is tidied: a run's clean-up, a viewer's, a Stop, and a timer that
      ends its claim. */
  predicate Tidies(t: Table, s: Step)
    requires Enabled(t, s)
  {
    match s
    case FinishRun(_, _) => true
    case CloseWatch(_, _) => true
    case StopRun => true
    case Expire(i, g) => g == t.hubs[i].generation && t.hubs[i].active && t.hubs[i].task.None?
    case _ => false
  }

  /** The table lets go of its hub exactly when a step that tidies leaves it idle and unwatched; any other
      step leaves the entry, or makes one for a new hub when there is none and one is asked for. */
  lemma DroppedExactly(t: Table, s: Step, dead: set<nat>)
    requires Inv(t) && Enabled(t, s)
    ensures var u := Next(t, s, dead);
            && |t.hubs| <= |u.hubs|
            && (t.entry.Some? ==>
                  var h := u.hubs[t.entry.value];
                  u.entry == if Tidies(t, s) && !h.active && h.queues == map[] then None else t.entry)
            && (t.entry == None ==>
                  if s.SendMessage? || s.OpenWatch? then u.entry == Some(|t.hubs|) && |u.hubs| == |t.hubs| + 1
                  else u.entry == None && |u.hubs| == |t.hubs|)
  {
    hide Polled, Published, Ended, Expired, StopRequested, Sent, Started, Subscribed, Unsubscribed;
  }

  /** A hub that is not in the table, is idle, and holds this much for a viewer. */
  predicate Dropped(t: Table, i: nat, q: nat, given: seq<Frame>) {
    && i < |t.hubs| && t.entry != Some(i) && !t.hubs[i].active
    && q in t.hubs[i].queues && t.hubs[i].queues[q] == given
  }

  lemma WithKeepsDropped(t: Table, k: nat, h: Hub, dead: set<nat>, i: nat, q: nat, given: seq<Frame>)
    requires Dropped(t, i, q, given) && k < |t.hubs|
    requires k == i ==> !h.active && q in h.queues && h.queues[q] == given
    ensures Dropped(With(t, k, h), i, q, given) && Dropped(Collected(With(t, k, h), dead), i, q, given)
  {
    hide Polled;
  }

  lemma CollectKeepsDropped(t: Table, dead: set<nat>, i: nat, q: nat, given: seq<Frame>)
    requires Dropped(t, i, q, given)
    ensures Dropped(Collected(t, dead), i, q, given)
  {
    hide Polled;
  }

  lemma DroppedHubIsSilent(t: Table, s: Step, dead: set<nat>, i: nat, q: nat, given: seq<Frame>)
    requires Inv(t) && Enabled(t, s) && Dropped(t, i, q, given)
    requires s != CloseWatch(i, q) && s != StartWatch(i, q)
    ensures Dropped(Next(t, s, dead), i, q, given)
  {
    hide Collected, With, Inv;
    match s
    case SendMessage(text) =>
      assert t.entry.Some? ==> t.entry.value < |t.hubs| by { EntryExists(t); }
      var u := HubFor(t);
      WithKeepsDropped(u, u.entry.value, Sent(u.hubs[u.entry.value], text, dead), dead, i, q, given);
    case StartBody(k, g, current) => WithKeepsDropped(t, k, Started(t.hubs[k], g, current), dead, i, q, given);
    case EmitFrame(k, f) => WithKeepsDropped(t, k, Published(t.hubs[k], f), dead, i, q, given);
    case FinishRun(k, g) => WithKeepsDropped(t, k, Ended(t.hubs[k], g), dead, i, q, given);
    case Expire(k, g) => WithKeepsDropped(t, k, Expired(t.hubs[k], g), dead, i, q, given);
    case StopRun =>
      CollectKeepsDropped(t, dead, i, q, given);
      if t.entry.Some? && t.entry.value < |t.hubs| {
        WithKeepsDropped(t, t.entry.value, StopRequested(t.hubs[t.entry.value], dead), dead, i, q, given);
      }
    case AskRunning =>
      if t.entry.Some? && t.entry.value < |t.hubs| {
        WithKeepsDropped(t, t.entry.value, Polled(t.hubs[t.entry.value], dead), dead, i, q, given);
      }
    case OpenWatch =>
    case StartWatch(k, x) => WithKeepsDropped(t, k, Subscribed(t.hubs[k], x, dead), dead, i, q, given);
    case CloseWatch(k, x) => WithKeepsDropped(t, k, Unsubscribed(t.hubs[k], x), dead, i, q, given);
  }

  lemma EntryExists(t: Table)
    requires Inv(t)
    ensures t.entry.Some? ==> t.entry.value < |t.hubs|
    ensures forall i | 0 <= i < |t.hubs| && t.entry != Some(i) :: !t.hubs[i].active
  {
  }

  /** The viewer neither leaves nor is the queue handed out again. */
  predicate Stays(steps: seq<(Step, set<nat>)>, i: nat, q: nat) {
    forall k | 0 <= k < |steps| :: steps[k].0 != CloseWatch(i, q) && steps[k].0 != StartWatch(i, q)
  }

  /** A hub that left the table never comes back and is never live again, so its viewers are given
      nothing more, whatever runs follow. */
  lemma {:induction false} DroppedHubStaysSilent(t: Table, steps: seq<(Step, set<nat>)>, i: nat, q: nat)
    requires Inv(t) && Runnable(t, steps) && Stays(steps, i, q)
    requires i < |t.hubs| && t.entry != Some(i) && q in t.hubs[i].queues
    ensures Dropped(Run(t, steps), i, q, t.hubs[i].queues[q])
    decreases |steps|
  {
    if steps != [] {
      hide Next, Enabled;
      var u := Next(t, steps[0].0, steps[0].1);
      StepKeepsInv(t, steps[0].0, steps[0].1);
      LaterStays(steps, i, q);
      DroppedHubIsSilent(t, steps[0].0, steps[0].1, i, q, t.hubs[i].queues[q]);
      DroppedHubStaysSilent(u, steps[1..], i, q);
    }
  }

  lemma LaterStays(steps: seq<(Step, set<nat>)>, i: nat, q: nat)
    requires steps != [] && Stays(steps, i, q)
    ensures Stays(steps[1..], i, q) && steps[0].0 != CloseWatch(i, q) && steps[0].0 != StartWatch(i, q)
  {
    forall k | 0 <= k < |steps[1..]| ensures steps[1..][k] == steps[k + 1] {}
  }

  /** A watched hub in the table is still there after any run in which its viewer stays. */
  lemma {:induction false} WatchedHubStaysOn(t: Table, steps: seq<(Step, set<nat>)>, i: nat, q: nat)
    requires Inv(t) && Runnable(t, steps) && Stays(steps, i, q)
    requires i < |t.hubs| && t.entry == Some(i) && q in t.hubs[i].queues
    ensures var u := Run(t, steps); i < |u.hubs| && u.entry == Some(i) && q in u.hubs[i].queues
    decreases |steps|
  {
    if steps != [] {
      LaterStays(steps, i, q);
      StepKeepsInv(t, steps[0].0, steps[0].1);
      WatchedHubStays(t, steps[0].0, steps[0].1, i, q);
      hide Next, Enabled, Stays;
      WatchedHubStaysOn(Next(t, steps[0].0, steps[0].1), steps[1..], i, q);
    }
  }

  // ---- what viewers are given ------------------------------------------------------------

  /** The viewers of the hub are caught up, and a live run has at least its opening frame. */
  ghost predicate HubOk(h: Hub) {
    AllCaughtUp(h) && (h.active ==> h.buffer != [])
  }

  ghost predicate AllOk(t: Table) {
    Inv(t) && forall i | 0 <= i < |t.hubs| :: HubOk(t.hubs[i])
  }

  function Around(h: Hub, dead: set<nat>): RunHubLaws.World {
    RunHubLaws.World(h, dead, {}, map[], {})
  }

  lemma HubStaysOk(h: Hub, s: RunHubLaws.Step, dead: set<nat>)
    requires HubOk(h)
    ensures HubOk(RunHubLaws.Next(Around(h, dead), s).hub)
  {
    hide CaughtUp;
    forall q ensures CaughtUp(RunHubLaws.Next(Around(h, dead), s).hub, q) {
      assert CaughtUp(h, q);
      RunHubLaws.StepKeepsUp(Around(h, dead), s, q);
    }
  }

  lemma WithKeepsOk(t: Table, i: nat, h: Hub)
    requires AllOk(t) && i < |t.hubs| && HubOk(h) && (h.active ==> t.entry == Some(i))
    ensures AllOk(With(t, i, h))
  {
    hide HubOk;
  }

  lemma CollectKeepsOk(t: Table, dead: set<nat>)
    requires AllOk(t)
    ensures AllOk(Collected(t, dead))
  {
    if t.entry.Some? { HubStaysOk(t.hubs[t.entry.value], RunHubLaws.Poll, dead); }
    hide HubOk;
  }

  lemma ChangeAndCollectOk(t: Table, i: nat, h: Hub, dead: set<nat>)
    requires AllOk(t) && i < |t.hubs| && HubOk(h) && (h.active ==> t.entry == Some(i))
    ensures AllOk(With(t, i, h)) && AllOk(Collected(With(t, i, h), dead))
  {
    hide AllOk, HubOk, Collected;
    WithKeepsOk(t, i, h);
    CollectKeepsOk(With(t, i, h), dead);
  }

  lemma HubForKeepsOk(t: Table)
    requires AllOk(t)
    ensures AllOk(HubFor(t)) && HubFor(t).entry.Some? && HubFor(t).entry.value < |HubFor(t).hubs|
  {
  }

  lemma StepKeepsOk(t: Table, s: Step, dead: set<nat>)
    requires AllOk(t) && Enabled(t, s)
    ensures AllOk(Next(t, s, dead))
  {
    hide Collected, With, HubOk, HubFor;
    match s
    case SendMessage(text) =>
      HubForKeepsOk(t);
      var u := HubFor(t);
      HubStaysOk(u.hubs[u.entry.value], RunHubLaws.Send(text), dead);
      WithKeepsOk(u, u.entry.value, Sent(u.hubs[u.entry.value], text, dead));
    case StartBody(i, g, current) =>
      HubStaysOk(t.hubs[i], RunHubLaws.OpenBody(g, current), dead);
      WithKeepsOk(t, i, Started(t.hubs[i], g, current));
    case EmitFrame(i, f) =>
      HubStaysOk(t.hubs[i], RunHubLaws.Emit(0, f), dead);
      WithKeepsOk(t, i, Published(t.hubs[i], f));
    case FinishRun(i, g) =>
      HubStaysOk(t.hubs[i], RunHubLaws.EndRun(g), dead);
      ChangeAndCollectOk(t, i, Ended(t.hubs[i], g), dead);
    case Expire(i, g) =>
      HubStaysOk(t.hubs[i], RunHubLaws.TimerFires(g), dead);
      ChangeAndCollectOk(t, i, Expired(t.hubs[i], g), dead);
    case StopRun =>
      if t.entry.Some? {
        HubStaysOk(t.hubs[t.entry.value], RunHubLaws.PressStop, dead);
        ChangeAndCollectOk(t, t.entry.value, StopRequested(t.hubs[t.entry.value], dead), dead);
      } else {
        CollectKeepsOk(t, dead);
      }
    case AskRunning =>
      if t.entry.Some? {
        HubStaysOk(t.hubs[t.entry.value], RunHubLaws.Poll, dead);
        WithKeepsOk(t, t.entry.value, Polled(t.hubs[t.entry.value], dead));
      }
    case OpenWatch => HubForKeepsOk(t);
    case StartWatch(i, q) =>
      HubStaysOk(t.hubs[i], RunHubLaws.Watch(q), dead);
      WithKeepsOk(t, i, Subscribed(t.hubs[i], q, dead));
    case CloseWatch(i, q) =>
      HubStaysOk(t.hubs[i], RunHubLaws.Leave(q), dead);
      ChangeAndCollectOk(t, i, Unsubscribed(t.hubs[i], q), dead);
  }

  lemma {:induction false} RunKeepsOk(t: Table, steps: seq<(Step, set<nat>)>)
    requires AllOk(t) && Runnable(t, steps)
    ensures AllOk(Run(t, steps))
    decreases |steps|
  {
    hide AllOk, Next, Enabled;
    if steps != [] {
      StepKeepsOk(t, steps[0].0, steps[0].1);
      RunKeepsOk(Next(t, steps[0].0, steps[0].1), steps[1..]);
    }
  }

  /** The frames put in the viewer's queue since the live run began, or since it joined. */
  function Shown(h: Hub, q: nat): seq<Frame> {
    if q in h.queues && q in h.marks && h.marks[q] <= |h.queues[q]| then h.queues[q][h.marks[q]..] else []
  }

  lemma OpeningKeepsEntry(t: Table, i: nat, q: nat, dead: set<nat>)
    requires AllOk(t) && i < |t.hubs| && q !in t.hubs[i].queues
    ensures var u := Next(t, StartWatch(i, q), dead);
            && AllOk(u) && u.entry == t.entry && |u.hubs| == |t.hubs| && q in u.hubs[i].queues
            && (t.entry != Some(i) ==> u.hubs[i].queues[q] == [])
  {
    StepKeepsOk(t, StartWatch(i, q), dead);
  }

  lemma ShownIsBuffer(h: Hub, q: nat)
    requires HubOk(h) && q in h.queues
    ensures h.active ==> Shown(h, q) == h.buffer
    ensures h.queues[q] == [] ==> Shown(h, q) == []
  {
    assert CaughtUp(h, q);
  }

  /** A viewer's stream opens on the hub its request was handed, after any run; then anything happens
      while the viewer stays. Whenever a run of the conversation is live, the viewer has been shown
      exactly that run's frames if and only if its hub was still in the table when its stream opened. */
  lemma ViewerSeesRunExactly(before: seq<(Step, set<nat>)>, i: nat, q: nat, dead: set<nat>,
                             after: seq<(Step, set<nat>)>, j: nat)
    requires Runnable(Table([], None), before)
    requires var t := Run(Table([], None), before);
             && i < |t.hubs| && q !in t.hubs[i].queues
             && Runnable(Next(t, StartWatch(i, q), dead), after) && Stays(after, i, q)
    requires var v := Run(Next(Run(Table([], None), before), StartWatch(i, q), dead), after);
             j < |v.hubs| && v.hubs[j].active
    ensures var t := Run(Table([], None), before);
            var v := Run(Next(t, StartWatch(i, q), dead), after);
            && i < |v.hubs| && q in v.hubs[i].queues
            && (Shown(v.hubs[i], q) == v.hubs[j].buffer <==> t.entry == Some(i))
  {
    RunKeepsOk(Table([], None), before);
    var t := Run(Table([], None), before);
    OpeningKeepsEntry(t, i, q, dead);
    var u := Next(t, StartWatch(i, q), dead);
    hide Next, HubOk, Shown;
    RunKeepsOk(u, after);
    var v := Run(u, after);
    if t.entry == Some(i) {
      WatchedHubStaysOn(u, after, i, q);
    } else {
      DroppedHubStaysSilent(u, after, i, q);
    }
    ShownIsBuffer(v.hubs[i], q);
    LiveHasFrames(v.hubs[j]);
  }

  lemma LiveHasFrames(h: Hub)
    requires HubOk(h) && h.active
    ensures h.buffer != []
  {
  }

  /** It happens: a viewer asks to watch, an unrelated Stop collects the idle hub before the viewer's
      stream opens, a message starts a run, and the viewer joins a hub that nobody will ever use. */
  lemma ViewerCanMissTheRun(text: string, q: nat)
    ensures var t0 := Table([], None);
            var t1 := Next(t0, OpenWatch, {});
            var t2 := Next(t1, StopRun, {});
            var t3 := Next(t2, SendMessage(text), {});
            var t4 := Next(t3, StartWatch(0, q), {});
            && t1.entry == Some(0) && t2.entry == None && t3.entry == Some(1) && t3.hubs[1].active
            && t4.hubs[0].queues[q] == [] && t4.hubs[1].buffer == [Event(text)]
  {
  }
}
