/** Every interleaving of sends, response bodies, stops, timers and viewers keeps viewers caught up and
    lets no retired run start again or end a newer one. */
module RunHubLaws {
  import opened Wrappers
  import opened RunHub

  /** A conversation's hub with the world around it: the finished tasks, and per claim whether its
      response body has run, the task that drives it, and whether it has ended the run. */
  datatype World = World(hub: Hub, dead: set<nat>, bodies: set<nat>, drivers: map<nat, nat>, done: set<nat>)

  datatype Step =
    | Send(text: string)
    | OpenBody(claim: nat, current: nat)
    | Emit(claim: nat, frame: Frame)
    | EndRun(claim: nat)
    | TaskEnds(current: nat)
    | PressStop
    | Poll
    | TimerFires(claim: nat)
    | Watch(q: nat)
    | Leave(q: nat)

  /** A driver that is still at work on its claim. */
  predicate Driving(w: World, g: nat) {
    g in w.drivers && w.drivers[g] !in w.dead && g !in w.done
  }

  /** A response body runs once, in a live task; only a driver at work emits, a driver may end its run
      at any later time, a timer fires only while armed, and a new viewer gets a new queue. */
  predicate Enabled(w: World, s: Step) {
    match s
    case OpenBody(g, current) => g !in w.bodies && current !in w.dead
    case Emit(g, _) => Driving(w, g)
    case EndRun(g) => g in w.drivers
    case TimerFires(g) => w.hub.timer == Some(g)
    case Watch(q) => q !in w.hub.queues
    case _ => true
  }

  /** A message is turned away while a run is live, and otherwise claims the hub and is broadcast. */
  function Sent(h: Hub, text: string, dead: set<nat>): Hub {
    var h := Polled(h, dead);
    if h.active then h else Published(Begun(h, true), Event(text))
  }

  function Next(w: World, s: Step): World {
    match s
    case Send(text) => w.(hub := Sent(w.hub, text, w.dead))
    case OpenBody(g, current) =>
      w.(hub := Started(w.hub, g, current), bodies := w.bodies + {g},
         drivers := if CanStart(w.hub, g) then w.drivers[g := current] else w.drivers)
    case Emit(g, f) => w.(hub := Published(w.hub, f))
    case EndRun(g) => w.(hub := Ended(w.hub, g), done := w.done + {g})
    case TaskEnds(current) => w.(dead := w.dead + {current})
    case PressStop => w.(hub := StopRequested(w.hub, w.dead))
    case Poll => w.(hub := Polled(w.hub, w.dead))
    case TimerFires(g) => w.(hub := Expired(w.hub, g))
    case Watch(q) => w.(hub := Subscribed(w.hub, q, w.dead))
    case Leave(q) => w.(hub := Unsubscribed(w.hub, q))
  }

  // ---- viewers ---------------------------------------------------------------------------

  /** While a run is live, what the viewer was given since the run began, or since it joined, is
      exactly the run's buffer. */
  ghost predicate CaughtUp(h: Hub, q: nat) {
    q in h.queues ==>
      && q in h.marks && h.marks[q] <= |h.queues[q]|
      && (h.active ==> h.queues[q][h.marks[q]..] == h.buffer)
  }

  ghost predicate AllCaughtUp(h: Hub) {
    forall q :: CaughtUp(h, q)
  }

  lemma PublishKeepsUp(h: Hub, f: Frame, q: nat)
    requires CaughtUp(h, q)
    ensures CaughtUp(Published(h, f), q)
  {
    if q in h.queues {
      assert (h.queues[q] + [f])[h.marks[q]..] == h.queues[q][h.marks[q]..] + [f];
    }
  }

  lemma EndKeepsUp(h: Hub, g: nat, q: nat)
    requires CaughtUp(h, q)
    ensures CaughtUp(Ended(h, g), q)
  {
  }

  lemma BeginCatchesUp(h: Hub, q: nat)
    requires CaughtUp(h, q)
    ensures CaughtUp(Begun(h, true), q)
  {
  }

  lemma PollKeepsUp(h: Hub, dead: set<nat>, q: nat)
    requires CaughtUp(h, q)
    ensures CaughtUp(Polled(h, dead), q)
  {
    PublishKeepsUp(h, Finished, q);
  }

  /** Telling everybody that the run is over. */
  lemma WindDownKeepsUp(h: Hub, q: nat)
    requires CaughtUp(h, q)
    ensures CaughtUp(Ended(Published(Published(h, Stopped), Finished), h.generation), q)
  {
    hide CaughtUp;
    PublishKeepsUp(h, Stopped, q);
    PublishKeepsUp(Published(h, Stopped), Finished, q);
    EndKeepsUp(Published(Published(h, Stopped), Finished), h.generation, q);
  }

  lemma StepKeepsUp(w: World, s: Step, q: nat)
    requires CaughtUp(w.hub, q)
    ensures CaughtUp(Next(w, s).hub, q)
  {
    var h := w.hub;
    match s
    case Send(text) =>
      PollKeepsUp(h, w.dead, q);
      BeginCatchesUp(Polled(h, w.dead), q);
      PublishKeepsUp(Begun(Polled(h, w.dead), true), Event(text), q);
    case Emit(g, f) => PublishKeepsUp(h, f, q);
    case PressStop =>
      PollKeepsUp(h, w.dead, q);
      var p := Polled(h, w.dead);
      WindDownKeepsUp(p.(stopping := true, woken := p.woken + Wake(p.stopEvent)), q);
    case Poll => PollKeepsUp(h, w.dead, q);
    case TimerFires(g) => WindDownKeepsUp(h.(timer := None, stopping := true), q);
    case Watch(_) => PollKeepsUp(h, w.dead, q);
    case _ =>
  }

  // ---- runs ------------------------------------------------------------------------------

  /** The claim of a run is over: a newer one was made, or it ended. */
  predicate Retired(h: Hub, g: nat) {
    g < h.generation || (g == h.generation && !h.active)
  }

  /** A driver at work drives the live run, as its task. */
  ghost predicate DriverOk(w: World, g: nat) {
    g in w.drivers ==>
      && g in w.bodies && g <= w.hub.generation
      && (Driving(w, g) ==> g == w.hub.generation && w.hub.active && w.hub.task == Some(w.drivers[g]))
  }

  /** Whoever waits for a run to be stopped is woken at the latest when it is over. */
  ghost predicate WokenOk(h: Hub, g: nat) {
    1 <= g <= h.generation && Retired(h, g) ==> g in h.woken
  }

  /** An idle hub holds no claim; a live run has its waiters' event, and either a driver or, unless a
      Stop is under way, the armed timer that will release the claim. */
  ghost predicate ClaimOk(w: World) {
    var h := w.hub;
    && (!h.active ==> h.task == None && h.timer == None && h.stopEvent == None && !h.stopping)
    && (h.active ==>
          && h.generation >= 1 && h.stopEvent == Some(h.generation)
          && (h.task == None ==> h.timer == Some(h.generation) && !h.stopping)
          && (h.task.Some? ==> h.timer == None && h.generation in w.drivers && w.drivers[h.generation] == h.task.value))
  }

  ghost predicate Inv(w: World) {
    && ClaimOk(w) && AllCaughtUp(w.hub)
    && (forall g :: DriverOk(w, g)) && (forall g :: WokenOk(w.hub, g))
  }

  lemma StartKeepsInv()
    ensures Inv(World(IDLE, {}, {}, map[], {}))
  {
  }

  lemma StepKeepsClaim(w: World, s: Step)
    requires ClaimOk(w) && Enabled(w, s) && DriverOk(w, w.hub.generation)
    ensures ClaimOk(Next(w, s))
  {
  }

  lemma StepKeepsDriver(w: World, s: Step, g: nat)
    requires ClaimOk(w) && Enabled(w, s) && DriverOk(w, g)
    ensures DriverOk(Next(w, s), g)
  {
  }

  lemma StepKeepsWoken(w: World, s: Step, g: nat)
    requires ClaimOk(w) && WokenOk(w.hub, g)
    ensures WokenOk(Next(w, s).hub, g)
  {
  }

  lemma StepKeepsInv(w: World, s: Step)
    requires Inv(w) && Enabled(w, s)
    ensures Inv(Next(w, s))
  {
    hide ClaimOk, CaughtUp, DriverOk, WokenOk, Next;
    assert DriverOk(w, w.hub.generation);
    StepKeepsClaim(w, s);
    forall q ensures CaughtUp(Next(w, s).hub, q) { StepKeepsUp(w, s, q); }
    forall g ensures DriverOk(Next(w, s), g) { StepKeepsDriver(w, s, g); }
    forall g ensures WokenOk(Next(w, s).hub, g) { StepKeepsWoken(w, s, g); }
  }

  /** Generations only grow, and a retired claim stays retired. */
  lemma RetiredForGood(w: World, s: Step, g: nat)
    requires ClaimOk(w)
    ensures Next(w, s).hub.generation >= w.hub.generation
    ensures Retired(w.hub, g) ==> Retired(Next(w, s).hub, g)
  {
  }

  /** A retired claim can neither be started nor end anything, even when its body or its clean-up
      comes late: the hub does not change at all. */
  lemma RetiredIsHarmless(w: World, g: nat, current: nat)
    requires Inv(w) && Retired(w.hub, g) && 1 <= g
    ensures !CanStart(w.hub, g) && Started(w.hub, g, current) == w.hub
    ensures Ended(w.hub, g) == w.hub
  {
  }

  /** Only the driver of the live run adds to its frames. */
  lemma OnlyTheLiveRunSpeaks(w: World, g: nat, f: Frame)
    requires Inv(w) && Enabled(w, Emit(g, f))
    ensures g == w.hub.generation && w.hub.active
    ensures Next(w, Emit(g, f)).hub.buffer == w.hub.buffer + [f]
  {
    assert DriverOk(w, g);
  }

  // ---- whole runs ------------------------------------------------------------------------

  function Run(w: World, steps: seq<Step>): World {
    if steps == [] then w else Next(Run(w, steps[..|steps| - 1]), steps[|steps| - 1])
  }

  ghost predicate Runnable(w: World, steps: seq<Step>) {
    steps == [] ||
    (Runnable(w, steps[..|steps| - 1]) && Enabled(Run(w, steps[..|steps| - 1]), steps[|steps| - 1]))
  }

  lemma {:induction false} RunKeepsInv(w: World, steps: seq<Step>)
    requires Inv(w) && Runnable(w, steps)
    ensures Inv(Run(w, steps))
  {
    hide Inv, Next, Enabled;
    if steps != [] {
      RunKeepsInv(w, steps[..|steps| - 1]);
      StepKeepsInv(Run(w, steps[..|steps| - 1]), steps[|steps| - 1]);
    }
  }

  lemma {:induction false} RetiredThroughoutRun(w: World, steps: seq<Step>, g: nat)
    requires Inv(w) && Runnable(w, steps) && Retired(w.hub, g)
    ensures Retired(Run(w, steps).hub, g)
  {
    hide Next, Enabled, ClaimOk, AllCaughtUp, DriverOk, WokenOk;
    if steps != [] {
      var before := Run(w, steps[..|steps| - 1]);
      RunKeepsInv(w, steps[..|steps| - 1]);
      RetiredThroughoutRun(w, steps[..|steps| - 1], g);
      RetiredForGood(before, steps[|steps| - 1], g);
    }
  }

  /** Whenever a viewer joined, while a run is live its queue ends in exactly the run's frames. */
  lemma ViewersSeeTheRun(steps: seq<Step>, q: nat)
    requires Runnable(World(IDLE, {}, {}, map[], {}), steps)
    ensures var h := Run(World(IDLE, {}, {}, map[], {}), steps).hub;
            h.active && q in h.queues ==> q in h.marks && h.marks[q] <= |h.queues[q]|
                                             && h.queues[q][h.marks[q]..] == h.buffer
  {
    StartKeepsInv();
    RunKeepsInv(World(IDLE, {}, {}, map[], {}), steps);
    assert CaughtUp(Run(World(IDLE, {}, {}, map[], {}), steps).hub, q);
  }

  /** Once a claim is retired, nothing that happens later lets it start, or lets it end another run. */
  lemma RetiredNeverReturns(w: World, steps: seq<Step>, g: nat, current: nat)
    requires Inv(w) && Runnable(w, steps) && Retired(w.hub, g) && 1 <= g
    ensures var h := Run(w, steps).hub;
            !CanStart(h, g) && Started(h, g, current) == h && Ended(h, g) == h
  {
    hide Next, Enabled, Runnable, Inv;
    RunKeepsInv(w, steps);
    RetiredThroughoutRun(w, steps, g);
    RetiredIsHarmless(Run(w, steps), g, current);
  }

  /** No claim is held for good: a live run without a driver at work is released by its timer, by the
      next question whether it is running, or by the clean-up of its own body. */
  lemma EveryClaimCanBeReleased(w: World)
    requires Inv(w) && w.hub.active
    ensures w.hub.task == None ==>
      Enabled(w, TimerFires(w.hub.generation)) && !Next(w, TimerFires(w.hub.generation)).hub.active
    ensures w.hub.task.Some? && w.hub.task.value in w.dead ==> !Next(w, Poll).hub.active
    ensures w.hub.task.Some? ==>
      Enabled(w, EndRun(w.hub.generation)) && !Next(w, EndRun(w.hub.generation)).hub.active
  {
  }
}
