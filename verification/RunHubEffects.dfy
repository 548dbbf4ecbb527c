/** What viewers, waiters and late bodies get from each thing that happens to a hub. */
module RunHubEffects {
  import opened Wrappers
  import opened RunHub
  import opened RunHubLaws

  /** Every viewer is given these frames, and there are no other viewers. */
  ghost predicate AllGiven(h: Hub, u: Hub, frames: seq<Frame>) {
    u.queues.Keys == h.queues.Keys && forall q | q in h.queues :: u.queues[q] == h.queues[q] + frames
  }

  /** The claim is over, and whoever waited for it to be stopped is woken. */
  ghost predicate Closed(h: Hub, u: Hub) {
    && !u.active && !u.stopping && u.task == None && u.timer == None && u.generation == h.generation
    && u.generation in u.woken && h.woken <= u.woken
  }

  ghost predicate Unstarted(h: Hub) {
    h.active && h.task == None
  }

  ghost predicate DriverDied(w: World) {
    w.hub.active && w.hub.task.Some? && w.hub.task.value in w.dead
  }

  // ---- stop ------------------------------------------------------------------------------

  /** Stop asks a driver at work to wind down and wakes whoever waits for that; it ends a claim that never
      started, telling viewers so, and one whose driver died; an idle hub it leaves alone. */
  lemma StopReaches(w: World)
    requires Inv(w)
    ensures var h, u := w.hub, Next(w, PressStop).hub;
            if !h.active then u == h
            else if DriverDied(w) then Closed(h, u) && AllGiven(h, u, [Finished])
            else if Unstarted(h) then Closed(h, u) && AllGiven(h, u, [Stopped, Finished])
            else
              && u == h.(stopping := true, woken := u.woken) && u.woken == h.woken + {h.generation}
  {
    hide AllCaughtUp, DriverOk, WokenOk;
  }

  /** A run that was asked to stop: it winds down, its waiters are woken, and its claim lets no late body
      start; or it is over. */
  ghost predicate AskedToStop(h: Hub, g: nat) {
    1 <= g <= h.generation
    && (Retired(h, g) || (h.stopping && g in h.woken))
  }

  lemma StepKeepsAsked(w: World, s: Step, g: nat)
    requires Inv(w) && AskedToStop(w.hub, g)
    ensures AskedToStop(Next(w, s).hub, g)
  {
    hide AllCaughtUp, DriverOk;
    assert WokenOk(w.hub, g);
  }

  /** After Stop the run it met stays asked to stop over every run, until it is over: nothing starts its
      body any more, and its waiters have been woken. */
  lemma {:induction false} StopLasts(w: World, steps: seq<Step>)
    requires Inv(w) && w.hub.active && Runnable(Next(w, PressStop), steps)
    ensures var u := Run(Next(w, PressStop), steps).hub; var g := w.hub.generation;
            && AskedToStop(u, g) && !CanStart(u, g)
            && (u.generation == g && u.active ==> u.stopping) && g in u.woken
  {
    StepKeepsInv(w, PressStop);
    if steps == [] {
      StopIsAsked(w);
    } else {
      StopLasts(w, steps[..|steps| - 1]);
      RunKeepsInv(Next(w, PressStop), steps[..|steps| - 1]);
      var before, last := Run(Next(w, PressStop), steps[..|steps| - 1]), steps[|steps| - 1];
      StepKeepsAsked(before, last, w.hub.generation);
      StepKeepsInv(before, last);
      hide Next, Enabled;
      AskedMeans(Next(before, last), w.hub.generation);
    }
  }

  lemma StopIsAsked(w: World)
    requires Inv(w) && w.hub.active
    ensures AskedToStop(Next(w, PressStop).hub, w.hub.generation)
    ensures var u, g := Next(w, PressStop).hub, w.hub.generation;
            !CanStart(u, g) && (u.generation == g && u.active ==> u.stopping) && g in u.woken
  {
    StopReaches(w);
    hide AllCaughtUp, DriverOk, WokenOk;
  }

  lemma AskedMeans(w: World, g: nat)
    requires Inv(w) && AskedToStop(w.hub, g)
    ensures !CanStart(w.hub, g) && (w.hub.generation == g && w.hub.active ==> w.hub.stopping) && g in w.hub.woken
  {
    assert WokenOk(w.hub, g);
  }

  // ---- the other ends --------------------------------------------------------------------

  /** The timer of a claim that never started ends it, telling viewers that it was stopped and is over;
      any other timer changes nothing but being spent. */
  lemma TimerReaches(w: World, g: nat)
    requires Inv(w)
    ensures var h, u := w.hub, Next(w, TimerFires(g)).hub;
            if g == h.generation && Unstarted(h) then Closed(h, u) && AllGiven(h, u, [Stopped, Finished])
            else u == h.(timer := None)
  {
    hide AllCaughtUp, DriverOk, WokenOk;
  }

  /** Asking whether a run is live ends one whose driver died, telling viewers that it is over, and changes
      nothing else. */
  lemma PollReaches(w: World)
    requires Inv(w)
    ensures var h, u := w.hub, Next(w, Poll).hub;
            if DriverDied(w) then Closed(h, u) && AllGiven(h, u, [Finished]) else u == h
  {
    hide AllCaughtUp, DriverOk, WokenOk;
  }

  /** A clean-up ends the live run when that is its own, and is lost on any other. */
  lemma CleanUpReaches(w: World, g: nat)
    requires Inv(w)
    ensures var h, u := w.hub, Next(w, EndRun(g)).hub;
            && AllGiven(h, u, []) && u.buffer == h.buffer
            && (g == h.generation && h.active ==> Closed(h, u)) && (g != h.generation || !h.active ==> u == h)
  {
    hide AllCaughtUp, DriverOk, WokenOk;
  }

  // ---- beginnings ------------------------------------------------------------------------

  /** A message is turned away while a run is live. Otherwise it begins one: the next generation, open to
      its body and with its timer armed, whose frames start with the message, which every viewer is given. */
  lemma SendReaches(w: World, text: string)
    requires Inv(w)
    ensures var h, u := w.hub, Next(w, Send(text)).hub;
            if h.active && !DriverDied(w) then u == h
            else
              && u.generation == h.generation + 1 && u.active && u.buffer == [Event(text)]
              && CanStart(u, u.generation) && u.task == None && u.timer == Some(u.generation)
              && u.woken == (if DriverDied(w) then h.woken + {h.generation} else h.woken)
              && AllGiven(h, u, if DriverDied(w) then [Finished, Event(text)] else [Event(text)])
  {
    hide AllCaughtUp, DriverOk, WokenOk;
  }

  /** A body that opens in time becomes the driver of its claim and disarms the timer; a late one leaves
      the hub as it is. Nobody is given anything. */
  lemma OpenReaches(w: World, g: nat, current: nat)
    requires Inv(w)
    ensures var h, u := w.hub, Next(w, OpenBody(g, current)).hub;
            && AllGiven(h, u, [])
            && (if g == h.generation && h.active && !h.stopping
                then u == h.(task := Some(current), timer := None)
                     && Next(w, OpenBody(g, current)).drivers == w.drivers[g := current]
                else u == h && Next(w, OpenBody(g, current)).drivers == w.drivers)
  {
  }

  /** A frame of the driver is given to every viewer and kept for those who come later. */
  lemma EmitReaches(w: World, g: nat, f: Frame)
    requires Inv(w) && Enabled(w, Emit(g, f))
    ensures var h, u := w.hub, Next(w, Emit(g, f)).hub;
            AllGiven(h, u, [f]) && u == h.(queues := u.queues, buffer := h.buffer + [f])
  {
    assert DriverOk(w, g);
  }

  /** Whatever is published is given to every viewer, and kept for later ones only while a run is live. */
  lemma PublishReaches(h: Hub, f: Frame)
    ensures var u := Published(h, f);
            && AllGiven(h, u, [f]) && u == h.(queues := u.queues, buffer := u.buffer)
            && u.buffer == h.buffer + if h.active then [f] else []
  {
  }

  /** A viewer that joins starts with the frames of a live run, or with nothing; the others get nothing
      from it, but for the end of a run whose driver died. One that leaves is gone. */
  lemma ViewersComeAndGo(w: World, q: nat)
    requires Inv(w) && q !in w.hub.queues
    ensures var h, u := w.hub, Next(w, Watch(q)).hub;
            && q in u.queues && u.queues[q] == (if h.active && !DriverDied(w) then h.buffer else [])
            && (u.active <==> h.active && !DriverDied(w)) && u.generation == h.generation
            && AllGiven(h, u.(queues := u.queues - {q}), if DriverDied(w) then [Finished] else [])
            && Next(Next(w, Watch(q)), Leave(q)).hub.queues == u.queues - {q}
  {
    hide AllCaughtUp, DriverOk, WokenOk;
  }
}
