/** One agent run per conversation, fanned out to every viewer: claims, late starts, Stop, and replay
    for viewers that join while the run is live. */
module RunHub {
  import opened Wrappers

  /** A frame of the event stream. */
  datatype Frame = Stopped | Finished | Event(text: string)

  /** A hub: what was put into each subscriber's queue, the current run's frames, and its claim.
      `timer` is the claim whose start timer is armed, `stopEvent` the run whose waiters are not woken
      yet and `woken` those that were. `marks` remembers how much each queue held when the run began,
      or nothing for a viewer that joined later. */
  datatype Hub = Hub(queues: map<nat, seq<Frame>>, buffer: seq<Frame>, active: bool, stopping: bool,
                     generation: nat, task: Option<nat>, timer: Option<nat>, stopEvent: Option<nat>,
                     woken: set<nat>, marks: map<nat, nat>)

  const IDLE := Hub(map[], [], false, false, 0, None, None, None, {}, map[])

  function Wake(event: Option<nat>): set<nat> {
    match event
    case Some(g) => {g}
    case None => {}
  }

  function Published(h: Hub, f: Frame): Hub {
    h.(buffer := if h.active then h.buffer + [f] else h.buffer,
       queues := map q | q in h.queues :: h.queues[q] + [f])
  }

  /** Claim the hub for a fresh run; inside the event loop the start timer is armed. */
  function Begun(h: Hub, inLoop: bool): Hub {
    var g := h.generation + 1;
    h.(generation := g, buffer := [], active := true, stopping := false, task := None,
       stopEvent := Some(g), timer := if inLoop then Some(g) else None,
       marks := map q | q in h.queues :: |h.queues[q]|)
  }

  predicate CanStart(h: Hub, g: nat) {
    g == h.generation && h.active && !h.stopping
  }

  /** Attach the task that drives the claimed run. */
  function Started(h: Hub, g: nat, task: nat): Hub {
    if CanStart(h, g) then h.(timer := None, task := Some(task)) else h
  }

  function Ended(h: Hub, g: nat): Hub {
    if g != h.generation then h
    else h.(timer := None, active := false, stopping := false, task := None,
            woken := h.woken + Wake(h.stopEvent), stopEvent := None)
  }

  /** The start timer fires. */
  function Expired(h: Hub, g: nat): Hub {
    var h := h.(timer := None);
    if g != h.generation || !h.active || h.task.Some? then h
    else Ended(Published(Published(h.(stopping := true), Stopped), Finished), g)
  }

  /** Asking whether a run is live repairs a claim whose driver died without ending it. */
  function Polled(h: Hub, dead: set<nat>): Hub {
    if h.active && h.task.Some? && h.task.value in dead
    then Ended(Published(h, Finished), h.generation)
    else h
  }

  function StopRequested(h: Hub, dead: set<nat>): Hub {
    var h := Polled(h, dead);
    if !h.active then h
    else
      var asked := h.(stopping := true, woken := h.woken + Wake(h.stopEvent));
      if h.task.Some? then asked
      else Ended(Published(Published(asked, Stopped), Finished), h.generation)
  }

  function Subscribed(h: Hub, q: nat, dead: set<nat>): Hub {
    var h := Polled(h, dead);
    h.(queues := h.queues[q := if h.active then h.buffer else []], marks := h.marks[q := 0])
  }

  function Unsubscribed(h: Hub, q: nat): Hub {
    h.(queues := h.queues - {q})
  }

  /** `_RunHub`. */
  class RunHub {
    var queues: map<nat, seq<Frame>>
    var buffer: seq<Frame>
    var active: bool
    var stopping: bool
    var generation: nat
    var task: Option<nat>
    var timer: Option<nat>
    var stopEvent: Option<nat>
    ghost var woken: set<nat>
    ghost var marks: map<nat, nat>

    ghost function View(): Hub
      reads this
    {
      Hub(queues, buffer, active, stopping, generation, task, timer, stopEvent, woken, marks)
    }

    constructor ()
      ensures View() == IDLE
    {
      queues, buffer, active, stopping, generation := map[], [], false, false, 0;
      task, timer, stopEvent, woken, marks := None, None, None, {}, map[];
    }

    method Begin(inLoop: bool) returns (claim: nat)
      modifies this
      ensures View() == Begun(old(View()), inLoop) && claim == generation
    {
      timer := None;
      generation := generation + 1;
      claim := generation;
      buffer, active, stopping, task, stopEvent := [], true, false, None, Some(claim);
      marks := map q | q in queues :: |queues[q]|;
      if inLoop { timer := Some(claim); }
    }

    method Start(g: nat, current: nat) returns (ok: bool)
      modifies this
      ensures ok == CanStart(old(View()), g) && View() == Started(old(View()), g, current)
    {
      if g != generation || !active || stopping { return false; }
      timer, task := None, Some(current);
      return true;
    }

    method Publish(f: Frame)
      modifies this
      ensures View() == Published(old(View()), f)
    {
      if active { buffer := buffer + [f]; }
      var rest := queues.Keys;
      while rest != {}
        invariant rest <= queues.Keys == old(queues).Keys
        invariant forall q | q in queues :: queues[q] == if q in rest then old(queues)[q] else old(queues)[q] + [f]
        invariant buffer == (if active then old(buffer) + [f] else old(buffer))
        invariant View() == old(View()).(queues := queues, buffer := buffer)
        decreases rest
      {
        var q :| q in rest;
        queues := queues[q := queues[q] + [f]];
        rest := rest - {q};
      }
    }

    method End(g: nat)
      modifies this
      ensures View() == Ended(old(View()), g)
    {
      if g != generation { return; }
      timer, active, stopping, task := None, false, false, None;
      if stopEvent.Some? { woken := woken + {stopEvent.value}; }
      stopEvent := None;
    }

    method ExpireUnstarted(g: nat)
      modifies this
      ensures View() == Expired(old(View()), g)
    {
      timer := None;
      if g != generation || !active || task.Some? { return; }
      stopping := true;
      Publish(Stopped);
      Publish(Finished);
      End(g);
    }

    method IsRunning(dead: set<nat>) returns (running: bool)
      modifies this
      ensures View() == Polled(old(View()), dead) && running == active
    {
      if active && task.Some? && task.value in dead {
        Publish(Finished);
        End(generation);
      }
      running := active;
    }

    method Stop(dead: set<nat>) returns (asked: bool)
      modifies this
      ensures View() == StopRequested(old(View()), dead) && asked == Polled(old(View()), dead).active
    {
      asked := IsRunning(dead);
      if !asked { return; }
      stopping := true;
      if stopEvent.Some? { woken := woken + {stopEvent.value}; }
      if task.None? {
        Publish(Stopped);
        Publish(Finished);
        End(generation);
      }
    }

    /** `q` names the queue made for the new viewer. */
    method Subscribe(q: nat, dead: set<nat>)
      modifies this
      ensures View() == Subscribed(old(View()), q, dead)
    {
      var running := IsRunning(dead);
      var frames: seq<Frame> := [];
      if running {
        for i := 0 to |buffer|
          invariant frames == buffer[..i]
        {
          frames := frames + [buffer[i]];
        }
        assert buffer[..|buffer|] == buffer;
      }
      queues := queues[q := frames];
      marks := marks[q := 0];
    }

    method Unsubscribe(q: nat)
      modifies this
      ensures View() == Unsubscribed(old(View()), q)
    {
      queues := queues - {q};
    }
  }
}
