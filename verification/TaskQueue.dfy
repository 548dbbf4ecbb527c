/** The durable task backlog and its single drainer, as steps between await points. */
module TaskQueue {
  import opened Wrappers

  datatype Id = Id(text: string)

  /** How a task left the queue. */
  datatype Fate = Ran(result: string) | Dequeued

  /** What the caller that awaits a task sees. */
  datatype Future = Waiting | Abandoned | Answered(fate: Fate)

  /** The consumer task: never created, created but not yet running, suspended inside a task, done. */
  datatype Drainer = Absent | Scheduled | Running(id: Id) | Done

  /** How one run of a task ends: its result, and whether the run reset the current-task marker
      (a failure before its clean-up does not). */
  datatype Ending = Ending(result: string, cleared: bool)

  /** The kernel's fields, and the history of arrivals, starts and outcomes. */
  datatype State = State(queue: seq<Id>, current: Option<Id>, drainer: Drainer,
                         pending: set<Id>, futures: map<Id, Future>,
                         arrivals: seq<Id>, started: seq<Id>, outcomes: seq<(Id, Fate)>)

  function Without(s: seq<Id>, id: Id): seq<Id> {
    if s == [] then []
    else (if s[0] == id then [] else [s[0]]) + Without(s[1..], id)
  }

  function Ensured(d: Drainer): Drainer {
    if d == Absent || d == Done then Scheduled else d
  }

  /** A request joins the backlog; with a waiting caller it also gets a future. */
  function Enqueued(s: State, id: Id, awaited: bool): State {
    s.(queue := s.queue + [id], arrivals := s.arrivals + [id],
       pending := if awaited then s.pending + {id} else s.pending,
       futures := if awaited then s.futures[id := Waiting] else s.futures,
       drainer := Ensured(s.drainer))
  }

  /** The task leaves the queue and its caller, if still waiting, is answered. */
  function Resolved(s: State, id: Id, fate: Fate): State {
    s.(queue := Without(s.queue, id), pending := s.pending - {id},
       futures := if id in s.pending && id in s.futures && s.futures[id] == Waiting
                  then s.futures[id := Answered(fate)] else s.futures,
       outcomes := s.outcomes + [(id, fate)])
  }

  function Finished(s: State, id: Id, e: Ending): State {
    Resolved(s.(current := if e.cleared then None else s.current), id, Ran(e.result))
  }

  function Started(s: State, id: Id): State {
    s.(current := Some(id), drainer := Running(id), started := s.started + [id])
  }

  /** The drainer from one await point to the next: it runs the tasks that end without suspending,
      then either suspends in the next one or finds the queue empty and returns. */
  function Drained(s: State, immediate: seq<Ending>): State
    decreases |immediate|
  {
    if s.queue == [] then s.(drainer := Done)
    else
      var running := Started(s, s.queue[0]);
      if immediate == [] then running
      else Drained(Finished(running, s.queue[0], immediate[0]), immediate[1..])
  }

  /** The event loop gives the drainer a turn. */
  function Resumed(s: State, ending: Ending, immediate: seq<Ending>): State {
    match s.drainer
    case Scheduled => Drained(s, immediate)
    case Running(id) => Drained(Finished(s, id, ending), immediate)
    case _ => s
  }

  predicate CanDequeue(s: State, id: Id) {
    id.text != "" && s.current != Some(id) && id in s.queue
  }

  function DequeuedBy(s: State, id: Id): State {
    if CanDequeue(s, id) then Resolved(s, id, Dequeued) else s
  }

  /** The caller goes away. */
  function Forsaken(s: State, id: Id): State {
    if id in s.futures && s.futures[id] == Waiting then s.(futures := s.futures[id := Abandoned]) else s
  }

  class Kernel {
    var queue: seq<Id>
    var current: Option<Id>
    var drainer: Drainer
    var pending: set<Id>
    var futures: map<Id, Future>
    ghost var arrivals: seq<Id>
    ghost var started: seq<Id>
    ghost var outcomes: seq<(Id, Fate)>

    ghost function View(): State
      reads this
    {
      State(queue, current, drainer, pending, futures, arrivals, started, outcomes)
    }

    /** Boot with the backlog a previous run left. */
    constructor (backlog: seq<Id>)
      ensures View() == Rebooted(backlog)
    {
      queue, current, pending, futures := backlog, None, {}, map[];
      drainer := if backlog != [] then Scheduled else Absent;
      arrivals, started, outcomes := backlog, [], [];
    }

    method EnsureDrainer()
      modifies this`drainer
      ensures drainer == Ensured(old(drainer))
    {
      if drainer == Absent || drainer == Done { drainer := Scheduled; }
    }

    /** `change_request` and its siblings, up to the await on the future. */
    method ChangeRequest(id: Id)
      modifies this
      ensures View() == Enqueued(old(View()), id, true)
    {
      queue := queue + [id];
      arrivals := arrivals + [id];
      futures := futures[id := Waiting];
      pending := pending + {id};
      EnsureDrainer();
    }

    /** A trigger-fired change: nobody waits for it. */
    method EnqueueAutonomous(id: Id)
      modifies this
      ensures View() == Enqueued(old(View()), id, false)
    {
      queue := queue + [id];
      arrivals := arrivals + [id];
      EnsureDrainer();
    }

    method Resolve(id: Id, fate: Fate)
      modifies this
      ensures View() == Resolved(old(View()), id, fate)
    {
      queue := Without(queue, id);
      if id in pending {
        pending := pending - {id};
        if id in futures && futures[id] == Waiting { futures := futures[id := Answered(fate)]; }
      }
      outcomes := outcomes + [(id, fate)];
    }

    /** The drain loop, entered at its head. */
    method DrainQueue(immediate: seq<Ending>)
      modifies this
      ensures View() == Drained(old(View()), immediate)
    {
      var rest := immediate;
      while true
        invariant Drained(View(), rest) == Drained(old(View()), immediate)
        decreases |rest|
      {
        if queue == [] {
          drainer := Done;
          return;
        }
        var id := queue[0];
        current := Some(id);
        drainer := Running(id);
        started := started + [id];
        if rest == [] { return; }
        if rest[0].cleared { current := None; }
        Resolve(id, Ran(rest[0].result));
        rest := rest[1..];
      }
    }

    /** The event loop resumes the drainer; `ending` ends the task it was suspended in. */
    method Resume(ending: Ending, immediate: seq<Ending>)
      modifies this
      ensures View() == Resumed(old(View()), ending, immediate)
    {
      if drainer.Running? {
        if ending.cleared { current := None; }
        Resolve(drainer.id, Ran(ending.result));
        DrainQueue(immediate);
      } else if drainer == Scheduled {
        DrainQueue(immediate);
      }
    }

    /** Remove a task that has not started. */
    method Dequeue(id: Id) returns (ok: bool)
      modifies this
      ensures ok == CanDequeue(old(View()), id)
      ensures View() == DequeuedBy(old(View()), id)
    {
      if id.text == "" { return false; }
      if current == Some(id) { return false; }
      if id !in queue { return false; }
      Resolve(id, Dequeued);
      return true;
    }
  }

  function Rebooted(backlog: seq<Id>): State {
    State(backlog, None, if backlog != [] then Scheduled else Absent, {}, map[], backlog, [], [])
  }
}
