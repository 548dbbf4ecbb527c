/** Every interleaving of requests, drainer turns and dequeues keeps arrival order, loses no task,
    resolves each once, and never strands the backlog. */
module TaskQueueLaws {
  import opened Wrappers
  import opened TaskQueue

  predicate Distinct(s: seq<Id>) {
    forall i, j | 0 <= i < j < |s| :: s[i] != s[j]
  }

  /** The ids that were run, and those that were dequeued, in order. */
  function RanIds(outcomes: seq<(Id, Fate)>): seq<Id> {
    if outcomes == [] then []
    else
      var last := outcomes[|outcomes| - 1];
      RanIds(outcomes[..|outcomes| - 1]) + if last.1.Ran? then [last.0] else []
  }

  function DequeuedIds(outcomes: seq<(Id, Fate)>): seq<Id> {
    if outcomes == [] then []
    else
      var last := outcomes[|outcomes| - 1];
      DequeuedIds(outcomes[..|outcomes| - 1]) + if last.1.Dequeued? then [last.0] else []
  }

  /** The arrivals that were not dequeued. */
  function Kept(arrivals: seq<Id>, gone: seq<Id>): seq<Id> {
    if arrivals == [] then []
    else
      var last := arrivals[|arrivals| - 1];
      Kept(arrivals[..|arrivals| - 1], gone) + if last in gone then [] else [last]
  }

  /** The tasks run so far followed by the backlog are the arrivals in order, short of the dequeued. */
  ghost predicate InOrder(s: State) {
    && Distinct(s.arrivals)
    && Kept(s.arrivals, DequeuedIds(s.outcomes)) == RanIds(s.outcomes) + s.queue
    && Distinct(DequeuedIds(s.outcomes))
    && (forall id | id in DequeuedIds(s.outcomes) :: id in s.arrivals)
  }

  ghost predicate FutureOk(s: State, id: Id) {
    id in s.futures ==>
      && id in s.arrivals && (id in s.pending <==> id in s.queue)
      && (id !in s.queue ==> s.futures[id] != Waiting)
      && (s.futures[id].Answered? ==> id !in s.queue && (id, s.futures[id].fate) in s.outcomes)
  }

  /** Between two tasks of the drainer. */
  ghost predicate Settled(s: State) {
    InOrder(s) && (forall id :: FutureOk(s, id)) && s.started == RanIds(s.outcomes)
  }

  /** At an await point: the running task is the current one and the head of the queue, and a
      non-empty queue has a live drainer. */
  ghost predicate Inv(s: State) {
    && InOrder(s) && (forall id :: FutureOk(s, id))
    && (if s.drainer.Running?
        then s.queue != [] && s.queue[0] == s.drainer.id && s.current == Some(s.drainer.id)
             && s.started == RanIds(s.outcomes) + [s.drainer.id]
        else s.started == RanIds(s.outcomes) && (s.queue != [] ==> s.drainer == Scheduled))
  }

  // ---- sequences -------------------------------------------------------------------------

  lemma {:induction false} WithoutAppend(a: seq<Id>, b: seq<Id>, id: Id)
    ensures Without(a + b, id) == Without(a, id) + Without(b, id)
  {
    if a == [] {
      assert a + b == b;
    } else {
      assert (a + b)[1..] == a[1..] + b;
      WithoutAppend(a[1..], b, id);
    }
  }

  lemma {:induction false} WithoutAbsent(s: seq<Id>, id: Id)
    requires id !in s
    ensures Without(s, id) == s
  {
    if s != [] { WithoutAbsent(s[1..], id); }
  }

  lemma {:induction false} WithoutMembers(s: seq<Id>, id: Id, x: Id)
    ensures x in Without(s, id) <==> x in s && x != id
  {
    if s != [] {
      WithoutMembers(s[1..], id, x);
      assert s == [s[0]] + s[1..];
    }
  }

  lemma {:induction false} KeptMembers(arrivals: seq<Id>, gone: seq<Id>, x: Id)
    ensures x in Kept(arrivals, gone) <==> x in arrivals && x !in gone
  {
    if arrivals != [] {
      KeptMembers(arrivals[..|arrivals| - 1], gone, x);
      assert arrivals == arrivals[..|arrivals| - 1] + [arrivals[|arrivals| - 1]];
    }
  }

  lemma {:induction false} KeptDistinct(arrivals: seq<Id>, gone: seq<Id>)
    requires Distinct(arrivals)
    ensures Distinct(Kept(arrivals, gone))
  {
    if arrivals != [] {
      var init, last := arrivals[..|arrivals| - 1], arrivals[|arrivals| - 1];
      KeptDistinct(init, gone);
      KeptMembers(init, gone, last);
    }
  }

  /** Dequeuing one more id takes exactly it out. */
  lemma {:induction false} KeptWithout(arrivals: seq<Id>, gone: seq<Id>, id: Id)
    ensures Kept(arrivals, gone + [id]) == Without(Kept(arrivals, gone), id)
  {
    if arrivals != [] {
      var init, last := arrivals[..|arrivals| - 1], arrivals[|arrivals| - 1];
      KeptWithout(init, gone, id);
      WithoutAppend(Kept(init, gone), if last in gone then [] else [last], id);
    }
  }

  lemma {:induction false} KeptUnchanged(arrivals: seq<Id>, gone: seq<Id>, last: Id)
    requires last !in gone
    ensures Kept(arrivals + [last], gone) == Kept(arrivals, gone) + [last]
  {
    assert (arrivals + [last])[..|arrivals|] == arrivals;
  }

  lemma OutcomesSnoc(outcomes: seq<(Id, Fate)>, id: Id, fate: Fate)
    ensures RanIds(outcomes + [(id, fate)]) == RanIds(outcomes) + if fate.Ran? then [id] else []
    ensures DequeuedIds(outcomes + [(id, fate)]) == DequeuedIds(outcomes) + if fate.Dequeued? then [id] else []
  {
    assert (outcomes + [(id, fate)])[..|outcomes|] == outcomes;
  }

  lemma DistinctParts(a: seq<Id>, b: seq<Id>)
    requires Distinct(a + b)
    ensures Distinct(a) && Distinct(b) && forall x | x in b :: x !in a
  {
    var all := a + b;
    forall i, j | 0 <= i < |a| && 0 <= j < |b| ensures a[i] != b[j] {
      assert all[i] == a[i] && all[|a| + j] == b[j];
    }
    forall i, j | 0 <= i < j < |b| ensures b[i] != b[j] {
      assert all[|a| + i] == b[i] && all[|a| + j] == b[j];
    }
    forall i, j | 0 <= i < j < |a| ensures a[i] != a[j] {
      assert all[i] == a[i] && all[j] == a[j];
    }
  }

  /** The queue and the tasks already run have no id twice or in common. */
  lemma QueueDistinct(s: State)
    requires InOrder(s)
    ensures Distinct(RanIds(s.outcomes)) && Distinct(s.queue)
    ensures forall id | id in s.queue :: id !in RanIds(s.outcomes) && id !in DequeuedIds(s.outcomes) && id in s.arrivals
  {
    var ran, gone := RanIds(s.outcomes), DequeuedIds(s.outcomes);
    KeptDistinct(s.arrivals, gone);
    DistinctParts(ran, s.queue);
    forall id | id in s.queue ensures id !in gone && id in s.arrivals {
      KeptMembers(s.arrivals, gone, id);
      assert id in ran + s.queue;
    }
  }

  // ---- steps -----------------------------------------------------------------------------

  lemma FuturesAfterResolve(s: State, id: Id, fate: Fate, x: Id)
    requires FutureOk(s, x) && id in s.queue
    ensures FutureOk(Resolved(s, id, fate), x)
  {
    WithoutMembers(s.queue, id, x);
    var r := Resolved(s, id, fate);
    assert r.outcomes == s.outcomes + [(id, fate)];
    assert forall o | o in s.outcomes :: o in r.outcomes;
    assert r.outcomes[|s.outcomes|] == (id, fate);
  }

  lemma RunKeepsOrder(s: State, id: Id, result: string)
    requires InOrder(s) && s.queue != [] && s.queue[0] == id
    ensures InOrder(Resolved(s, id, Ran(result)))
    ensures Resolved(s, id, Ran(result)).queue == s.queue[1..]
    ensures DequeuedIds(Resolved(s, id, Ran(result)).outcomes) == DequeuedIds(s.outcomes)
    ensures RanIds(Resolved(s, id, Ran(result)).outcomes) == RanIds(s.outcomes) + [id]
  {
    hide RanIds, DequeuedIds, Kept;
    OutcomesSnoc(s.outcomes, id, Ran(result));
    assert DequeuedIds(s.outcomes) + [] == DequeuedIds(s.outcomes);
    HeadLeaves(s);
    HeadMoves(RanIds(s.outcomes), s.queue);
  }

  lemma HeadMoves(ran: seq<Id>, queue: seq<Id>)
    requires queue != []
    ensures ran + queue == ran + [queue[0]] + queue[1..]
  {
  }

  lemma HeadLeaves(s: State)
    requires InOrder(s) && s.queue != []
    ensures Without(s.queue, s.queue[0]) == s.queue[1..]
  {
    hide InOrder, RanIds, DequeuedIds, Kept;
    QueueDistinct(s);
    WithoutAbsent(s.queue[1..], s.queue[0]);
  }

  lemma DequeueKeepsOrder(s: State, id: Id)
    requires InOrder(s) && id in s.queue
    ensures InOrder(Resolved(s, id, Dequeued))
    ensures RanIds(Resolved(s, id, Dequeued).outcomes) == RanIds(s.outcomes)
  {
    var ran, gone := RanIds(s.outcomes), DequeuedIds(s.outcomes);
    OutcomesSnoc(s.outcomes, id, Dequeued);
    assert ran + [] == ran;
    QueueDistinct(s);
    KeptWithout(s.arrivals, gone, id);
    WithoutAppend(ran, s.queue, id);
    WithoutAbsent(ran, id);
  }

  lemma FinishSettles(s: State, e: Ending)
    requires Inv(s) && s.drainer.Running?
    ensures Settled(Finished(s, s.drainer.id, e))
  {
    var id := s.drainer.id;
    var cleared := s.(current := if e.cleared then None else s.current);
    RunKeepsOrder(cleared, id, e.result);
    forall x ensures FutureOk(Finished(s, id, e), x) {
      assert FutureOk(s, x);
      assert FutureOk(cleared, x);
      FuturesAfterResolve(cleared, id, Ran(e.result), x);
    }
  }

  lemma StartKeepsInv(s: State)
    requires Settled(s) && s.queue != []
    ensures Inv(Started(s, s.queue[0]))
  {
    forall x ensures FutureOk(Started(s, s.queue[0]), x) { assert FutureOk(s, x); }
  }

  lemma {:induction false} DrainKeepsInv(s: State, immediate: seq<Ending>)
    requires Settled(s)
    ensures Inv(Drained(s, immediate))
    decreases |immediate|
  {
    if s.queue == [] {
      forall x ensures FutureOk(Drained(s, immediate), x) { assert FutureOk(s, x); }
    } else {
      StartKeepsInv(s);
      var running := Started(s, s.queue[0]);
      if immediate != [] {
        FinishSettles(running, immediate[0]);
        DrainKeepsInv(Finished(running, s.queue[0], immediate[0]), immediate[1..]);
      }
    }
  }

  datatype Step =
    | Request(id: Id, awaited: bool)
    | DrainerTurn(ending: Ending, immediate: seq<Ending>)
    | Dequeue(id: Id)
    | CallerLeaves(id: Id)

  /** A new request draws a fresh id. */
  predicate Enabled(s: State, step: Step) {
    step.Request? ==> step.id !in s.arrivals
  }

  function Next(s: State, step: Step): State {
    match step
    case Request(id, awaited) => Enqueued(s, id, awaited)
    case DrainerTurn(ending, immediate) => Resumed(s, ending, immediate)
    case Dequeue(id) => DequeuedBy(s, id)
    case CallerLeaves(id) => Forsaken(s, id)
  }

  lemma RequestKeepsInv(s: State, id: Id, awaited: bool)
    requires Inv(s) && id !in s.arrivals
    ensures Inv(Enqueued(s, id, awaited))
  {
    hide InOrder;
    RequestKeepsOrder(s, id, awaited);
    forall x ensures FutureOk(Enqueued(s, id, awaited), x) {
      assert FutureOk(s, x);
      if x == id { QueueDistinct(s); }
    }
  }

  lemma RequestKeepsOrder(s: State, id: Id, awaited: bool)
    requires InOrder(s) && id !in s.arrivals
    ensures InOrder(Enqueued(s, id, awaited))
  {
    hide RanIds, DequeuedIds, Kept;
    var gone := DequeuedIds(s.outcomes);
    KeptUnchanged(s.arrivals, gone, id);
    assert RanIds(s.outcomes) + (s.queue + [id]) == RanIds(s.outcomes) + s.queue + [id];
    DistinctSnoc(s.arrivals, id);
  }

  lemma DistinctSnoc(s: seq<Id>, id: Id)
    requires Distinct(s) && id !in s
    ensures Distinct(s + [id]) && (forall x | x in s :: x in s + [id])
  {
    assert forall i | 0 <= i < |s| :: s[i] in s;
  }

  lemma DequeueKeepsInv(s: State, id: Id)
    requires Inv(s)
    ensures Inv(DequeuedBy(s, id))
  {
    if CanDequeue(s, id) {
      DequeueKeepsOrder(s, id);
      forall x ensures FutureOk(DequeuedBy(s, id), x) {
        assert FutureOk(s, x);
        FuturesAfterResolve(s, id, Dequeued, x);
      }
    }
  }

  lemma StepKeepsInv(s: State, step: Step)
    requires Inv(s) && Enabled(s, step)
    ensures Inv(Next(s, step))
  {
    match step
    case Request(id, awaited) => RequestKeepsInv(s, id, awaited);
    case DrainerTurn(ending, immediate) =>
      if s.drainer.Running? {
        FinishSettles(s, ending);
        DrainKeepsInv(Finished(s, s.drainer.id, ending), immediate);
      } else if s.drainer == Scheduled {
        DrainKeepsInv(s, immediate);
      }
    case Dequeue(id) => DequeueKeepsInv(s, id);
    case CallerLeaves(id) =>
      forall x ensures FutureOk(Forsaken(s, id), x) { assert FutureOk(s, x); }
  }

  ghost predicate Runnable(s: State, steps: seq<Step>) {
    steps == [] ||
    (Runnable(s, steps[..|steps| - 1]) && Enabled(Run(s, steps[..|steps| - 1]), steps[|steps| - 1]))
  }

  function Run(s: State, steps: seq<Step>): State {
    if steps == [] then s else Next(Run(s, steps[..|steps| - 1]), steps[|steps| - 1])
  }

  lemma {:induction false} RunKeepsInv(s: State, steps: seq<Step>)
    requires Inv(s) && Runnable(s, steps)
    ensures Inv(Run(s, steps))
  {
    if steps != [] {
      RunKeepsInv(s, steps[..|steps| - 1]);
      StepKeepsInv(Run(s, steps[..|steps| - 1]), steps[|steps| - 1]);
    }
  }

  lemma BootIsInv(backlog: seq<Id>)
    requires Distinct(backlog)
    ensures Inv(Rebooted(backlog))
  {
    KeptNone(backlog);
  }

  lemma {:induction false} KeptNone(arrivals: seq<Id>)
    ensures Kept(arrivals, []) == arrivals
  {
    if arrivals != [] { KeptNone(arrivals[..|arrivals| - 1]); }
  }

  // ---- what the invariant says -----------------------------------------------------------

  /** In every interleaving tasks start in arrival order and at most once; the running task heads
      the queue and cannot be dequeued; a non-empty queue has a live drainer. */
  lemma TasksStartInOrder(backlog: seq<Id>, steps: seq<Step>)
    requires Distinct(backlog) && Runnable(Rebooted(backlog), steps)
    ensures var s := Run(Rebooted(backlog), steps);
            && s.started <= Kept(s.arrivals, DequeuedIds(s.outcomes))
            && Distinct(s.started)
            && (s.drainer.Running? ==> s.queue != [] && s.queue[0] == s.drainer.id && !CanDequeue(s, s.drainer.id))
            && (s.queue != [] ==> s.drainer == Scheduled || s.drainer.Running?)
  {
    hide InOrder, FutureOk, Kept, RanIds, DequeuedIds, Run, Runnable, Rebooted;
    BootIsInv(backlog);
    RunKeepsInv(Rebooted(backlog), steps);
    StartedInOrder(Run(Rebooted(backlog), steps));
  }

  lemma StartedInOrder(s: State)
    requires Inv(s)
    ensures s.started <= Kept(s.arrivals, DequeuedIds(s.outcomes)) && Distinct(s.started)
  {
    hide FutureOk, RanIds, DequeuedIds, Kept;
    KeptDistinct(s.arrivals, DequeuedIds(s.outcomes));
    assert s.started == (RanIds(s.outcomes) + s.queue)[..|s.started|];
  }

  function Times(outcomes: seq<(Id, Fate)>, id: Id): nat {
    if outcomes == [] then 0
    else Times(outcomes[..|outcomes| - 1], id) + if outcomes[|outcomes| - 1].0 == id then 1 else 0
  }

  function Count(s: seq<Id>, id: Id): nat {
    if s == [] then 0 else Count(s[..|s| - 1], id) + if s[|s| - 1] == id then 1 else 0
  }

  lemma CountSnoc(s: seq<Id>, x: Id, id: Id)
    ensures Count(s + [x], id) == Count(s, id) + if x == id then 1 else 0
    ensures s + [] == s
  {
    assert (s + [x])[..|s|] == s;
  }

  lemma {:induction false} TimesSplit(outcomes: seq<(Id, Fate)>, id: Id)
    ensures Times(outcomes, id) == Count(RanIds(outcomes), id) + Count(DequeuedIds(outcomes), id)
  {
    if outcomes != [] {
      hide Count;
      var init, last := outcomes[..|outcomes| - 1], outcomes[|outcomes| - 1];
      TimesSplit(init, id);
      CountSnoc(RanIds(init), last.0, id);
      CountSnoc(DequeuedIds(init), last.0, id);
    }
  }

  lemma {:induction false} CountDistinct(s: seq<Id>, id: Id)
    requires Distinct(s)
    ensures Count(s, id) == if id in s then 1 else 0
  {
    if s != [] {
      var init := s[..|s| - 1];
      CountDistinct(init, id);
      assert s == init + [s[|s| - 1]];
      assert forall i | 0 <= i < |init| :: init[i] == s[i];
    }
  }

  /** Every id that ever arrived is either still queued, and then unresolved, or resolved exactly
      once; a caller still waiting is answered at that moment with how its task left the queue. */
  lemma EachTaskResolvedOnce(backlog: seq<Id>, steps: seq<Step>, id: Id)
    requires Distinct(backlog) && Runnable(Rebooted(backlog), steps)
    ensures var s := Run(Rebooted(backlog), steps);
            && (id in s.arrivals ==> Times(s.outcomes, id) == if id in s.queue then 0 else 1)
            && (id in s.futures && id !in s.queue && s.futures[id] != Abandoned ==>
                  s.futures[id].Answered? && (id, s.futures[id].fate) in s.outcomes)
  {
    hide Run, Runnable, Rebooted, InOrder;
    BootIsInv(backlog);
    RunKeepsInv(Rebooted(backlog), steps);
    var s := Run(Rebooted(backlog), steps);
    if id in s.arrivals { ResolvedCount(s, id); }
    assert FutureOk(s, id);
  }

  lemma ResolvedCount(s: State, id: Id)
    requires InOrder(s) && id in s.arrivals
    ensures Times(s.outcomes, id) == if id in s.queue then 0 else 1
  {
    hide RanIds, DequeuedIds, Kept, Times, Count;
    var ran, gone := RanIds(s.outcomes), DequeuedIds(s.outcomes);
    QueueDistinct(s);
    TimesSplit(s.outcomes, id);
    CountDistinct(ran, id);
    CountDistinct(gone, id);
    KeptMembers(s.arrivals, gone, id);
    assert id in ran + s.queue <==> id in ran || id in s.queue;
  }

  // ---- progress --------------------------------------------------------------------------

  function Turns(s: State, endings: seq<Ending>): State
    decreases |endings|
  {
    if endings == [] then s else Turns(Resumed(s, endings[0], []), endings[1..])
  }

  /** One turn of a live drainer finishes the running task, if any, and starts the next. */
  lemma TurnAdvances(s: State, e: Ending)
    requires Inv(s) && (s.drainer.Running? || s.drainer == Scheduled)
    ensures var t := Resumed(s, e, []);
            && Inv(t) && t.arrivals == s.arrivals
            && DequeuedIds(t.outcomes) == DequeuedIds(s.outcomes)
            && t.queue == (if s.drainer.Running? then s.queue[1..] else s.queue)
            && (if t.queue == [] then t.drainer == Done else t.drainer == Running(t.queue[0]))
  {
    hide FutureOk, RanIds, DequeuedIds, Kept, Distinct;
    StepKeepsInv(s, DrainerTurn(e, []));
    if s.drainer.Running? {
      RunKeepsOrder(s.(current := if e.cleared then None else s.current), s.drainer.id, e.result);
    }
  }

  /** Left alone, the drainer works off the whole backlog: one turn per task and one to find the
      queue empty, and every task that arrived and was not dequeued has then been run. */
  lemma {:induction false} BacklogDrains(s: State, endings: seq<Ending>)
    requires Inv(s) && s.queue != []
    requires |endings| == |s.queue| + (if s.drainer.Running? then 0 else 1)
    ensures var t := Turns(s, endings);
            && t.queue == [] && t.drainer == Done
            && RanIds(t.outcomes) == t.started == Kept(s.arrivals, DequeuedIds(s.outcomes))
    decreases |endings|
  {
    hide Resumed;
    TurnAdvances(s, endings[0]);
    var t := Resumed(s, endings[0], []);
    if t.queue != [] {
      BacklogDrains(t, endings[1..]);
    } else {
      assert endings[1..] == [] && Turns(t, []) == t;
      assert RanIds(t.outcomes) + t.queue == RanIds(t.outcomes);
    }
  }
}
