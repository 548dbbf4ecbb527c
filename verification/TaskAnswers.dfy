/** What callers are told: exactly how their task ended, at the moment it leaves the queue. */
module TaskAnswers {
  import opened Wrappers
  import opened TaskQueue
  import opened TaskQueueLaws

  // ---- one turn --------------------------------------------------------------------------

  /** The endings of the tasks that finish in one turn, in the order of the queue. */
  function TurnEndings(s: State, ending: Ending, immediate: seq<Ending>): seq<Ending> {
    if s.drainer.Running? then [ending] + immediate else if s.drainer == Scheduled then immediate else []
  }

  function Least(a: nat, b: nat): nat {
    if a < b then a else b
  }

  /** The first tasks of the queue with these results. */
  function Results(queue: seq<Id>, endings: seq<Ending>): seq<(Id, Fate)> {
    if queue == [] || endings == [] then []
    else [(queue[0], Ran(endings[0].result))] + Results(queue[1..], endings[1..])
  }

  /** Each of these tasks ends with its own result. */
  ghost predicate Ended(s: State, t: State, endings: seq<Ending>) {
    && |endings| <= |s.queue|
    && t.queue == s.queue[|endings|..] && t.arrivals == s.arrivals
    && t.outcomes == s.outcomes + Results(s.queue, endings)
    && t.futures.Keys == s.futures.Keys
    && forall id :: AnswerOk(s, t, endings, id)
  }

  ghost predicate AnswerOk(s: State, t: State, endings: seq<Ending>, id: Id) {
    id in s.futures && id in t.futures ==>
      && (forall k | 0 <= k < |endings| && k < |s.queue| && s.queue[k] == id ::
            t.futures[id] == if s.futures[id] == Waiting then Answered(Ran(endings[k].result)) else s.futures[id])
      && ((forall k | 0 <= k < |endings| && k < |s.queue| :: s.queue[k] != id) ==> t.futures[id] == s.futures[id])
  }

  /** Finishing the head of the queue: it leaves with this result, which its waiting caller is told. */
  lemma HeadEnds(s: State, id: Id, e: Ending)
    requires InOrder(s) && FutureOk(s, id) && s.queue != [] && s.queue[0] == id
    ensures Ended(s, Finished(s, id, e), [e])
    ensures var t := Finished(s, id, e);
            && t.current == (if e.cleared then None else s.current)
            && t.started == s.started && t.drainer == s.drainer && t.pending == s.pending - {id}
  {
    hide InOrder;
    HeadLeaves(s);
    var t := Finished(s, id, e);
    assert Results(s.queue, [e]) == [(id, Ran(e.result))] by { assert [e][1..] == []; }
    forall x ensures AnswerOk(s, t, [e], x) {}
  }

  lemma NothingEnds(s: State)
    ensures Ended(s, s, []) && Results(s.queue, []) == []
  {
    assert s.outcomes + [] == s.outcomes;
  }

  /** One after the other. */
  lemma EndedThen(s: State, t: State, u: State, first: Ending, rest: seq<Ending>)
    requires Ended(s, t, [first]) && Ended(t, u, rest) && Distinct(s.queue)
    ensures Ended(s, u, [first] + rest)
  {
    var all := [first] + rest;
    assert all[1..] == rest && s.queue[|all|..] == s.queue[1..][|rest|..];
    assert Results(s.queue, all) == [(s.queue[0], Ran(first.result))] + Results(s.queue[1..], rest);
    assert Results(s.queue, [first]) == [(s.queue[0], Ran(first.result))] by { assert [first][1..] == []; }
    forall id ensures AnswerOk(s, u, all, id) {
      assert AnswerOk(s, t, [first], id) && AnswerOk(t, u, rest, id);
      assert forall k | 1 <= k < |all| :: s.queue[k] == t.queue[k - 1] && all[k] == rest[k - 1];
      assert forall k | 0 <= k < |rest| :: t.queue[k] == s.queue[k + 1] && rest[k] == all[k + 1];
      assert [first][0] == first;
    }
  }

  lemma SettledHead(s: State)
    requires Settled(s) && s.queue != []
    ensures InOrder(Started(s, s.queue[0])) && FutureOk(Started(s, s.queue[0]), s.queue[0]) && Distinct(s.queue)
  {
    QueueDistinct(s);
    assert FutureOk(s, s.queue[0]);
  }

  lemma SameEnds(s: State, r: State, t: State, endings: seq<Ending>)
    requires Ended(r, t, endings)
    requires s.queue == r.queue && s.arrivals == r.arrivals && s.outcomes == r.outcomes && s.futures == r.futures
    ensures Ended(s, t, endings)
  {
    forall id ensures AnswerOk(s, t, endings, id) { assert AnswerOk(r, t, endings, id); }
  }

  /** The drain loop ends the tasks that do not suspend, as far as there are any. */
  lemma {:induction false} DrainEnds(s: State, immediate: seq<Ending>)
    requires Settled(s)
    ensures Ended(s, Drained(s, immediate), immediate[..Least(|s.queue|, |immediate|)])
    ensures var t, n := Drained(s, immediate), Least(|s.queue|, |immediate|);
            && (t.queue == [] ==> t.drainer == Done)
            && (t.queue == [] && n > 0 && immediate[n - 1].cleared ==> t.current == None)
            && (t.queue == [] && n == 0 ==> t.current == s.current)
            && (t.queue == [] && n > 0 && !immediate[n - 1].cleared ==> t.current == Some(s.queue[n - 1]))
            && (t.queue != [] ==> t.drainer == Running(t.queue[0]) && t.current == Some(t.queue[0]))
    decreases |immediate|
  {
    hide Settled, InOrder, FutureOk, Ended, Finished;
    NothingEnds(s);
    if s.queue == [] {
      assert immediate[..0] == [];
      SameEnds(s, s, Drained(s, immediate), []) by { NothingEndsIn(s, immediate); }
    } else {
      var id := s.queue[0];
      var running := Started(s, id);
      SettledHead(s);
      if immediate == [] {
        assert immediate[..0] == [];
        NothingEnds(running);
        SameEnds(s, running, running, []);
      } else {
        var e := immediate[0];
        var next := Finished(running, id, e);
        HeadEnds(running, id, e);
        SameEnds(s, running, next, [e]);
        StartKeepsInv(s);
        FinishSettles(running, e);
        DrainEnds(next, immediate[1..]);
        QueueAfter(s, next, e);
        var n := Least(|s.queue|, |immediate|);
        assert immediate[..n] == [e] + immediate[1..][..n - 1];
        EndedThen(s, next, Drained(next, immediate[1..]), e, immediate[1..][..n - 1]);
      }
    }
  }

  lemma NothingEndsIn(s: State, immediate: seq<Ending>)
    requires s.queue == []
    ensures Ended(s, Drained(s, immediate), [])
  {
    assert s.outcomes + [] == s.outcomes;
  }

  lemma QueueAfter(s: State, t: State, e: Ending)
    requires Ended(s, t, [e])
    ensures s.queue != [] && t.queue == s.queue[1..]
  {
  }

  /** One turn of the drainer: as many tasks as have ended leave the queue from the front, each with its
      own ending, the suspended one's first; a caller that waits for one of them is answered with that
      result, and no other caller is told anything. Then the next task runs, or none is left. */
  lemma TurnEndsTasks(s: State, ending: Ending, immediate: seq<Ending>)
    requires Inv(s)
    ensures var t := Resumed(s, ending, immediate);
            var ended := TurnEndings(s, ending, immediate);
            && Ended(s, t, ended[..Least(|s.queue|, |ended|)])
            && (t.queue == [] != s.queue ==> |ended| >= |s.queue|)
            && (s.drainer.Running? || s.drainer == Scheduled ==>
                  if t.queue == [] then t.drainer == Done else t.drainer == Running(t.queue[0]))
            && (t.queue != [] && t.drainer.Running? ==> t.current == Some(t.queue[0]))
            && (t.queue == [] != s.queue ==>
                  t.current == if ended[|s.queue| - 1].cleared then None else Some(s.queue[|s.queue| - 1]))
  {
    hide InOrder, FutureOk, Ended, Finished, Drained;
    var ended := TurnEndings(s, ending, immediate);
    match s.drainer {
      case Scheduled => DrainEnds(s, immediate);
      case Running(id) =>
        InvHead(s);
        HeadEnds(s, id, ending);
        FinishSettles(s, ending);
        var next := Finished(s, id, ending);
        DrainEnds(next, immediate);
        QueueAfter(s, next, ending);
        var n := Least(|s.queue|, |ended|);
        assert ended[..n] == [ending] + immediate[..n - 1];
        EndedThen(s, next, Drained(next, immediate), ending, immediate[..n - 1]);
      case _ =>
        NothingEnds(s);
        assert ended[..0] == [];
    }
    EndedCount(s, Resumed(s, ending, immediate), ended[..Least(|s.queue|, |ended|)]);
  }

  lemma EndedCount(s: State, t: State, endings: seq<Ending>)
    requires Ended(s, t, endings)
    ensures |endings| <= |s.queue| && |t.queue| == |s.queue| - |endings|
  {
  }

  lemma InvHead(s: State)
    requires Inv(s) && s.drainer.Running?
    ensures InOrder(s) && FutureOk(s, s.drainer.id) && s.queue != [] && s.queue[0] == s.drainer.id && Distinct(s.queue)
  {
    QueueDistinct(s);
  }

  /** The caller of the task that the drainer was suspended in is told that task's result. */
  lemma RunningIsAnswered(s: State, ending: Ending, immediate: seq<Ending>)
    requires Inv(s) && s.drainer.Running? && s.drainer.id in s.futures && s.futures[s.drainer.id] == Waiting
    ensures var t := Resumed(s, ending, immediate);
            s.drainer.id in t.futures && t.futures[s.drainer.id] == Answered(Ran(ending.result))
  {
    hide InOrder, FutureOk, Resumed;
    TurnEndsTasks(s, ending, immediate);
    InvHead(s);
    var t, ended := Resumed(s, ending, immediate), TurnEndings(s, ending, immediate);
    assert AnswerOk(s, t, ended[..Least(|s.queue|, |ended|)], s.drainer.id);
  }

  // ---- requests, dequeues and callers that leave -----------------------------------------

  /** An awaited request has a waiting future at once; whether awaited or not, a request joins the end of
      the queue, with a live drainer, and no other caller is told anything. */
  lemma RequestWaits(s: State, id: Id, awaited: bool)
    requires Inv(s) && id !in s.arrivals
    ensures var t := Enqueued(s, id, awaited);
            && t.queue == s.queue + [id] && t.outcomes == s.outcomes && t.started == s.started && t.current == s.current
            && (awaited ==> t.futures == s.futures[id := Waiting] && id in t.pending)
            && (!awaited ==> t.futures == s.futures)
            && (t.drainer == Scheduled || t.drainer.Running?)
            && (s.drainer == Scheduled || s.drainer.Running? ==> t.drainer == s.drainer)
  {
  }

  /** A task can be taken back exactly while it is queued and does not run: it leaves, its waiting caller
      is told so, and the rest of the queue keeps its order. Else nothing changes. */
  lemma DequeueTakesBack(s: State, id: Id)
    requires Inv(s)
    ensures var t := DequeuedBy(s, id);
            && (CanDequeue(s, id) <==>
                  id.text != "" && id in s.queue && s.drainer != Running(id) && s.current != Some(id))
            && (!CanDequeue(s, id) ==> t == s)
            && (CanDequeue(s, id) ==>
                  && (exists k :: 0 <= k < |s.queue| && s.queue[k] == id && t.queue == s.queue[..k] + s.queue[k + 1..])
                  && id !in t.queue && t.outcomes == s.outcomes + [(id, TaskQueue.Dequeued)]
                  && t.futures == (if id in s.futures && s.futures[id] == Waiting
                                   then s.futures[id := Answered(TaskQueue.Dequeued)] else s.futures)
                  && t.drainer == s.drainer && t.current == s.current && t.started == s.started)
  {
    hide InOrder;
    assert FutureOk(s, id);
    QueueDistinct(s);
    if CanDequeue(s, id) {
      var k :| 0 <= k < |s.queue| && s.queue[k] == id;
      WithoutOne(s.queue, k);
      WithoutMembers(s.queue, id, id);
    }
  }

  lemma WithoutOne(queue: seq<Id>, k: nat)
    requires k < |queue| && Distinct(queue)
    ensures Without(queue, queue[k]) == queue[..k] + queue[k + 1..]
  {
    hide Without;
    var id, front, back := queue[k], queue[..k], queue[k + 1..];
    assert queue == front + ([id] + back);
    WithoutAppend(front, [id] + back, id);
    WithoutAppend([id], back, id);
    WithoutAbsent(front, id);
    WithoutAbsent(back, id);
    WithoutItself(id);
  }

  lemma WithoutItself(id: Id)
    ensures Without([id], id) == []
  {
    assert [id][1..] == [];
  }

  /** A caller that leaves is told nothing any more, and nothing else changes. */
  lemma LeavingIsSilent(s: State, id: Id)
    ensures var t := Forsaken(s, id);
            && t == s.(futures := t.futures) && t.futures.Keys == s.futures.Keys
            && (forall x | x in s.futures && x != id :: t.futures[x] == s.futures[x])
            && (id in s.futures ==> t.futures[id] == if s.futures[id] == Waiting then Abandoned else s.futures[id])
  {
  }

  // ---- runs ------------------------------------------------------------------------------

  /** In every run: the caller of the task that runs, if it waits, is told the result of that task in the
      turn that ends it, and so is each waiting caller of a further task that ends in the turn. */
  lemma AnswersAreResults(backlog: seq<Id>, steps: seq<Step>, ending: Ending, immediate: seq<Ending>, k: nat)
    requires TaskQueueLaws.Distinct(backlog) && Runnable(Rebooted(backlog), steps)
    requires var s := Run(Rebooted(backlog), steps);
             k < |s.queue| && k < |TurnEndings(s, ending, immediate)|
             && s.queue[k] in s.futures && s.futures[s.queue[k]] == Waiting
    ensures var s := Run(Rebooted(backlog), steps);
            var t := Run(Rebooted(backlog), steps + [DrainerTurn(ending, immediate)]);
            s.queue[k] in t.futures
            && t.futures[s.queue[k]] == Answered(Ran(TurnEndings(s, ending, immediate)[k].result))
  {
    hide InOrder, FutureOk, Resumed, Rebooted, Runnable;
    BootIsInv(backlog);
    RunKeepsInv(Rebooted(backlog), steps);
    var s := Run(Rebooted(backlog), steps);
    assert (steps + [DrainerTurn(ending, immediate)])[..|steps|] == steps;
    TurnEndsTasks(s, ending, immediate);
    var t, ended := Resumed(s, ending, immediate), TurnEndings(s, ending, immediate);
    assert AnswerOk(s, t, ended[..Least(|s.queue|, |ended|)], s.queue[k]);
  }
}
