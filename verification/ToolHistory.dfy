/** The tool-message contract of a chat history: re-pairing calls with results, and cutting a history
    without breaking a pair. */
module ToolHistory {
  import opened Wrappers

  datatype Id = Id(text: string)

  datatype Role = User | Assistant | Tool | Other(name: string)

  /** `calls` holds the ids of the tool calls a message opens and `callId` the id a result answers, as text;
      an absent key is `None`, and so is an absent bookkeeping flag. */
  datatype Message = Message(role: Role, content: string, calls: seq<Option<Id>>, callId: Option<Id>,
                             partial: Option<bool>, stopped: Option<bool>)

  const NO_RESULT := "(no result recorded)"

  /** The text a call and its result are matched by. */
  function Key(id: Option<Id>): Id {
    match id
    case Some(given) => given
    case None => Id("")
  }

  function Keys(ids: seq<Option<Id>>): (keys: seq<Id>)
    ensures |keys| == |ids| && forall i | 0 <= i < |ids| :: keys[i] == Key(ids[i])
  {
    if ids == [] then [] else [Key(ids[0])] + Keys(ids[1..])
  }

  /** The ids of the calls a message opens; only an assistant opens calls. */
  function Opens(m: Message): seq<Id> {
    if m.role == Assistant then Keys(m.calls) else []
  }

  predicate Flagged(m: Message) {
    m.partial == Some(true) || m.stopped == Some(true)
  }

  /** Without the checkpoint flags, when one of them is set. */
  function Unflagged(m: Message): Message {
    if Flagged(m) then m.(partial := None, stopped := None) else m
  }

  function Placeholder(id: Id): Message {
    Message(Tool, NO_RESULT, [], Some(id), None, None)
  }

  // ---- what a provider accepts -----------------------------------------------------------

  /** The calls still unanswered after one more message, or nothing when the message breaks the
      contract: while calls are owed the next message answers the first of them, otherwise it is no
      tool message. */
  function Owed(owed: seq<Id>, m: Message): Option<seq<Id>> {
    if owed != [] then
      if m.role == Tool && Key(m.callId) == owed[0] then Some(owed[1..]) else None
    else if m.role == Tool then None
    else Some(Opens(m))
  }

  function OwedAfter(owed: seq<Id>, msgs: seq<Message>): Option<seq<Id>>
    decreases |msgs|
  {
    if msgs == [] then Some(owed)
    else match Owed(owed, msgs[0])
      case None => None
      case Some(rest) => OwedAfter(rest, msgs[1..])
  }

  /** Every call is answered at once, in order, by a result with its id, and there is no other result. */
  predicate WellPaired(msgs: seq<Message>) {
    OwedAfter([], msgs) == Some([])
  }

  // ---- what sanitizing must keep ---------------------------------------------------------

  function Spoken(msgs: seq<Message>): seq<Message> {
    if msgs == [] then []
    else (if msgs[0].role == Tool then [] else [msgs[0]]) + Spoken(msgs[1..])
  }

  /** The messages other than tool results, without checkpoint flags. */
  function Cleaned(msgs: seq<Message>): seq<Message> {
    if msgs == [] then []
    else (if msgs[0].role == Tool then [] else [Unflagged(msgs[0])]) + Cleaned(msgs[1..])
  }

  function Results(msgs: seq<Message>, id: Id): seq<Message> {
    if msgs == [] then []
    else (if msgs[0].role == Tool && Key(msgs[0].callId) == id then [msgs[0]] else []) + Results(msgs[1..], id)
  }

  function Calls(msgs: seq<Message>): seq<Id> {
    if msgs == [] then [] else Opens(msgs[0]) + Calls(msgs[1..])
  }

  function Placeholders(id: Id, n: nat): seq<Message> {
    seq(n, i => Placeholder(id))
  }

  /** What `n` calls with this id receive: the recorded results first come first served, then
      placeholders. */
  function Answers(results: seq<Message>, id: Id, n: nat): seq<Message> {
    if n <= |results| then results[..n] else results + Placeholders(id, n - |results|)
  }

  ghost predicate Answered(msgs: seq<Message>, out: seq<Message>, id: Id) {
    Results(out, id) == Answers(Results(msgs, id), id, multiset(Calls(msgs))[id])
  }

  ghost predicate Sanitized(msgs: seq<Message>, out: seq<Message>) {
    WellPaired(out) && Spoken(out) == Cleaned(msgs) && forall id :: Answered(msgs, out, id)
  }

  // ---- appending -------------------------------------------------------------------------

  lemma {:induction false} OwedAppend(owed: seq<Id>, a: seq<Message>, b: seq<Message>)
    ensures OwedAfter(owed, a + b)
         == match OwedAfter(owed, a) case None => None case Some(rest) => OwedAfter(rest, b)
    decreases |a|
  {
    if a == [] {
      assert a + b == b;
    } else {
      assert (a + b)[1..] == a[1..] + b;
      if Owed(owed, a[0]).Some? { OwedAppend(Owed(owed, a[0]).value, a[1..], b); }
    }
  }

  lemma {:induction false} SpokenSnoc(msgs: seq<Message>, m: Message)
    ensures Spoken(msgs + [m]) == Spoken(msgs) + if m.role == Tool then [] else [m]
  {
    if msgs == [] {
      assert msgs + [m] == [m] && [m][1..] == [];
    } else {
      assert (msgs + [m])[1..] == msgs[1..] + [m];
      SpokenSnoc(msgs[1..], m);
      var head := if msgs[0].role == Tool then [] else [msgs[0]];
      assert head + (Spoken(msgs[1..]) + if m.role == Tool then [] else [m])
          == Spoken(msgs) + if m.role == Tool then [] else [m];
    }
  }

  lemma {:induction false} CleanedSnoc(msgs: seq<Message>, m: Message)
    ensures Cleaned(msgs + [m]) == Cleaned(msgs) + if m.role == Tool then [] else [Unflagged(m)]
  {
    hide Unflagged;
    if msgs == [] {
      assert msgs + [m] == [m] && [m][1..] == [];
    } else {
      assert (msgs + [m])[1..] == msgs[1..] + [m];
      CleanedSnoc(msgs[1..], m);
      var head := if msgs[0].role == Tool then [] else [Unflagged(msgs[0])];
      assert head + (Cleaned(msgs[1..]) + if m.role == Tool then [] else [Unflagged(m)])
          == Cleaned(msgs) + if m.role == Tool then [] else [Unflagged(m)];
    }
  }

  lemma {:induction false} ResultsSnoc(msgs: seq<Message>, m: Message, id: Id)
    ensures Results(msgs + [m], id) == Results(msgs, id) + if m.role == Tool && Key(m.callId) == id then [m] else []
  {
    if msgs == [] {
      assert msgs + [m] == [m];
    } else {
      assert (msgs + [m])[1..] == msgs[1..] + [m];
      ResultsSnoc(msgs[1..], m, id);
    }
  }

  lemma {:induction false} CallsSnoc(msgs: seq<Message>, m: Message)
    ensures Calls(msgs + [m]) == Calls(msgs) + Opens(m)
  {
    if msgs == [] {
      assert msgs + [m] == [m];
    } else {
      assert (msgs + [m])[1..] == msgs[1..] + [m];
      CallsSnoc(msgs[1..], m);
    }
  }

  lemma OwedSnoc(msgs: seq<Message>, m: Message, owed: seq<Id>)
    requires OwedAfter([], msgs) == Some(owed) && Owed(owed, m).Some?
    ensures OwedAfter([], msgs + [m]) == Owed(owed, m)
  {
    OwedAppend([], msgs, [m]);
    assert OwedAfter(owed, [m]) == OwedAfter(Owed(owed, m).value, [m][1..]);
  }

  // ---- the pools -------------------------------------------------------------------------

  function Pooled(pool: map<Id, seq<Message>>, id: Id): seq<Message> {
    if id in pool then pool[id] else []
  }

  /** After `n` calls with this id were served from its pool. */
  ghost predicate Served(results: seq<Message>, pooled: seq<Message>, given: seq<Message>, id: Id, n: nat) {
    && given == Answers(results, id, n)
    && pooled == if n <= |results| then results[n..] else []
  }

  lemma ServeOne(results: seq<Message>, pooled: seq<Message>, given: seq<Message>, id: Id, n: nat)
    requires Served(results, pooled, given, id, n)
    ensures pooled != [] ==> Served(results, pooled[1..], given + [pooled[0]], id, n + 1)
    ensures pooled == [] ==> Served(results, [], given + [Placeholder(id)], id, n + 1)
  {
    if n < |results| {
      assert results[..n + 1] == results[..n] + [results[n]];
    } else if n > |results| {
      assert Placeholders(id, n + 1 - |results|) == Placeholders(id, n - |results|) + [Placeholder(id)];
      assert results + Placeholders(id, n - |results|) + [Placeholder(id)]
          == results + Placeholders(id, n + 1 - |results|);
    } else {
      assert results[..n] == results;
      assert Placeholders(id, 1) == [Placeholder(id)];
    }
  }

  ghost predicate ServedFrom(msgs: seq<Message>, pool: map<Id, seq<Message>>, out: seq<Message>,
                             asked: seq<Id>, id: Id)
  {
    Served(Results(msgs, id), Pooled(pool, id), Results(out, id), id, multiset(asked)[id])
  }

  ghost predicate AllServed(msgs: seq<Message>, pool: map<Id, seq<Message>>, out: seq<Message>, asked: seq<Id>) {
    forall id :: ServedFrom(msgs, pool, out, asked, id)
  }

  ghost predicate Filled(pool: map<Id, seq<Message>>, msgs: seq<Message>) {
    forall id :: Pooled(pool, id) == Results(msgs, id)
  }

  lemma PoolResult(msgs: seq<Message>, i: nat, id: Id)
    requires i < |msgs|
    ensures Results(msgs[..i + 1], id)
         == Results(msgs[..i], id) + if msgs[i].role == Tool && Key(msgs[i].callId) == id then [msgs[i]] else []
  {
    assert msgs[..i + 1] == msgs[..i] + [msgs[i]];
    ResultsSnoc(msgs[..i], msgs[i], id);
  }

  /** One message of the first pass. */
  lemma PoolOne(msgs: seq<Message>, i: nat, before: map<Id, seq<Message>>, pool: map<Id, seq<Message>>)
    requires i < |msgs| && Filled(before, msgs[..i])
    requires var id := Key(msgs[i].callId);
             pool == if msgs[i].role == Tool then before[id := Pooled(before, id) + [msgs[i]]] else before
    ensures Filled(pool, msgs[..i + 1])
  {
    hide Results;
    forall id ensures Pooled(pool, id) == Results(msgs[..i + 1], id) {
      PoolResult(msgs, i, id);
      assert Pooled(before, id) == Results(msgs[..i], id);
    }
  }

  lemma {:induction false} ResultsHaveId(msgs: seq<Message>, id: Id)
    ensures forall m | m in Results(msgs, id) :: m.role == Tool && Key(m.callId) == id
  {
    if msgs != [] { ResultsHaveId(msgs[1..], id); }
  }

  /** What is left in a pool is part of what was recorded. */
  lemma PooledHasId(msgs: seq<Message>, pool: map<Id, seq<Message>>, out: seq<Message>, asked: seq<Id>, tid: Id)
    requires ServedFrom(msgs, pool, out, asked, tid)
    ensures forall m | m in Pooled(pool, tid) :: m.role == Tool && Key(m.callId) == tid
  {
    hide Answers;
    ResultsHaveId(msgs, tid);
  }

  function NextAnswer(pool: map<Id, seq<Message>>, id: Id): Message {
    if Pooled(pool, id) != [] then Pooled(pool, id)[0] else Placeholder(id)
  }

  function Taken(pool: map<Id, seq<Message>>, id: Id): map<Id, seq<Message>> {
    if Pooled(pool, id) != [] then pool[id := pool[id][1..]] else pool
  }

  /** Answering one call keeps the account of an id. */
  lemma AnswerOne(msgs: seq<Message>, pool: map<Id, seq<Message>>, out: seq<Message>, asked: seq<Id>, tid: Id, id: Id)
    requires ServedFrom(msgs, pool, out, asked, id)
    requires NextAnswer(pool, tid).role == Tool && Key(NextAnswer(pool, tid).callId) == tid
    ensures ServedFrom(msgs, Taken(pool, tid), out + [NextAnswer(pool, tid)], asked + [tid], id)
  {
    hide Results, Served;
    ResultsSnoc(out, NextAnswer(pool, tid), id);
    if id == tid {
      ServeOne(Results(msgs, id), Pooled(pool, tid), Results(out, id), id, multiset(asked)[id]);
    } else {
      assert Results(out, id) + [] == Results(out, id);
    }
  }

  lemma AnswerOneForAll(msgs: seq<Message>, pool: map<Id, seq<Message>>, out: seq<Message>, asked: seq<Id>, tid: Id)
    requires AllServed(msgs, pool, out, asked)
    ensures AllServed(msgs, Taken(pool, tid), out + [NextAnswer(pool, tid)], asked + [tid])
    ensures NextAnswer(pool, tid).role == Tool && Key(NextAnswer(pool, tid).callId) == tid
  {
    hide ServedFrom;
    PooledHasId(msgs, pool, out, asked, tid);
    forall id ensures ServedFrom(msgs, Taken(pool, tid), out + [NextAnswer(pool, tid)], asked + [tid], id) {
      AnswerOne(msgs, pool, out, asked, tid, id);
    }
  }

  /** A message that is no result changes no account. */
  lemma SpeakOne(msgs: seq<Message>, pool: map<Id, seq<Message>>, out: seq<Message>, asked: seq<Id>, m: Message)
    requires AllServed(msgs, pool, out, asked) && m.role != Tool
    ensures AllServed(msgs, pool, out + [m], asked)
  {
    forall id ensures ServedFrom(msgs, pool, out + [m], asked, id) {
      assert ServedFrom(msgs, pool, out, asked, id);
      ResultsSnoc(out, m, id);
      assert Results(out, id) + [] == Results(out, id);
    }
  }

  lemma NothingServed(msgs: seq<Message>, pool: map<Id, seq<Message>>)
    requires Filled(pool, msgs)
    ensures AllServed(msgs, pool, [], [])
  {
    forall id ensures ServedFrom(msgs, pool, [], [], id) {
      assert Pooled(pool, id) == Results(msgs, id);
    }
  }

  /** One turn of the loop leaves behind what the next one starts from. */
  lemma NextMessage(msgs: seq<Message>, i: nat)
    requires i < |msgs|
    ensures var m, done := msgs[i], msgs[..i];
            && Cleaned(msgs[..i + 1]) == Cleaned(done) + (if m.role == Tool then [] else [Unflagged(m)])
            && Calls(msgs[..i + 1]) == Calls(done) + Opens(Unflagged(m))
  {
    assert msgs[..i + 1] == msgs[..i] + [msgs[i]];
    CallsSnoc(msgs[..i], msgs[i]);
    CleanedSnoc(msgs[..i], msgs[i]);
  }

  lemma SayOne(out: seq<Message>, m: Message)
    requires OwedAfter([], out) == Some([]) && m.role != Tool
    ensures OwedAfter([], out + [m]) == Some(Opens(m)) && Spoken(out + [m]) == Spoken(out) + [m]
  {
    SpokenSnoc(out, m);
    OwedSnoc(out, m, []);
  }

  /** `_sanitize_history`. */
  method SanitizeHistory(msgs: seq<Message>) returns (out: seq<Message>)
    ensures Sanitized(msgs, out)
  {
    hide AllServed, OwedAfter, Cleaned, Spoken, Calls, Opens, Answered;
    var pool := FillPools(msgs);
    NothingServed(msgs, pool);
    out := [];
    assert OwedAfter([], []) == Some([]) && Spoken([]) == Cleaned(msgs[..0]) && Calls(msgs[..0]) == [] by {
      Nothing(msgs);
    }
    for i := 0 to |msgs|
      invariant Spoken(out) == Cleaned(msgs[..i]) && OwedAfter([], out) == Some([])
      invariant AllServed(msgs, pool, out, Calls(msgs[..i]))
    {
      NextMessage(msgs, i);
      if msgs[i].role != Tool {
        var m := Unflagged(msgs[i]);
        SpeakOne(msgs, pool, out, Calls(msgs[..i]), m);
        SayOne(out, m);
        out := out + [m];
        if m.role == Assistant {
          pool, out := AnswerCalls(msgs, m, pool, out, Calls(msgs[..i]));
        } else {
          OpensNothing(m);
          NoMore(Calls(msgs[..i]));
        }
      } else {
        OpensNothing(msgs[i]);
        NoMore(Calls(msgs[..i]));
      }
    }
    assert msgs[..|msgs|] == msgs;
    AllAnswered(msgs, pool, out);
  }

  lemma Nothing(msgs: seq<Message>)
    ensures OwedAfter([], []) == Some([]) && Spoken([]) == Cleaned(msgs[..0]) && Calls(msgs[..0]) == []
  {
  }

  lemma OpensNothing(m: Message)
    requires m.role != Assistant
    ensures Opens(m) == [] && Opens(Unflagged(m)) == []
  {
  }

  lemma NoMore(ids: seq<Id>)
    ensures ids + [] == ids
  {
  }

  lemma AllAnswered(msgs: seq<Message>, pool: map<Id, seq<Message>>, out: seq<Message>)
    requires AllServed(msgs, pool, out, Calls(msgs))
    ensures forall id :: Answered(msgs, out, id)
  {
    forall id ensures Answered(msgs, out, id) {
      assert ServedFrom(msgs, pool, out, Calls(msgs), id);
    }
  }

  /** The first pass: the results of each id, in the order they were recorded. */
  method FillPools(msgs: seq<Message>) returns (pool: map<Id, seq<Message>>)
    ensures Filled(pool, msgs)
  {
    pool := map[];
    assert msgs[..0] == [];
    for i := 0 to |msgs|
      invariant Filled(pool, msgs[..i])
    {
      hide Filled;
      ghost var before := pool;
      if msgs[i].role == Tool {
        var id := Key(msgs[i].callId);
        pool := pool[id := Pooled(pool, id) + [msgs[i]]];
      }
      PoolOne(msgs, i, before, pool);
    }
    assert msgs[..|msgs|] == msgs;
  }

  /** The inner loop: one answer per call of the assistant message just emitted. */
  method AnswerCalls(ghost msgs: seq<Message>, m: Message, before: map<Id, seq<Message>>, said: seq<Message>,
                     ghost asked: seq<Id>)
    returns (pool: map<Id, seq<Message>>, out: seq<Message>)
    requires m.role == Assistant && OwedAfter([], said) == Some(Opens(m))
    requires AllServed(msgs, before, said, asked)
    ensures OwedAfter([], out) == Some([]) && Spoken(out) == Spoken(said)
    ensures AllServed(msgs, pool, out, asked + Opens(m))
  {
    hide AllServed, OwedAfter, Spoken, Opens, NextAnswer, Taken;
    pool, out := before, said;
    ghost var opens := Opens(m);
    OpensEach(m);
    NoMore(asked);
    for j := 0 to |m.calls|
      invariant OwedAfter([], out) == Some(opens[j..]) && Spoken(out) == Spoken(said)
      invariant AllServed(msgs, pool, out, asked + opens[..j])
    {
      var tid := Key(m.calls[j]);
      OneCall(opens, j, asked);
      AnswerOneForAll(msgs, pool, out, asked + opens[..j], tid);
      AnswerOwed(out, NextAnswer(pool, tid), opens[j..]);
      NextIs(pool, tid);
      if Pooled(pool, tid) != [] {
        out := out + [pool[tid][0]];
        pool := pool[tid := pool[tid][1..]];
      } else {
        out := out + [Placeholder(tid)];
      }
    }
    assert opens[|opens|..] == [] && opens[..|opens|] == opens;
  }

  lemma NextIs(pool: map<Id, seq<Message>>, id: Id)
    ensures Pooled(pool, id) != [] ==>
      id in pool && pool[id] != [] && NextAnswer(pool, id) == pool[id][0]
      && Taken(pool, id) == pool[id := pool[id][1..]]
    ensures Pooled(pool, id) == [] ==> NextAnswer(pool, id) == Placeholder(id) && Taken(pool, id) == pool
  {
  }

  lemma OpensEach(m: Message)
    requires m.role == Assistant
    ensures |Opens(m)| == |m.calls| && forall j | 0 <= j < |m.calls| :: Opens(m)[j] == Key(m.calls[j])
    ensures Opens(m)[..0] == [] && Opens(m)[0..] == Opens(m)
  {
  }

  lemma OneCall(opens: seq<Id>, j: nat, asked: seq<Id>)
    requires j < |opens|
    ensures opens[j..] == [opens[j]] + opens[j + 1..] && asked + opens[..j + 1] == asked + opens[..j] + [opens[j]]
  {
  }

  lemma AnswerOwed(out: seq<Message>, answer: Message, owed: seq<Id>)
    requires owed != [] && OwedAfter([], out) == Some(owed) && answer.role == Tool && Key(answer.callId) == owed[0]
    ensures OwedAfter([], out + [answer]) == Some(owed[1..]) && Spoken(out + [answer]) == Spoken(out)
  {
    OwedSnoc(out, answer, owed);
    SpokenSnoc(out, answer);
  }

  // ---- what the contract implies ---------------------------------------------------------

  /** The messages start with one result per owed call, in order, and then no result. */
  predicate StartsWithAnswers(owed: seq<Id>, msgs: seq<Message>) {
    && |owed| <= |msgs|
    && (forall j | 0 <= j < |owed| :: msgs[j].role == Tool && Key(msgs[j].callId) == owed[j])
    && (|owed| < |msgs| ==> msgs[|owed|].role != Tool)
  }

  lemma {:induction false} OwedAreNext(owed: seq<Id>, msgs: seq<Message>)
    requires OwedAfter(owed, msgs) == Some([])
    ensures StartsWithAnswers(owed, msgs)
    decreases |msgs|
  {
    if owed != [] {
      OwedAreNext(owed[1..], msgs[1..]);
      forall j | 1 <= j < |owed| ensures msgs[j].role == Tool && Key(msgs[j].callId) == owed[j] {
        assert msgs[1..][j - 1] == msgs[j] && owed[1..][j - 1] == owed[j];
      }
    }
  }

  /** Read by position: the calls a message opens are answered right behind it. */
  lemma {:induction false} PairedAt(owed: seq<Id>, msgs: seq<Message>, i: nat)
    requires OwedAfter(owed, msgs) == Some([]) && i < |msgs| && msgs[i].role != Tool
    ensures StartsWithAnswers(Opens(msgs[i]), msgs[i + 1..])
    decreases |msgs|
  {
    var rest := Owed(owed, msgs[0]).value;
    if i > 0 {
      PairedAt(rest, msgs[1..], i - 1);
      assert msgs[1..][i..] == msgs[i + 1..];
    } else {
      OwedAreNext(rest, msgs[1..]);
    }
  }

  /** A well-paired history is determined by its other messages and, per id, its results in order. */
  lemma {:induction false} PairingIsUnique(owed: seq<Id>, a: seq<Message>, b: seq<Message>)
    requires OwedAfter(owed, a) == Some([]) && OwedAfter(owed, b) == Some([])
    requires Spoken(a) == Spoken(b) && SameResults(a, b)
    ensures a == b
    decreases |a|
  {
    if a != [] && b != [] {
      if owed != [] {
        assert Results(a, owed[0])[0] == a[0] && Results(b, owed[0])[0] == b[0];
      } else {
        assert Spoken(a)[0] == a[0] && Spoken(b)[0] == b[0];
      }
      TailsAgree(a, b);
      PairingIsUnique(Owed(owed, a[0]).value, a[1..], b[1..]);
      assert a == [a[0]] + a[1..] && b == [b[0]] + b[1..];
    }
  }

  ghost predicate SameResults(a: seq<Message>, b: seq<Message>) {
    forall id :: Results(a, id) == Results(b, id)
  }

  lemma SamePrefix(head: seq<Message>, x: seq<Message>, y: seq<Message>)
    requires head + x == head + y
    ensures x == y
  {
    assert (head + x)[|head|..] == x && (head + y)[|head|..] == y;
  }

  lemma TailsAgree(a: seq<Message>, b: seq<Message>)
    requires a != [] && b != [] && a[0] == b[0] && Spoken(a) == Spoken(b) && SameResults(a, b)
    ensures Spoken(a[1..]) == Spoken(b[1..]) && SameResults(a[1..], b[1..])
  {
    hide SameResults, Results;
    SamePrefix(if a[0].role == Tool then [] else [a[0]], Spoken(a[1..]), Spoken(b[1..]));
    TailsSameResults(a, b);
  }

  lemma TailsSameResults(a: seq<Message>, b: seq<Message>)
    requires a != [] && b != [] && a[0] == b[0] && SameResults(a, b)
    ensures SameResults(a[1..], b[1..])
  {
    hide Results;
    forall id ensures Results(a[1..], id) == Results(b[1..], id) {
      TailResults(a, b, id);
    }
  }

  lemma TailResults(a: seq<Message>, b: seq<Message>, id: Id)
    requires a != [] && b != [] && a[0] == b[0] && Results(a, id) == Results(b, id)
    ensures Results(a[1..], id) == Results(b[1..], id)
  {
    SamePrefix(if a[0].role == Tool && Key(a[0].callId) == id then [a[0]] else [],
               Results(a[1..], id), Results(b[1..], id));
  }

  lemma ToolOpensNothing(m: Message)
    ensures m.role == Tool ==> Opens(m) == []
  {
  }

  /** In a well-paired history there are as many results with an id as calls with it. */
  lemma {:induction false} AsManyResultsAsCalls(owed: seq<Id>, msgs: seq<Message>, id: Id)
    requires OwedAfter(owed, msgs) == Some([])
    ensures |Results(msgs, id)| == multiset(owed)[id] + multiset(Calls(msgs))[id]
    decreases |msgs|
  {
    if msgs != [] {
      hide Opens;
      var rest := Owed(owed, msgs[0]).value;
      AsManyResultsAsCalls(rest, msgs[1..], id);
      if owed != [] {
        assert owed == [owed[0]] + owed[1..];
        ToolOpensNothing(msgs[0]);
      }
    }
  }

  lemma {:induction false} CleanedIsSpoken(msgs: seq<Message>)
    requires forall m | m in msgs && m.role != Tool :: !Flagged(m)
    ensures Cleaned(msgs) == Spoken(msgs)
  {
    if msgs != [] { CleanedIsSpoken(msgs[1..]); }
  }

  lemma {:induction false} CleanedUnflagged(msgs: seq<Message>)
    ensures forall m | m in Cleaned(msgs) :: !Flagged(m)
  {
    if msgs != [] { CleanedUnflagged(msgs[1..]); }
  }

  lemma {:induction false} SpokenMembers(msgs: seq<Message>, m: Message)
    requires m in msgs && m.role != Tool
    ensures m in Spoken(msgs)
  {
    if m != msgs[0] { SpokenMembers(msgs[1..], m); }
  }

  /** The contract leaves no choice. */
  lemma SanitizedIsUnique(msgs: seq<Message>, a: seq<Message>, b: seq<Message>)
    requires Sanitized(msgs, a) && Sanitized(msgs, b)
    ensures a == b
  {
    forall id ensures Results(a, id) == Results(b, id) {
      assert Answered(msgs, a, id) && Answered(msgs, b, id);
    }
    PairingIsUnique([], a, b);
  }

  /** An unflagged well-paired history, even one that uses an id again in a later turn, is its own
      sanitized form. */
  lemma WellPairedIsFixed(msgs: seq<Message>)
    requires WellPaired(msgs) && forall m | m in msgs && m.role != Tool :: !Flagged(m)
    ensures Sanitized(msgs, msgs)
  {
    CleanedIsSpoken(msgs);
    forall id ensures Answered(msgs, msgs, id) {
      AsManyResultsAsCalls([], msgs, id);
      assert Results(msgs, id)[..|Results(msgs, id)|] == Results(msgs, id);
    }
  }

  /** Sanitizing the outcome again changes nothing. */
  lemma SanitizeIsIdempotent(msgs: seq<Message>, once: seq<Message>, twice: seq<Message>)
    requires Sanitized(msgs, once) && Sanitized(once, twice)
    ensures twice == once
  {
    CleanedUnflagged(msgs);
    forall m | m in once && m.role != Tool ensures !Flagged(m) {
      SpokenMembers(once, m);
    }
    WellPairedIsFixed(once);
    SanitizedIsUnique(once, once, twice);
  }

  /** The message as it is sent on: itself, unless it is marked partial or stopped; then without either
      mark, present or not. */
  predicate SentAs(m: Message, sent: Message) {
    if m.partial == Some(true) || m.stopped == Some(true)
    then sent == Message(m.role, m.content, m.calls, m.callId, None, None)
    else sent == m
  }

  lemma {:induction false} CleanedIsSent(msgs: seq<Message>, sent: Message)
    requires sent in Cleaned(msgs)
    ensures exists m :: m in msgs && m.role != Tool && SentAs(m, sent)
  {
    if msgs[0].role != Tool && sent == Unflagged(msgs[0]) {
      assert msgs[0] in msgs && SentAs(msgs[0], sent);
    } else {
      CleanedIsSent(msgs[1..], sent);
      var m :| m in msgs[1..] && m.role != Tool && SentAs(m, sent);
      assert m in msgs;
    }
  }

  lemma {:induction false} ResultIsRecorded(msgs: seq<Message>, id: Id, m: Message)
    ensures m in Results(msgs, id) <==> m in msgs && m.role == Tool && Key(m.callId) == id
  {
    if msgs != [] {
      ResultIsRecorded(msgs[1..], id, m);
      assert msgs == [msgs[0]] + msgs[1..];
    }
  }

  /** Every message of a sanitized history is one that was recorded, sent on without the marks, or a result
      that was recorded, or for a call without one the text that says so. */
  lemma SanitizedIsRecorded(msgs: seq<Message>, out: seq<Message>, sent: Message)
    requires Sanitized(msgs, out) && sent in out
    ensures sent.role != Tool ==> exists m :: m in msgs && m.role != Tool && SentAs(m, sent)
    ensures sent.role == Tool ==>
              sent in msgs || sent == Message(Tool, "(no result recorded)", [], Some(Key(sent.callId)), None, None)
  {
    if sent.role != Tool {
      SpokenMembers(out, sent);
      CleanedIsSent(msgs, sent);
    } else {
      var id := Key(sent.callId);
      assert Answered(msgs, out, id);
      ResultIsRecorded(out, id, sent);
      ResultIsRecorded(msgs, id, sent);
      AnswersAre(Results(msgs, id), id, multiset(Calls(msgs))[id], sent);
    }
  }

  lemma AnswersAre(results: seq<Message>, id: Id, n: nat, m: Message)
    requires m in Answers(results, id, n)
    ensures m in results || m == Placeholder(id)
  {
  }

  // ---- cutting ---------------------------------------------------------------------------

  const MAX_RESTORED := 40

  /** `history[-cap:]` when the history is longer than `cap`: a cap of zero cuts nothing off, and a
      negative one drops that many messages from the front. */
  function LastMessages(history: seq<Message>, cap: int): (last: seq<Message>)
    ensures |last| <= |history| && last == history[|history| - |last|..]
  {
    if |history| <= cap then history
    else if cap > 0 then history[|history| - cap..]
    else if -cap <= |history| then history[-cap..]
    else []
  }

  predicate AllResults(msgs: seq<Message>) {
    forall m | m in msgs :: m.role == Tool
  }

  /** The longest end of the last `cap` messages that does not start with a result. */
  ghost predicate Bounded(history: seq<Message>, cap: int, kept: seq<Message>) {
    var last := LastMessages(history, cap);
    && |kept| <= |last| && kept == history[|history| - |kept|..]
    && (kept != [] ==> kept[0].role != Tool)
    && AllResults(history[|history| - |last|..|history| - |kept|])
  }

  /** `_bound_history`. */
  method BoundHistory(history: seq<Message>, cap: int := MAX_RESTORED) returns (kept: seq<Message>)
    ensures Bounded(history, cap, kept)
  {
    hide LastMessages, AllResults;
    kept := LastMessages(history, cap);
    ghost var from := |history| - |kept|;
    NoResults(history, from);
    while kept != [] && kept[0].role == Tool
      invariant |kept| <= |history| - from && kept == history[|history| - |kept|..]
      invariant AllResults(history[from..|history| - |kept|])
      decreases |kept|
    {
      OneMoreResult(history, from, |history| - |kept|);
      kept := kept[1..];
    }
  }

  lemma NoResults(history: seq<Message>, from: nat)
    requires from <= |history|
    ensures AllResults(history[from..from])
  {
  }

  lemma OneMoreResult(history: seq<Message>, from: nat, to: nat)
    requires from <= to < |history| && AllResults(history[from..to])
    ensures history[to..][0] == history[to] && history[to..][1..] == history[to + 1..]
    ensures history[to].role == Tool ==> AllResults(history[from..to + 1])
  {
    assert history[from..to + 1] == history[from..to] + [history[to]];
  }

  /** What is kept is the longest end of the history that is within the cap, or for a cap of zero or less
      misses that many messages, and does not start with a result. */
  lemma KeepsTheMost(history: seq<Message>, cap: int, kept: seq<Message>, n: nat)
    requires Bounded(history, cap, kept) && n <= |history|
    requires n <= if cap > 0 then cap else |history| + cap
    requires n > 0 ==> history[|history| - n].role != Tool
    ensures n <= |kept| && kept == history[|history| - |kept|..]
    ensures |kept| <= (if cap > 0 then cap else if |history| + cap > 0 then |history| + cap else 0)
    ensures kept != [] ==> kept[0].role != Tool
  {
    var last := LastMessages(history, cap);
    var dropped := history[|history| - |last|..|history| - |kept|];
    forall k | |history| - |last| <= k < |history| - |kept| ensures history[k].role == Tool {
      assert dropped[k - (|history| - |last|)] == history[k] && history[k] in dropped;
    }
  }

  /** Cutting a well-paired history leaves a well-paired one: a cut inside a group loses only the
      results left at its front. */
  lemma CutKeepsPairs(history: seq<Message>, cap: int, kept: seq<Message>)
    requires WellPaired(history) && Bounded(history, cap, kept)
    ensures WellPaired(kept)
  {
    var front := history[..|history| - |kept|];
    assert history == front + kept;
    OwedAppend([], front, kept);
  }

  /** The carried history is within its cap exactly when the cap is positive, or zero with nothing but
      results to carry, which are dropped: a cap of zero cuts nothing off. */
  lemma CapHoldsExactly(history: seq<Message>, cap: int, kept: seq<Message>)
    requires Bounded(history, cap, kept)
    ensures |kept| <= cap <==> cap >= 1 || (cap == 0 && AllResults(history))
  {
    if cap == 0 {
      assert history[0..|history|] == history;
      if kept != [] { assert kept[0] in history; }
    }
  }

  /** A well-paired history does not start with a result, so only an empty one is nothing but results. */
  lemma PairedStartsWithoutResult(history: seq<Message>)
    requires WellPaired(history) && history != []
    ensures history[0].role != Tool && !AllResults(history)
  {
    assert Owed([], history[0]).Some?;
  }
}
