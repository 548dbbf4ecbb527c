/** What the audit chain is for: a verifying log is pinned down by its last hash, the verifier
    finds the first bad line, and the writer extends what verifies. */
module AuditLaws {
  import opened Wrappers
  import opened AuditLog

  // ---- an independent reading of "the log verifies" -------------------------------------

  /** The hashed records, in file order. */
  function Chain(rows: seq<Row>): seq<Record> {
    if rows == [] then []
    else
      var last := rows[|rows| - 1].line;
      Chain(rows[..|rows| - 1]) + if last.Entry? && last.record.h.Some? then [last.record] else []
  }

  function HashBefore(chain: seq<Record>, i: nat): Mark
    requires i <= |chain|
  {
    if i == 0 || chain[i - 1].h.None? then GENESIS else chain[i - 1].h.value
  }

  /** The i-th record names its predecessor's hash and carries its own. */
  ghost predicate LinkOk(hash: Hash, chain: seq<Record>, i: int) {
    0 <= i < |chain| ==>
      && chain[i].h == Some(hash(chain[i].fields, chain[i].prev))
      && chain[i].prev == Some(HashBefore(chain, i))
  }

  ghost predicate Linked(hash: Hash, chain: seq<Record>) {
    forall i :: LinkOk(hash, chain, i)
  }

  ghost predicate LineAllowed(rows: seq<Row>, i: int) {
    0 <= i < |rows| ==>
      && !rows[i].line.Corrupt?
      && (rows[i].line.Entry? && rows[i].line.record.h.None? ==> Chain(rows[..i]) == [])
  }

  ghost predicate LinesAllowed(rows: seq<Row>) {
    forall i :: LineAllowed(rows, i)
  }

  /** Every line is a record, unhashed ones only before the chain, and the chain is linked. */
  ghost predicate WellChained(hash: Hash, rows: seq<Row>) {
    LinesAllowed(rows) && Linked(hash, Chain(rows))
  }

  lemma AllowedSnoc(rows: seq<Row>)
    requires rows != []
    ensures LinesAllowed(rows) <==> LinesAllowed(rows[..|rows| - 1]) && LineAllowed(rows, |rows| - 1)
  {
    var init := rows[..|rows| - 1];
    forall i | 0 <= i < |init| ensures LineAllowed(rows, i) <==> LineAllowed(init, i) {
      assert init[..i] == rows[..i];
    }
    if LinesAllowed(rows) {
      forall i ensures LineAllowed(init, i) { assert LineAllowed(rows, i); }
    }
    if LinesAllowed(init) && LineAllowed(rows, |rows| - 1) {
      forall i ensures LineAllowed(rows, i) { assert LineAllowed(init, i); }
    }
  }

  lemma LinkedSnoc(hash: Hash, chain: seq<Record>, rec: Record)
    requires rec.h.Some?
    ensures Linked(hash, chain + [rec]) <==>
            Linked(hash, chain) && rec.prev == Some(HashBefore(chain, |chain|))
            && rec.h == Some(hash(rec.fields, rec.prev))
    ensures HashBefore(chain + [rec], |chain| + 1) == rec.h.value
  {
    var longer := chain + [rec];
    assert HashBefore(longer, |chain|) == HashBefore(chain, |chain|);
    forall i | i < |chain| ensures LinkOk(hash, longer, i) <==> LinkOk(hash, chain, i) {
      assert 0 < i ==> longer[i - 1] == chain[i - 1];
    }
    if Linked(hash, longer) {
      assert LinkOk(hash, longer, |chain|);
      forall i ensures LinkOk(hash, chain, i) { assert LinkOk(hash, longer, i); }
    }
    if Linked(hash, chain) && LinkOk(hash, longer, |chain|) {
      forall i ensures LinkOk(hash, longer, i) { assert LinkOk(hash, chain, i); }
    }
  }

  /** The verifier accepts exactly the well-chained logs, counts their chain, and ends on its hash. */
  lemma {:induction false} VerifierIsExact(hash: Hash, rows: seq<Row>)
    ensures Scan(hash, rows).Reading? <==> WellChained(hash, rows)
    ensures Scan(hash, rows).Reading? ==>
              var p := Scan(hash, rows);
              && p.checked == |Chain(rows)| && p.prev == HashBefore(Chain(rows), |Chain(rows)|)
              && (p.inLegacy <==> Chain(rows) == [])
  {
    if rows == [] {
      assert Chain(rows) == [];
    } else {
      hide Linked, LinesAllowed, HashBefore;
      var init, last := rows[..|rows| - 1], rows[|rows| - 1].line;
      VerifierIsExact(hash, init);
      AllowedSnoc(rows);
      if last.Entry? && last.record.h.Some? {
        assert Chain(rows) == Chain(init) + [last.record];
        LinkedSnoc(hash, Chain(init), last.record);
      } else {
        assert Chain(rows) == Chain(init);
      }
    }
  }

  // ---- tamper evidence --------------------------------------------------------------------

  /** A hash that occurs in two linked chains pins down everything up to it. */
  lemma {:induction false} SharedHashPinsHistory(hash: Hash, a: seq<Record>, i: nat, b: seq<Record>, j: nat)
    requires Sound(hash) && Linked(hash, a) && Linked(hash, b)
    requires i < |a| && j < |b| && a[i].h == b[j].h
    ensures i == j && a[..i + 1] == b[..j + 1]
    decreases i
  {
    assert LinkOk(hash, a, i) && LinkOk(hash, b, j);
    assert a[i] == b[j];
    if i > 0 { assert LinkOk(hash, a, i - 1); }
    if j > 0 { assert LinkOk(hash, b, j - 1); }
    if i > 0 && j > 0 {
      SharedHashPinsHistory(hash, a, i - 1, b, j - 1);
      assert a[..i + 1] == a[..i] + [a[i]] && b[..j + 1] == b[..j] + [b[j]];
    }
  }

  /** Two verifying logs that end in the same hash hold the same chained records. */
  lemma SameTailSameChain(hash: Hash, a: Log, b: Log)
    requires Sound(hash) && Verify(hash, a).ok && Verify(hash, b).ok
    requires Scan(hash, a.rows).prev == Scan(hash, b.rows).prev
    ensures Chain(a.rows) == Chain(b.rows)
  {
    VerifierIsExact(hash, a.rows);
    VerifierIsExact(hash, b.rows);
    var ca, cb := Chain(a.rows), Chain(b.rows);
    assert LinkOk(hash, ca, |ca| - 1) && LinkOk(hash, cb, |cb| - 1);
    if ca != [] && cb != [] {
      SharedHashPinsHistory(hash, ca, |ca| - 1, cb, |cb| - 1);
      assert ca[..|ca|] == ca && cb[..|cb|] == cb;
    }
  }

  /** Changing, dropping or inserting a chained record while a later record of the original is kept
      is always detected. */
  lemma TamperingIsDetected(hash: Hash, original: Log, tampered: Log, i: nat, j: nat)
    requires Sound(hash) && Verify(hash, original).ok
    requires i < |Chain(original.rows)| && j < |Chain(tampered.rows)|
    requires Chain(original.rows)[i].h == Chain(tampered.rows)[j].h
    requires Chain(original.rows)[..i] != Chain(tampered.rows)[..j]
    ensures !Verify(hash, tampered).ok
  {
    VerifierIsExact(hash, original.rows);
    VerifierIsExact(hash, tampered.rows);
    if Verify(hash, tampered).ok {
      SharedHashPinsHistory(hash, Chain(original.rows), i, Chain(tampered.rows), j);
      assert false;
    }
  }

  /** The reported line ends the shortest failing prefix: the log verifies up to the line before,
      and no prefix that holds the line does. */
  lemma {:induction false} FirstBadLineIsFirst(hash: Hash, rows: seq<Row>, k: nat)
    requires k <= |rows| && Scan(hash, rows).Broken?
    ensures 1 <= Scan(hash, rows).line <= |rows|
    ensures Scan(hash, rows[..k]).Reading? <==> k < Scan(hash, rows).line
    decreases |rows|
  {
    var init := rows[..|rows| - 1];
    if k < |rows| { assert init[..k] == rows[..k]; } else { assert rows[..k] == rows; }
    if Scan(hash, init).Broken? {
      FirstBadLineIsFirst(hash, init, if k < |rows| then k else 0);
    } else if k < |rows| {
      if Scan(hash, init[..k]).Broken? { BrokenStays(hash, init, k); }
    }
  }

  /** The records without a hash. */
  function Unhashed(rows: seq<Row>): nat {
    if rows == [] then 0
    else
      var last := rows[|rows| - 1].line;
      Unhashed(rows[..|rows| - 1]) + if last.Entry? && last.record.h.None? then 1 else 0
  }

  lemma {:induction false} LegacyIsUnhashed(hash: Hash, rows: seq<Row>)
    requires Scan(hash, rows).Reading?
    ensures Scan(hash, rows).legacy == Unhashed(rows)
  {
    if rows != [] { LegacyIsUnhashed(hash, rows[..|rows| - 1]); }
  }

  lemma {:induction false} BrokenCounts(hash: Hash, rows: seq<Row>)
    requires Scan(hash, rows).Broken?
    ensures var p := Scan(hash, rows);
            && 1 <= p.line <= |rows|
            && var q := Scan(hash, rows[..p.line - 1]);
               q.Reading? && q.checked == p.checked && q.legacy == p.legacy
    ensures Scan(hash, rows[..Scan(hash, rows).line]).Broken?
  {
    var init := rows[..|rows| - 1];
    if Scan(hash, init).Broken? {
      BrokenCounts(hash, init);
      var k := Scan(hash, init).line;
      assert init[..k - 1] == rows[..k - 1] && init[..k] == rows[..k];
    } else {
      assert rows[..|rows|] == rows;
    }
  }

  /** What the report says: of a log that verifies, how many records are chained and how many carry no
      hash; of one that does not, the first bad line, and these numbers for the lines before it. */
  lemma ReportIsExact(hash: Hash, log: Log)
    ensures var r := Verify(hash, log);
            && (r.ok <==> WellChained(hash, log.rows))
            && (r.ok ==> r == Report(true, |Chain(log.rows)|, Unhashed(log.rows), None))
            && (!r.ok ==>
                  && r.firstBad.Some? && 1 <= r.firstBad.value <= |log.rows|
                  && var good := log.rows[..r.firstBad.value - 1];
                     && WellChained(hash, good) && !WellChained(hash, log.rows[..r.firstBad.value])
                     && r.checked == |Chain(good)| && r.legacy == Unhashed(good))
  {
    hide Scan, WellChained, Chain, Unhashed;
    VerifierIsExact(hash, log.rows);
    if Scan(hash, log.rows).Reading? {
      LegacyIsUnhashed(hash, log.rows);
    } else {
      BrokenCounts(hash, log.rows);
      var k := Scan(hash, log.rows).line;
      VerifierIsExact(hash, log.rows[..k - 1]);
      VerifierIsExact(hash, log.rows[..k]);
      LegacyIsUnhashed(hash, log.rows[..k - 1]);
    }
  }

  // ---- the writer ---------------------------------------------------------------------------

  /** A rescan of a verifying log ends on the hash the verifier ends on. */
  lemma {:induction false} RescanAgrees(hash: Hash, rows: seq<Row>)
    requires Sound(hash) && Scan(hash, rows).Reading?
    ensures Tail(rows) == Scan(hash, rows).prev
  {
    if rows != [] { RescanAgrees(hash, rows[..|rows| - 1]); }
  }

  /** Nothing is left open at the end of the file that a new record could run into. */
  predicate AppendSafe(log: Log) {
    log.ended || log.rows == [] || log.rows[|log.rows| - 1].line.Blank?
  }

  /** A write extends a verifying log, whatever it is (empty, legacy-only, truncated, mixed), by exactly
      one checked record if and only if its last line is ended or blank and the tail used is the true one. */
  lemma WriteExtends(hash: Hash, w: Writer, fields: string, bytes: nat)
    requires Sound(hash) && Verify(hash, w.log).ok
    ensures var before, after := Verify(hash, w.log), Verify(hash, Written(hash, w, fields, bytes).log);
            && (after.ok <==> AppendSafe(w.log) && TailUsed(w) == Tail(w.log.rows))
            && (after.ok ==> after.checked == before.checked + 1 && after.legacy == before.legacy)
  {
    RescanAgrees(hash, w.log.rows);
    hide Sound, Scan, Tail, Size, TailUsed, AppendSafe, Appended;
    var prev := Some(TailUsed(w));
    AppendReads(hash, w.log, Record(fields, prev, Some(hash(fields, prev))), bytes);
  }

  lemma AppendReads(hash: Hash, log: Log, record: Record, bytes: nat)
    requires Scan(hash, log.rows).Reading? && record.h == Some(hash(record.fields, record.prev))
    ensures var p, q := Scan(hash, log.rows), Scan(hash, Appended(log, record, bytes).rows);
            && (q.Reading? <==> AppendSafe(log) && record.prev == Some(p.prev))
            && (q.Reading? ==> q.checked == p.checked + 1 && q.legacy == p.legacy)
  {
    hide Scan;
    var rows := log.rows;
    if log.ended || rows == [] {
      ScanSnoc(hash, rows, Row(Entry(record), bytes));
    } else {
      var init, last := rows[..|rows| - 1], rows[|rows| - 1];
      assert rows == init + [last];
      ScanSnoc(hash, init, last);
      ScanSnoc(hash, init, Row(if last.line.Blank? then Entry(record) else Corrupt, last.bytes + bytes));
    }
  }

  lemma ScanSnoc(hash: Hash, rows: seq<Row>, row: Row)
    ensures Scan(hash, rows + [row])
         == var p := Scan(hash, rows); if p.Broken? then p else Read(hash, p, row.line, |rows| + 1)
  {
    assert (rows + [row])[..|rows|] == rows;
  }

  /** The size counts every byte of every line, and a write adds its own. */
  lemma {:induction false} SizeAdds(a: seq<Row>, b: seq<Row>)
    ensures Size(a + b) == Size(a) + Size(b)
    ensures |b| == 1 ==> Size(b) == b[0].bytes
  {
    if b == [] {
      assert a + b == a;
    } else {
      assert (a + b)[..|a + b| - 1] == a + b[..|b| - 1];
      SizeAdds(a, b[..|b| - 1]);
    }
  }

  lemma WriteGrows(hash: Hash, w: Writer, fields: string, bytes: nat)
    ensures var u := Written(hash, w, fields, bytes);
            Size(u.log.rows) == Size(w.log.rows) + bytes && u.size == Some(Size(u.log.rows)) && u.log.ended
  {
    hide Size, TailUsed;
    var rows := w.log.rows;
    var grown := Written(hash, w, fields, bytes).log.rows;
    if w.log.ended || rows == [] {
      SizeAdds(rows, [grown[|rows|]]);
    } else {
      var init := rows[..|rows| - 1];
      assert rows == init + [rows[|rows| - 1]] && grown == init + [grown[|grown| - 1]];
      SizeAdds(init, [rows[|rows| - 1]]);
      SizeAdds(init, [grown[|grown| - 1]]);
    }
  }

  predicate Hashed(row: Row) {
    row.line.Entry? && row.line.record.h.Some? && row.line.record.h.value != NO_MARK
  }

  /** The tail of any log, verifying or not, is the hash of the last record that has one, else genesis. */
  lemma {:induction false} TailIsLastHash(rows: seq<Row>)
    ensures (forall k | 0 <= k < |rows| :: !Hashed(rows[k])) ==> Tail(rows) == GENESIS
    ensures forall k | 0 <= k < |rows| && Hashed(rows[k]) && (forall j | k < j < |rows| :: !Hashed(rows[j])) ::
              Tail(rows) == rows[k].line.record.h.value
  {
    if rows != [] {
      TailStep(rows);
      hide Hashed, Tail;
      TailIsLastHash(rows[..|rows| - 1]);
    }
  }

  lemma TailStep(rows: seq<Row>)
    requires rows != []
    ensures var last := rows[|rows| - 1];
            && (Hashed(last) ==> last.line.Entry? && last.line.record.h.Some?)
            && Tail(rows) == if Hashed(last) then last.line.record.h.value else Tail(rows[..|rows| - 1])
  {
  }

  /** `last` is the log as the writer left it; before the first write there is no cache. */
  ghost predicate Anchored(w: Writer, last: Log) {
    w.tail.Some? ==> w.size == Some(Size(last.rows)) && w.tail.value == Tail(last.rows)
  }

  lemma WriteAnchors(hash: Hash, w: Writer, fields: string, bytes: nat)
    requires Sound(hash) && AppendSafe(w.log)
    ensures var w' := Written(hash, w, fields, bytes);
            Anchored(w', w'.log) && w'.tail.Some? && w'.log.ended
  {
  }

  /** The cached tail is the one a full rescan gives exactly when the log's size differs from the
      one the writer left, or the log still ends on the hash it left. */
  lemma CacheIsRightExactlyWhen(w: Writer, last: Log)
    requires Anchored(w, last) && w.tail.Some?
    ensures TailUsed(w) == Tail(w.log.rows) <==>
              Size(w.log.rows) != Size(last.rows) || Tail(w.log.rows) == Tail(last.rows)
  {
  }

  /** Altering the size with every outside change is not enough: two such changes can lead back to
      the size the writer left, and the next record then hangs on a hash the log no longer holds. */
  lemma SizeCanReturn(hash: Hash, fields: string, other: string, bytes: nat)
    requires Sound(hash) && bytes > 0 && fields != other
    ensures var a := Written(hash, Writer(EMPTY_LOG, None, None), fields, bytes);
            var c := Written(hash, Writer(EMPTY_LOG, None, None), other, bytes);
            && Size(a.log.rows) != Size(EMPTY_LOG.rows) && Size(EMPTY_LOG.rows) != Size(c.log.rows)
            && TailUsed(a.(log := c.log)) != Tail(c.log.rows)
            && !Verify(hash, Written(hash, a.(log := c.log), fields, bytes).log).ok
  {
    var a := Written(hash, Writer(EMPTY_LOG, None, None), fields, bytes);
    var c := Written(hash, Writer(EMPTY_LOG, None, None), other, bytes);
    assert a.log.rows == [a.log.rows[0]] && c.log.rows == [c.log.rows[0]];
    assert a.log.rows[..0] == [] && c.log.rows[..0] == [];
    assert Size(a.log.rows) == bytes && Size(c.log.rows) == bytes;
    WriteExtends(hash, Writer(EMPTY_LOG, None, None), other, bytes);
    RescanAgrees(hash, c.log.rows);
    var grown := Written(hash, a.(log := c.log), fields, bytes).log.rows;
    assert grown[..|grown| - 1] == c.log.rows;
  }

  datatype Event = Write(fields: string, bytes: nat) | Outside(log: Log)

  /** At each write the log is as the last write left it or of another size; outside changes leave
      verifying logs with nothing open at the end. */
  ghost predicate Fair(hash: Hash, w: Writer, last: Log, events: seq<Event>)
    decreases |events|
  {
    events == [] ||
    match events[0]
    case Write(fields, bytes) =>
      && (w.tail.None? || w.log == last || Size(w.log.rows) != Size(last.rows))
      && var w' := Written(hash, w, fields, bytes);
         Fair(hash, w', w'.log, events[1..])
    case Outside(log) =>
      Verify(hash, log).ok && AppendSafe(log) && Fair(hash, w.(log := log), last, events[1..])
  }

  function Later(hash: Hash, w: Writer, event: Event): Writer {
    match event
    case Write(fields, bytes) => Written(hash, w, fields, bytes)
    case Outside(log) => w.(log := log)
  }

  ghost function After(hash: Hash, w: Writer, events: seq<Event>): Writer
    decreases |events|
  {
    if events == [] then w else After(hash, Later(hash, w, events[0]), events[1..])
  }

  /** The log verifies at every point of the run. */
  ghost predicate VerifiesThroughout(hash: Hash, w: Writer, events: seq<Event>)
    decreases |events|
  {
    && Verify(hash, w.log).ok
    && (events != [] ==> VerifiesThroughout(hash, Later(hash, w, events[0]), events[1..]))
  }

  /** A write finds nothing open at the end and uses the tail of the log it finds; an outside change
      leaves a verifying log. */
  ghost predicate Harmless(hash: Hash, w: Writer, event: Event) {
    match event
    case Write(_, _) => AppendSafe(w.log) && TailUsed(w) == Tail(w.log.rows)
    case Outside(log) => Verify(hash, log).ok
  }

  ghost predicate AllHarmless(hash: Hash, w: Writer, events: seq<Event>)
    decreases |events|
  {
    events == [] || (Harmless(hash, w, events[0]) && AllHarmless(hash, Later(hash, w, events[0]), events[1..]))
  }

  lemma StepVerifiesExactly(hash: Hash, w: Writer, event: Event)
    requires Sound(hash) && Verify(hash, w.log).ok
    ensures Verify(hash, Later(hash, w, event).log).ok <==> Harmless(hash, w, event)
  {
    hide Sound, Verify, Written, TailUsed, Tail, AppendSafe;
    if event.Write? { WriteExtends(hash, w, event.fields, event.bytes); }
  }

  /** Over any run of writes and outside changes of any kind, the log verifies throughout if and only if
      each write finds the log closed and uses its true tail, and each change leaves a verifying log. */
  lemma {:induction false} RunVerifiesExactly(hash: Hash, w: Writer, events: seq<Event>)
    requires Sound(hash) && Verify(hash, w.log).ok
    ensures VerifiesThroughout(hash, w, events) <==> AllHarmless(hash, w, events)
    decreases |events|
  {
    if events != [] {
      hide Sound, Verify, Later, Harmless;
      StepVerifiesExactly(hash, w, events[0]);
      if Harmless(hash, w, events[0]) { RunVerifiesExactly(hash, Later(hash, w, events[0]), events[1..]); }
    }
  }

  /** Over any such run of writes, truncations and replacements the log verifies throughout. */
  lemma {:induction false} RunVerifies(hash: Hash, w: Writer, last: Log, events: seq<Event>)
    requires Sound(hash) && Anchored(w, last) && Fair(hash, w, last, events)
    requires Verify(hash, w.log).ok && AppendSafe(w.log)
    ensures Verify(hash, After(hash, w, events).log).ok && AppendSafe(After(hash, w, events).log)
    decreases |events|
  {
    if events != [] {
      match events[0]
      case Write(fields, bytes) =>
        var w' := Written(hash, w, fields, bytes);
        WriteExtends(hash, w, fields, bytes);
        WriteAnchors(hash, w, fields, bytes);
        RunVerifies(hash, w', w'.log, events[1..]);
      case Outside(log) => RunVerifies(hash, w.(log := log), last, events[1..]);
    }
  }
}
