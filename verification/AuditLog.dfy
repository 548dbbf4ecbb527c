/** The hash-chained audit log: a writer that caches the tail, and a verifier of the whole chain. */
module AuditLog {
  import opened Wrappers

  /** The text of a hash field. */
  datatype Mark = Mark(text: string)

  const GENESIS := Mark("genesis")
  const NO_MARK := Mark("")

  /** A parsed record: its other fields as canonical text, the previous hash, and its own. Records
      from before the chain have no hash. */
  datatype Record = Record(fields: string, prev: Option<Mark>, h: Option<Mark>)

  datatype Line = Blank | Corrupt | Entry(record: Record)

  /** The file: its lines with their lengths in bytes, and whether the last one ends in a newline. */
  datatype Row = Row(line: Line, bytes: nat)
  datatype Log = Log(rows: seq<Row>, ended: bool)

  const EMPTY_LOG := Log([], true)

  /** The hash of a record covers its fields and `prev`. */
  type Hash = (string, Option<Mark>) -> Mark

  /** Collision-free, and never a reserved text. */
  ghost predicate Sound(hash: Hash) {
    && (forall f, p, g, q :: hash(f, p) == hash(g, q) ==> f == g && p == q)
    && (forall f, p :: hash(f, p) != GENESIS && hash(f, p) != NO_MARK)
  }

  function Size(rows: seq<Row>): nat {
    if rows == [] then 0 else Size(rows[..|rows| - 1]) + rows[|rows| - 1].bytes
  }

  /** The hash a full rescan ends on: that of the last line that carries one. */
  function Tail(rows: seq<Row>): Mark {
    if rows == [] then GENESIS
    else
      var last := rows[|rows| - 1].line;
      if last.Entry? && last.record.h.Some? && last.record.h.value != NO_MARK then last.record.h.value
      else Tail(rows[..|rows| - 1])
  }

  /** Appending text to a file whose last line is not ended continues that line: a blank one becomes
      the record, any other is no longer one record. */
  function Appended(log: Log, record: Record, bytes: nat): Log {
    if log.ended || log.rows == [] then Log(log.rows + [Row(Entry(record), bytes)], true)
    else
      var last := log.rows[|log.rows| - 1];
      var merged := if last.line.Blank? then Entry(record) else Corrupt;
      Log(log.rows[..|log.rows| - 1] + [Row(merged, last.bytes + bytes)], true)
  }

  // ---- the verifier ---------------------------------------------------------------------

  datatype Report = Report(ok: bool, checked: nat, legacy: nat, firstBad: Option<nat>)

  /** The verifier between two lines: it has seen a chain ending in `prev`, or nothing but legacy. */
  datatype Progress = Reading(checked: nat, legacy: nat, prev: Mark, inLegacy: bool)
                    | Broken(checked: nat, legacy: nat, line: nat)

  function Read(hash: Hash, p: Progress, line: Line, number: nat): Progress
    requires p.Reading?
  {
    match line
    case Blank => p
    case Corrupt => Broken(p.checked, p.legacy, number)
    case Entry(rec) =>
      if rec.h.None? then
        if p.inLegacy then Reading(p.checked, p.legacy + 1, p.prev, true) else Broken(p.checked, p.legacy, number)
      else if rec.prev != Some(p.prev) || hash(rec.fields, rec.prev) != rec.h.value then
        Broken(p.checked, p.legacy, number)
      else Reading(p.checked + 1, p.legacy, rec.h.value, false)
  }

  function Scan(hash: Hash, rows: seq<Row>): Progress {
    if rows == [] then Reading(0, 0, GENESIS, true)
    else
      var p := Scan(hash, rows[..|rows| - 1]);
      if p.Broken? then p else Read(hash, p, rows[|rows| - 1].line, |rows|)
  }

  function ReportOf(p: Progress): Report {
    match p
    case Reading(checked, legacy, _, _) => Report(true, checked, legacy, None)
    case Broken(checked, legacy, line) => Report(false, checked, legacy, Some(line))
  }

  function Verify(hash: Hash, log: Log): Report {
    ReportOf(Scan(hash, log.rows))
  }

  // ---- the writer -------------------------------------------------------------------------

  /** The file with the writer's cache of its tail and of its size after the last write. */
  datatype Writer = Writer(log: Log, tail: Option<Mark>, size: Option<nat>)

  function TailUsed(w: Writer): Mark {
    if w.tail.None? || w.size != Some(Size(w.log.rows)) then Tail(w.log.rows) else w.tail.value
  }

  function Written(hash: Hash, w: Writer, fields: string, bytes: nat): Writer {
    var prev := TailUsed(w);
    var h := hash(fields, Some(prev));
    var log := Appended(w.log, Record(fields, Some(prev), Some(h)), bytes);
    Writer(log, Some(h), Some(Size(log.rows)))
  }

  class Audit {
    const hash: Hash
    var log: Log
    var tail: Option<Mark>
    var size: Option<nat>

    function View(): Writer
      reads this
    {
      Writer(log, tail, size)
    }

    constructor (hash: Hash, log: Log)
      ensures this.hash == hash && View() == Writer(log, None, None)
    {
      this.hash, this.log, tail, size := hash, log, None, None;
    }

    method FileSize() returns (n: nat)
      ensures n == Size(log.rows)
    {
      n := 0;
      for i := 0 to |log.rows|
        invariant n == Size(log.rows[..i])
      {
        assert log.rows[..i + 1][..i] == log.rows[..i];
        n := n + log.rows[i].bytes;
      }
      assert log.rows[..|log.rows|] == log.rows;
    }

    method TailFromDisk() returns (t: Mark)
      ensures t == Tail(log.rows)
    {
      t := GENESIS;
      for i := 0 to |log.rows|
        invariant t == Tail(log.rows[..i])
      {
        assert log.rows[..i + 1][..i] == log.rows[..i];
        var line := log.rows[i].line;
        if line.Entry? && line.record.h.Some? && line.record.h.value != NO_MARK { t := line.record.h.value; }
      }
      assert log.rows[..|log.rows|] == log.rows;
    }

    /** Append one chained record of `bytes` bytes. */
    method Append(fields: string, bytes: nat) returns (entry: Record)
      modifies this
      ensures View() == Written(hash, old(View()), fields, bytes)
      ensures entry == Record(fields, Some(TailUsed(old(View()))), tail)
    {
      hide Size, Tail, Appended;
      var now := FileSize();
      if tail.None? || size != Some(now) {
        var t := TailFromDisk();
        tail := Some(t);
      }
      entry := Record(fields, tail, Some(hash(fields, tail)));
      log := Appended(log, entry, bytes);
      now := FileSize();
      size := Some(now);
      tail := entry.h;
    }

    /** Re-compute the whole chain. */
    method VerifyAll() returns (report: Report)
      ensures report == Verify(hash, log)
    {
      var checked, legacy, prev, inLegacy := 0, 0, GENESIS, true;
      for i := 0 to |log.rows|
        invariant Scan(hash, log.rows[..i]) == Reading(checked, legacy, prev, inLegacy)
      {
        ghost var upto := log.rows[..i + 1];
        assert upto[..i] == log.rows[..i] && upto[i] == log.rows[i];
        var line := log.rows[i].line;
        var bad := false;
        match line {
          case Blank =>
          case Corrupt => bad := true;
          case Entry(rec) =>
            if rec.h.None? {
              if inLegacy { legacy := legacy + 1; } else { bad := true; }
            } else {
              inLegacy := false;
              if rec.prev != Some(prev) || hash(rec.fields, rec.prev) != rec.h.value {
                bad := true;
              } else {
                prev := rec.h.value;
                checked := checked + 1;
              }
            }
        }
        if bad {
          BrokenStays(hash, log.rows, i + 1);
          return Report(false, checked, legacy, Some(i + 1));
        }
      }
      assert log.rows[..|log.rows|] == log.rows;
      return Report(true, checked, legacy, None);
    }
  }

  /** Once broken, the scan reports the same line however the log goes on. */
  lemma {:induction false} BrokenStays(hash: Hash, rows: seq<Row>, k: nat)
    requires k <= |rows| && Scan(hash, rows[..k]).Broken?
    ensures Scan(hash, rows) == Scan(hash, rows[..k])
    decreases |rows|
  {
    if k == |rows| {
      assert rows[..k] == rows;
    } else {
      assert rows[..|rows| - 1][..k] == rows[..k];
      BrokenStays(hash, rows[..|rows| - 1], k);
    }
  }
}
