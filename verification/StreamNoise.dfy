/** What the reader makes of lines that its own writer does not produce: blanks, missing payloads,
    malformed ones, other fields, and frames of several lines. */
module StreamNoise {
  import opened Wrappers
  import opened Text
  import opened EventStream

  predicate AllBlank(s: string) {
    forall c | c in s :: IsBlank(c)
  }

  lemma {:induction false} BlankTrims(s: string)
    requires AllBlank(s)
    ensures TrimStart(s, IsBlank) == "" && Trim(s, IsBlank) == ""
  {
    if s != "" {
      assert s[0] in s && forall c | c in s[1..] :: c in s;
      BlankTrims(s[1..]);
    }
  }

  lemma DataLineTrims(left: string, payload: string, right: string)
    requires AllBlank(left) && AllBlank(right) && payload != "" && !IsBlank(payload[|payload| - 1])
    ensures Trim(left + ("data:" + payload) + right, IsBlank) == "data:" + payload
  {
    hide IsBlank, Trim;
    var line := "data:" + payload;
    assert line[|line| - 1] == payload[|payload| - 1] && line[0] == 'd';
    DIsNoBlank();
    TrimBetweenBlanks(left, line, right, IsBlank);
  }

  lemma DIsNoBlank()
    ensures !IsBlank('d') && !IsBlank(':')
  {
  }

  /** A data line carries what its payload decodes to, whatever the blanks around it; one that does not
      decode is skipped, and the reader goes on. */
  lemma DataLineCarries<T>(left: string, gap: string, payload: string, right: string, decode: string -> Option<T>)
    requires AllBlank(left) && AllBlank(gap) && AllBlank(right)
    requires payload != "" && Trimmed(payload, IsBlank)
    ensures LineEvent(left + ("data:" + (gap + payload)) + right, decode)
         == match decode(payload) case Some(x) => [x] case None => []
  {
    hide Trim, IsBlank;
    var rest := gap + payload;
    assert rest[|rest| - 1] == payload[|payload| - 1];
    DataLineTrims(left, rest, right);
    var s := "data:" + rest;
    assert "data:" <= s && s[5..] == rest && rest == gap + payload + "";
    TrimBetweenBlanks(gap, payload, "", IsBlank);
  }

  /** A data line without a payload carries nothing. */
  lemma EmptyDataCarriesNothing<T>(left: string, right: string, decode: string -> Option<T>)
    requires AllBlank(left) && AllBlank(right)
    ensures LineEvent(left + "data:" + right, decode) == []
  {
    hide Trim, IsBlank;
    DIsNoBlank();
    TrimBetweenBlanks(left, "data:", right, IsBlank);
    TrimOfNothing();
    assert "data:"[5..] == "";
  }

  lemma TrimOfNothing()
    ensures Trim("", IsBlank) == ""
  {
  }

  /** A line whose first text is no data field, blanks in front or not, carries nothing. */
  lemma OtherLineCarriesNothing<T>(left: string, text: string, decode: string -> Option<T>)
    requires AllBlank(left) && (text == "" || !IsBlank(text[0]))
    requires |text| < 5 || text[..5] != "data:"
    ensures LineEvent(left + text, decode) == []
  {
    hide IsBlank;
    if text == "" {
      assert left + text == left;
      BlankTrims(left);
    } else {
      TrimStartAfterBlanks(left, text, IsBlank);
      var s := TrimEnd(text, IsBlank);
      assert s == text[..|s|];
      assert |s| >= 5 ==> text[..5] == s[..5];
    }
  }

  /** What reaches a caller that aborts in its n-th event: the first n. */
  lemma AbortKeepsFirst<T>(events: seq<T>, n: nat)
    ensures Capped(events, Some(n)) <= events && Capped(events, None) == events
    ensures |Capped(events, Some(n))| == if n < |events| then n else |events|
  {
  }

  // ---- frames of several lines -----------------------------------------------------------

  lemma FirstLine(line: string, rest: string)
    requires '\n' !in line
    ensures Lines(line + ("\n" + rest)) == [line] + Lines(rest)
  {
    var s := line + ("\n" + rest);
    forall j: nat | j <= |line| ensures OccursAt(s, "\n", j) <==> j == |line| {
      NewlineAt(s, j);
      assert j < |line| ==> s[j] == line[j] && line[j] in line;
    }
    FoundAt(s, "\n", |line|);
    assert s[..|line|] == line && s[|line| + 1..] == rest;
  }

  lemma NewlineAt(s: string, i: nat)
    ensures OccursAt(s, "\n", i) <==> i < |s| && s[i] == '\n'
  {
    if i < |s| { assert s[i..i + 1] == [s[i]]; }
  }

  lemma FoundAt(s: string, pattern: string, n: nat)
    requires forall j: nat | j <= n :: OccursAt(s, pattern, j) <==> j == n
    ensures Find(s, pattern, 0) == Some(n)
  {
    hide OccursAt;
    var r := Find(s, pattern, 0);
    assert OccursAt(s, pattern, n);
    assert r.Some? && r.value <= n;
    assert OccursAt(s, pattern, r.value);
  }

  lemma {:induction false} LineEventsCons<T>(line: string, rest: seq<string>, decode: string -> Option<T>)
    ensures LineEvents([line] + rest, decode) == LineEvent(line, decode) + LineEvents(rest, decode)
  {
    hide LineEvent;
    var all := [line] + rest;
    if rest == [] {
      assert all[..0] == [] && all[0] == line;
      assert LineEvents(all[..0], decode) == [];
    } else {
      assert all[..|all| - 1] == [line] + rest[..|rest| - 1] && all[|all| - 1] == rest[|rest| - 1];
      LineEventsCons(line, rest[..|rest| - 1], decode);
    }
  }

  /** The lines of a frame, joined. */
  function Frame(lines: seq<string>): string
    requires lines != []
  {
    if |lines| == 1 then lines[0] else lines[0] + ("\n" + Frame(lines[1..]))
  }

  lemma {:induction false} FrameLines(lines: seq<string>)
    requires lines != [] && forall line | line in lines :: '\n' !in line
    ensures Lines(Frame(lines)) == lines
  {
    assert lines[0] in lines && forall line | line in lines[1..] :: line in lines;
    if |lines| == 1 {
      OneLine(lines[0]);
    } else {
      FrameLines(lines[1..]);
      FirstLine(lines[0], Frame(lines[1..]));
    }
  }

  lemma {:induction false} FrameHasNoEnd(lines: seq<string>, rest: string)
    requires lines != [] && forall line | line in lines :: line != "" && '\n' !in line
    ensures Find(Frame(lines) + END + rest, END, 0) == Some(|Frame(lines)|)
  {
    var line := lines[0];
    assert line in lines && forall l | l in lines[1..] :: l in lines;
    if |lines| == 1 {
      FrameEnd(line, rest);
    } else {
      var tail := Frame(lines[1..]);
      FrameHasNoEnd(lines[1..], rest);
      FrameStarts(lines[1..]);
      LineInFront(line, tail, rest);
    }
  }

  lemma LineInFront(line: string, tail: string, rest: string)
    requires '\n' !in line && tail != "" && tail[0] != '\n'
    requires Find(tail + END + rest, END, 0) == Some(|tail|)
    ensures Find(line + ("\n" + tail) + END + rest, END, 0) == Some(|line| + 1 + |tail|)
  {
    var s, t, n := line + ("\n" + tail) + END + rest, tail + END + rest, |line| + 1;
    assert s[n..] == t;
    forall j: nat | j <= n + |tail| ensures OccursAt(s, END, j) <==> j == n + |tail| {
      if j < |line| {
        EndIsTwoLineFeeds(s, j);
        assert s[j] == line[j] && line[j] in line;
      } else if j == |line| {
        EndIsTwoLineFeeds(s, j);
        assert s[j + 1] == tail[0];
      } else {
        EndBehind(s, n, j - n);
      }
    }
    hide OccursAt, Find;
    FoundAt(s, END, n + |tail|);
  }

  lemma EndBehind(s: string, n: nat, j: nat)
    requires n <= |s|
    ensures OccursAt(s, END, n + j) <==> OccursAt(s[n..], END, j)
  {
    EndIsTwoLineFeeds(s, n + j);
    EndIsTwoLineFeeds(s[n..], j);
  }

  lemma FrameStarts(lines: seq<string>)
    requires lines != [] && forall line | line in lines :: line != "" && '\n' !in line
    ensures Frame(lines) != "" && Frame(lines)[0] != '\n'
  {
    assert lines[0] in lines && lines[0][0] in lines[0];
    assert Frame(lines)[0] == lines[0][0];
  }

  /** A frame of any non-empty lines delivers what each of them carries, in order, and what follows is read
      as if it stood alone. */
  lemma FrameDeliversLines<T>(lines: seq<string>, rest: string, decode: string -> Option<T>)
    requires lines != [] && forall line | line in lines :: line != "" && '\n' !in line
    ensures Delivered(Frame(lines) + END + rest, decode) == LineEvents(lines, decode) + Delivered(rest, decode)
  {
    hide Find, Lines, LineEvents, Frame;
    var s := Frame(lines) + END + rest;
    FrameHasNoEnd(lines, rest);
    FrameLines(lines);
    assert s[..|Frame(lines)|] == Frame(lines) && s[|Frame(lines)| + 2..] == rest;
  }
}
