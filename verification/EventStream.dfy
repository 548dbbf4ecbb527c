/** Server-sent events between the app and its page: the writer's frames and the incremental reader.
    The wire format is a subset of section 9.2 (Server-sent events) of the WHATWG HTML standard. */
module EventStream {
  import opened Wrappers
  import opened Text

  /** JSON text for the objects of the stream. */
  datatype Codec<!T> = Codec(encode: T -> string, decode: string -> Option<T>)

  /** JavaScript's notion of white space, as `String.prototype.trim` uses it. */
  predicate IsBlank(c: char) {
    '\t' <= c <= '\r' || c == ' ' || c == '\U{00A0}' || c == '\U{1680}' || '\U{2000}' <= c <= '\U{200A}'
    || c == '\U{2028}' || c == '\U{2029}' || c == '\U{202F}' || c == '\U{205F}' || c == '\U{3000}'
    || c == '\U{FEFF}'
  }

  /** The JSON text of an object decodes to it, is one line, and neither starts nor ends with a blank. */
  ghost predicate Writes<T(!new)>(json: Codec<T>, x: T) {
    var text := json.encode(x);
    json.decode(text) == Some(x) && text != "" && '\n' !in text && Trimmed(text, IsBlank)
  }

  // ---- the writer ------------------------------------------------------------------------

  /** What goes down the wire: an object, or a comment such as the keepalive. */
  datatype Frame<T> = Object(value: T) | Comment(text: string)

  /** `_sse`, and the comment frames of a watcher's stream. */
  function Sse<T>(json: Codec<T>, f: Frame<T>): string {
    match f
    case Object(x) => "data: " + json.encode(x) + "\n\n"
    case Comment(text) => ":" + text + "\n\n"
  }

  function Written<T>(json: Codec<T>, frames: seq<Frame<T>>): string {
    if frames == [] then "" else Sse(json, frames[0]) + Written(json, frames[1..])
  }

  function Objects<T>(frames: seq<Frame<T>>): seq<T> {
    if frames == [] then []
    else (if frames[0].Object? then [frames[0].value] else []) + Objects(frames[1..])
  }

  ghost predicate Writable<T(!new)>(json: Codec<T>, f: Frame<T>) {
    match f
    case Object(x) => Writes(json, x)
    case Comment(text) => '\n' !in text
  }

  ghost predicate AllWritable<T(!new)>(json: Codec<T>, frames: seq<Frame<T>>) {
    forall i | 0 <= i < |frames| :: Writable(json, frames[i])
  }

  // ---- the events of a whole text --------------------------------------------------------

  const END := "\n\n"

  /** `split`: the pieces between the separators, at least one. */
  function Lines(s: string): (lines: seq<string>)
    ensures lines != []
    decreases |s|
  {
    match Find(s, "\n", 0)
    case None => [s]
    case Some(i) => [s[..i]] + Lines(s[i + 1..])
  }

  /** The event of one line, if it carries one. */
  function LineEvent<T>(line: string, decode: string -> Option<T>): seq<T> {
    var s := Trim(line, IsBlank);
    if !("data:" <= s) then []
    else
      var payload := Trim(s[5..], IsBlank);
      if payload == "" then []
      else match decode(payload)
        case Some(x) => [x]
        case None => []
  }

  function LineEvents<T>(lines: seq<string>, decode: string -> Option<T>): seq<T> {
    if lines == [] then []
    else LineEvents(lines[..|lines| - 1], decode) + LineEvent(lines[|lines| - 1], decode)
  }

  /** The events of the finished frames of a text, and the unfinished rest. */
  function Delivered<T>(text: string, decode: string -> Option<T>): seq<T>
    decreases |text|
  {
    match Find(text, END, 0)
    case None => []
    case Some(i) => LineEvents(Lines(text[..i]), decode) + Delivered(text[i + 2..], decode)
  }

  function Pending(text: string): string
    decreases |text|
  {
    match Find(text, END, 0)
    case None => text
    case Some(i) => Pending(text[i + 2..])
  }

  function Joined(chunks: seq<string>): string {
    if chunks == [] then "" else Joined(chunks[..|chunks| - 1]) + chunks[|chunks| - 1]
  }

  /** The first `limit` events; without a limit, all. */
  function Capped<T>(events: seq<T>, limit: Option<nat>): seq<T> {
    match limit
    case None => events
    case Some(n) => if |events| <= n then events else events[..n]
  }

  lemma FindExtends(a: string, b: string, pattern: string)
    requires Find(a, pattern, 0).Some?
    ensures Find(a + b, pattern, 0) == Find(a, pattern, 0)
  {
    var i := Find(a, pattern, 0).value;
    assert (a + b)[i..i + |pattern|] == a[i..i + |pattern|];
    assert OccursAt(a + b, pattern, i);
    forall j: nat | j < i ensures !OccursAt(a + b, pattern, j) {
      assert (a + b)[j..j + |pattern|] == a[j..j + |pattern|];
      assert !OccursAt(a, pattern, j);
    }
  }

  /** What a text delivers does not depend on where it is cut: reading on from the unfinished rest of
      its front part delivers the remaining events. */
  lemma {:induction false} DeliveredAppend<T>(a: string, b: string, decode: string -> Option<T>)
    ensures Delivered(a + b, decode) == Delivered(a, decode) + Delivered(Pending(a) + b, decode)
    ensures Pending(a + b) == Pending(Pending(a) + b)
    decreases |a|
  {
    hide LineEvents, Lines, OccursAt;
    match Find(a, END, 0)
    case None =>
    case Some(i) =>
      FindExtends(a, b, END);
      FrameFits(a, i);
      assert (a + b)[..i] == a[..i] && (a + b)[i + 2..] == a[i + 2..] + b;
      DeliveredAppend(a[i + 2..], b, decode);
  }

  lemma FrameFits(a: string, i: nat)
    requires OccursAt(a, END, i)
    ensures i + 2 <= |a|
  {
  }

  // ---- the reader ------------------------------------------------------------------------

  /** `_readSSE`: the chunks are those read before the stream ends or the caller aborts; `limit` is the
      number of the event whose callback aborts, if one does. */
  method ReadSSE<T>(chunks: seq<string>, decode: string -> Option<T>, limit: Option<nat>) returns (events: seq<T>)
    requires limit != Some(0)
    ensures events == Capped(Delivered(Joined(chunks), decode), limit)
  {
    hide Delivered, Pending, LineEvents, Lines, LineEvent;
    events := [];
    var buf := "";
    var aborted := false;
    assert Delivered("", decode) == [] && Pending("") == "" by { NothingDelivered(decode); }
    for k := 0 to |chunks|
      invariant Reading(events, aborted, limit)
      invariant !aborted ==> events == Delivered(Joined(chunks[..k]), decode) && buf == Pending(Joined(chunks[..k]))
      invariant aborted ==> events <= Delivered(Joined(chunks), decode)
    {
      if aborted { break; }
      JoinedGrows(chunks, k);
      JoinedSplits(chunks, k + 1);
      ghost var before := Joined(chunks[..k]);
      DeliveredAppend(before, chunks[k], decode);
      DeliveredAppend(Joined(chunks[..k + 1]), Joined(chunks[k + 1..]), decode);
      buf := buf + chunks[k];
      ghost var upTo := Delivered(Joined(chunks[..k + 1]), decode);
      events, buf, aborted := DrainFrames(buf, decode, limit, events);
      assert !aborted ==> events == upTo;
      assert aborted ==> events <= upTo;
    }
    assert chunks[..|chunks|] == chunks;
  }

  /** The cap is reached exactly by the event that aborts. */
  predicate Reading<T>(events: seq<T>, aborted: bool, limit: Option<nat>) {
    if aborted then limit == Some(|events|) else limit.Some? ==> |events| < limit.value
  }

  /** The inner loops: every finished frame in the buffer, line by line. */
  method DrainFrames<T>(text: string, decode: string -> Option<T>, limit: Option<nat>, before: seq<T>)
    returns (events: seq<T>, buf: string, aborted: bool)
    requires Reading(before, false, limit)
    ensures Reading(events, aborted, limit)
    ensures !aborted ==> events == before + Delivered(text, decode) && buf == Pending(text)
    ensures aborted ==> events <= before + Delivered(text, decode)
  {
    hide LineEvents, Lines, LineEvent, Delivered, Pending, Find;
    events, buf, aborted := before, text, false;
    var idx := Find(buf, END, 0);
    while idx.Some?
      invariant Reading(events, aborted, limit) && idx == Find(buf, END, 0)
      invariant !aborted
      invariant events + Delivered(buf, decode) == before + Delivered(text, decode) && Pending(buf) == Pending(text)
      decreases |buf|
    {
      DeliveredStep(buf, idx.value, decode);
      var frame := buf[..idx.value];
      buf := buf[idx.value + 2..];
      ghost var carried := LineEvents(Lines(frame), decode);
      assert events + (carried + Delivered(buf, decode)) == (events + carried) + Delivered(buf, decode);
      events, aborted := DeliverLines(Lines(frame), decode, limit, events);
      if aborted { return; }
      idx := Find(buf, END, 0);
    }
    DeliveredEnd(buf, decode);
  }

  lemma DeliveredStep<T>(buf: string, i: nat, decode: string -> Option<T>)
    requires Find(buf, END, 0) == Some(i)
    ensures i + 2 <= |buf|
    ensures Delivered(buf, decode) == LineEvents(Lines(buf[..i]), decode) + Delivered(buf[i + 2..], decode)
    ensures Pending(buf) == Pending(buf[i + 2..])
  {
    hide LineEvents, Lines;
    FrameFits(buf, i);
  }

  lemma DeliveredEnd<T>(buf: string, decode: string -> Option<T>)
    requires Find(buf, END, 0) == None
    ensures Delivered(buf, decode) == [] && Pending(buf) == buf
    ensures forall events: seq<T> :: events + Delivered(buf, decode) == events
  {
  }

  method DeliverLines<T>(lines: seq<string>, decode: string -> Option<T>, limit: Option<nat>, before: seq<T>)
    returns (events: seq<T>, aborted: bool)
    requires Reading(before, false, limit)
    ensures Reading(events, aborted, limit)
    ensures !aborted ==> events == before + LineEvents(lines, decode)
    ensures aborted ==> events <= before + LineEvents(lines, decode)
  {
    hide LineEvents, Trim, IsBlank;
    events, aborted := before, false;
    LinesGrow(lines, 0, decode);
    for j := 0 to |lines|
      invariant Reading(events, false, limit) && !aborted
      invariant events == before + LineEvents(lines[..j], decode)
    {
      var s := Trim(lines[j], IsBlank);
      LinesGrow(lines, j, decode);
      if "data:" <= s {
        var payload := Trim(s[5..], IsBlank);
        if payload != "" {
          var parsed := decode(payload);
          if parsed.Some? {
            events := events + [parsed.value];
            aborted := limit == Some(|events|);
            if aborted {
              PrefixOfLines(lines, j + 1, decode);
              assert events == before + LineEvents(lines[..j + 1], decode);
              return;
            }
          }
        }
      }
    }
    assert lines[..|lines|] == lines;
  }

  lemma LinesGrow<T>(lines: seq<string>, j: nat, decode: string -> Option<T>)
    requires j <= |lines|
    ensures LineEvents(lines[..0], decode) == []
    ensures j < |lines| ==>
      LineEvents(lines[..j + 1], decode) == LineEvents(lines[..j], decode) + LineEvent(lines[j], decode)
  {
    hide LineEvent;
    if j < |lines| { assert lines[..j + 1][..j] == lines[..j]; }
  }

  lemma {:induction false} PrefixOfLines<T>(lines: seq<string>, j: nat, decode: string -> Option<T>)
    requires j <= |lines|
    ensures LineEvents(lines[..j], decode) <= LineEvents(lines, decode)
  {
    hide LineEvent;
    if j == |lines| {
      assert lines[..j] == lines;
    } else {
      PrefixOfLines(lines[..|lines| - 1], j, decode);
      assert lines[..|lines| - 1][..j] == lines[..j];
    }
  }

  lemma NothingDelivered<T>(decode: string -> Option<T>)
    ensures Delivered("", decode) == [] && Pending("") == ""
  {
  }

  lemma {:induction false} JoinedAppend(a: seq<string>, b: seq<string>)
    ensures Joined(a + b) == Joined(a) + Joined(b)
  {
    if b == [] {
      assert a + b == a;
    } else {
      assert (a + b)[..|a + b| - 1] == a + b[..|b| - 1];
      JoinedAppend(a, b[..|b| - 1]);
    }
  }

  lemma JoinedSplits(chunks: seq<string>, k: nat)
    requires k <= |chunks|
    ensures Joined(chunks) == Joined(chunks[..k]) + Joined(chunks[k..])
  {
    hide Joined;
    PartsMakeWhole(chunks, k);
    JoinedAppend(chunks[..k], chunks[k..]);
  }

  lemma PartsMakeWhole(chunks: seq<string>, k: nat)
    requires k <= |chunks|
    ensures chunks[..k] + chunks[k..] == chunks
  {
  }

  lemma JoinedGrows(chunks: seq<string>, k: nat)
    requires k < |chunks|
    ensures Joined(chunks[..k + 1]) == Joined(chunks[..k]) + chunks[k]
  {
    assert chunks[..k + 1][..k] == chunks[..k];
  }

  // ---- writer and reader together --------------------------------------------------------

  lemma OneLine(s: string)
    requires '\n' !in s
    ensures Lines(s) == [s]
  {
    forall i: nat ensures !OccursAt(s, "\n", i) {
      if i < |s| {
        assert s[i] in s;
        assert s[i..i + 1] == [s[i]];
      }
    }
  }

  lemma EndIsTwoLineFeeds(s: string, i: nat)
    ensures OccursAt(s, END, i) <==> i + 1 < |s| && s[i] == '\n' && s[i + 1] == '\n'
  {
    if i + 1 < |s| { assert s[i..i + 2] == [s[i], s[i + 1]]; }
  }

  lemma FrameEnd(line: string, rest: string)
    requires '\n' !in line
    ensures Find(line + END + rest, END, 0) == Some(|line|)
  {
    var s := line + END + rest;
    assert s[|line|..|line| + 2] == END;
    assert OccursAt(s, END, |line|);
    forall j: nat | j < |line| ensures !OccursAt(s, END, j) {
      assert s[j] == line[j] && line[j] in line;
      EndIsTwoLineFeeds(s, j);
    }
  }

  function Line<T>(json: Codec<T>, f: Frame<T>): string {
    match f
    case Object(x) => "data: " + json.encode(x)
    case Comment(text) => ":" + text
  }

  /** One written line carries exactly the object it was written for. */
  lemma LineCarries<T(!new)>(json: Codec<T>, f: Frame<T>)
    requires Writable(json, f)
    ensures '\n' !in Line(json, f)
    ensures LineEvent(Line(json, f), json.decode) == if f.Object? then [f.value] else []
  {
    hide LineEvent;
    match f
    case Object(x) => DataCarries(json, x);
    case Comment(text) => CommentCarriesNothing(text, json.decode);
  }

  lemma DataCarries<T(!new)>(json: Codec<T>, x: T)
    requires Writes(json, x)
    ensures LineEvent("data: " + json.encode(x), json.decode) == [x]
  {
    hide Trim;
    DataTrims(json.encode(x));
  }

  lemma DataTrims(text: string)
    requires text != "" && Trimmed(text, IsBlank)
    ensures var s := Trim("data: " + text, IsBlank);
            "data:" <= s && Trim(s[5..], IsBlank) == text
  {
    hide Trim;
    var line := "data: " + text;
    assert line[|line| - 1] == text[|text| - 1] && line[0] == 'd';
    TrimIsTrimmed(line, IsBlank);
    assert line[5..] == " " + text + "";
    TrimBetweenBlanks(" ", text, "", IsBlank);
  }

  lemma CommentCarriesNothing<T>(text: string, decode: string -> Option<T>)
    ensures LineEvent(":" + text, decode) == []
  {
    hide Trim, IsBlank;
    CommentTrims(text);
  }

  lemma CommentTrims(text: string)
    ensures !("data:" <= Trim(":" + text, IsBlank))
  {
    var line := ":" + text;
    assert line[0] == ':' && !IsBlank(':');
    KeepsFirst(line);
    var s := Trim(line, IsBlank);
    assert s != "" ==> s[0] == ':';
  }

  lemma KeepsFirst(line: string)
    requires line != "" && !IsBlank(line[0])
    ensures var s := Trim(line, IsBlank); s != "" ==> s[0] == line[0]
  {
    hide IsBlank;
    var front := TrimStart(line, IsBlank);
    assert |front| == |line|;
  }

  lemma LineDelivers<T>(line: string, rest: string, decode: string -> Option<T>)
    requires '\n' !in line
    ensures Delivered(line + END + rest, decode) == LineEvent(line, decode) + Delivered(rest, decode)
  {
    hide Find, Lines, LineEvent;
    var s := line + END + rest;
    FrameEnd(line, rest);
    assert s[..|line|] == line && s[|line| + 2..] == rest;
    OneLine(line);
    LinesGrow([line], 0, decode);
    assert [line][..0 + 1] == [line];
  }

  lemma FrameDelivers<T(!new)>(json: Codec<T>, f: Frame<T>, rest: string)
    requires Writable(json, f)
    ensures Delivered(Sse(json, f) + rest, json.decode)
         == (if f.Object? then [f.value] else []) + Delivered(rest, json.decode)
  {
    hide LineEvent, Writable, Delivered;
    LineCarries(json, f);
    LineDelivers(Line(json, f), rest, json.decode);
    assert Sse(json, f) == Line(json, f) + END;
  }

  /** Any mix of objects and comments reads back as exactly the objects, in order, and whatever
      follows is read as if it stood alone. */
  lemma {:induction false} ReadsWhatWasWritten<T(!new)>(json: Codec<T>, frames: seq<Frame<T>>, rest: string)
    requires AllWritable(json, frames)
    ensures Delivered(Written(json, frames) + rest, json.decode) == Objects(frames) + Delivered(rest, json.decode)
  {
    hide Delivered, Writable, Sse;
    if frames == [] {
      assert Written(json, frames) + rest == rest;
    } else {
      TailWritable(json, frames);
      ReadsWhatWasWritten(json, frames[1..], rest);
      FrameDelivers(json, frames[0], Written(json, frames[1..]) + rest);
      assert Written(json, frames) + rest == Sse(json, frames[0]) + (Written(json, frames[1..]) + rest);
      var head := if frames[0].Object? then [frames[0].value] else [];
      assert head + (Objects(frames[1..]) + Delivered(rest, json.decode))
          == head + Objects(frames[1..]) + Delivered(rest, json.decode);
    }
  }

  lemma TailWritable<T(!new)>(json: Codec<T>, frames: seq<Frame<T>>)
    requires AllWritable(json, frames) && frames != []
    ensures AllWritable(json, frames[1..]) && Writable(json, frames[0])
  {
    hide Writable;
    assert forall i | 0 <= i < |frames[1..]| :: frames[1..][i] == frames[i + 1];
  }

  /** However the stream is cut into chunks, the reader hands over the written objects in order. */
  method ReadBack<T(!new)>(json: Codec<T>, ghost frames: seq<Frame<T>>, chunks: seq<string>) returns (events: seq<T>)
    requires AllWritable(json, frames) && Joined(chunks) == Written(json, frames)
    ensures events == Objects(frames)
  {
    events := ReadSSE(chunks, json.decode, None);
    ReadsWhatWasWritten(json, frames, "");
    assert Written(json, frames) + "" == Written(json, frames);
  }

  /** A stream that breaks off inside a frame has delivered exactly the objects of the whole frames
      before it. */
  lemma CutInsideFrame<T(!new)>(json: Codec<T>, frames: seq<Frame<T>>, last: Frame<T>, n: nat)
    requires AllWritable(json, frames) && Writable(json, last) && n < |Sse(json, last)|
    ensures Delivered(Written(json, frames) + Sse(json, last)[..n], json.decode) == Objects(frames)
  {
    hide Writable, AllWritable, Written, Sse, Objects;
    ReadsWhatWasWritten(json, frames, Sse(json, last)[..n]);
    PartHasNoEnd(json, last, n);
    assert Objects(frames) + [] == Objects(frames);
  }

  lemma PartHasNoEnd<T(!new)>(json: Codec<T>, f: Frame<T>, n: nat)
    requires Writable(json, f) && n < |Sse(json, f)|
    ensures Find(Sse(json, f)[..n], END, 0) == None
  {
    hide Find, LineEvent;
    LineCarries(json, f);
    assert Sse(json, f) == Line(json, f) + END;
    NoEndBefore(Line(json, f), n);
  }

  lemma NoEndBefore(line: string, n: nat)
    requires '\n' !in line && n < |line| + 2
    ensures Find((line + END)[..n], END, 0) == None
  {
    var part := (line + END)[..n];
    forall i: nat ensures !OccursAt(part, END, i) {
      EndIsTwoLineFeeds(part, i);
      if i < |line| && i < n { assert part[i] == line[i] && line[i] in line; }
    }
  }

  /** Every line feed has a carriage return in front of it. */
  predicate CrLfOnly(text: string) {
    forall i | 0 <= i < |text| && text[i] == '\n' :: i > 0 && text[i - 1] == '\r'
  }

  /** The standard also lets lines end in CR LF; a stream that always does so delivers nothing here. */
  lemma CrLfDeliversNothing<T>(text: string, decode: string -> Option<T>)
    requires CrLfOnly(text)
    ensures Delivered(text, decode) == []
  {
    forall i: nat ensures !OccursAt(text, END, i) { EndIsTwoLineFeeds(text, i); }
  }
}
