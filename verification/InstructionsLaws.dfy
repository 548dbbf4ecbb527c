/** A page survives being printed and parsed. */
module InstructionsLaws {
  import opened Wrappers
  import opened Text
  import opened Instructions

  // ---- integers --------------------------------------------------------------------------

  lemma {:induction false} NatTextParses(n: nat)
    ensures ParseNat(NatText(n)) == Some(n)
  {
    if n >= 10 {
      NatTextParses(n / 10);
      var s := NatText(n / 10) + [Digit(n % 10)];
      assert s[..|s| - 1] == NatText(n / 10);
    }
  }

  lemma IntTextPlain(n: int)
    ensures var s := IntText(n);
            s != "" && Trimmed(s, IsSpace) && SingleLine(s)
            && (n >= 0 ==> s[0] != '-') && s[0] != '+'
  {
    var digits := NatText(if n < 0 then -n else n);
    assert digits[0] in digits && digits[|digits| - 1] in digits;
  }

  lemma IntTextParses(n: int)
    ensures ParseInt(IntText(n)) == Some(n)
  {
    hide NatText, ParseNat, Trim;
    IntTextPlain(n);
    TrimIsTrimmed(IntText(n), IsSpace);
    NatTextParses(if n < 0 then -n else n);
    if n < 0 { assert IntText(n)[1..] == NatText(-n); }
  }

  // ---- the fences ------------------------------------------------------------------------

  function LineThen(line: string, rest: string): string {
    "\n" + line + rest
  }

  function Shifted(n: nat, i: Option<nat>): Option<nat> {
    match i
    case Some(k) => Some(n + k)
    case None => None
  }

  lemma ClosesAt(s: string, i: nat)
    ensures OccursAt(s, CLOSE, i) ==> i + 1 < |s| && s[i] == '\n' && s[i + 1] == '-'
  {
    if i + 4 <= |s| { assert s[i..i + 4][0] == s[i] && s[i..i + 4][1] == s[i + 1]; }
  }

  /** Searching from a position is searching the text behind it. */
  lemma {:induction false} FindShifts(s: string, n: nat, k: nat)
    requires n + k <= |s|
    ensures Find(s, CLOSE, n + k) == Shifted(n, Find(s[n..], CLOSE, k))
    decreases |s| - k
  {
    SameOccurrence(s, n, k);
    if n + k + 4 <= |s| {
      hide OccursAt;
      FindShifts(s, n, k + 1);
    }
  }

  lemma SameOccurrence(s: string, n: nat, k: nat)
    requires n + k <= |s|
    ensures OccursAt(s[n..], CLOSE, k) <==> OccursAt(s, CLOSE, n + k)
  {
    if n + k + 4 <= |s| { assert s[n..][k..k + 4] == s[n + k..n + k + 4]; }
  }

  lemma FindBehind(s: string, from: nat, n: nat)
    requires from <= n <= |s| && forall i: nat | from <= i < n :: !OccursAt(s, CLOSE, i)
    ensures Find(s, CLOSE, from) == Shifted(n, Find(s[n..], CLOSE, 0))
  {
    SameFrom(s, from, n);
    FindShifts(s, n, 0);
  }

  lemma SameFrom(s: string, from: nat, to: nat)
    requires from <= to && forall i: nat | from <= i < to :: !OccursAt(s, CLOSE, i)
    ensures Find(s, CLOSE, from) == Find(s, CLOSE, to)
  {
    hide OccursAt;
    var a, b := Find(s, CLOSE, from), Find(s, CLOSE, to);
    assert a.Some? ==> a.value >= to && OccursAt(s, CLOSE, a.value);
  }

  /** The closing fence is not in a line that starts with something else. */
  lemma NotInLine(line: string, rest: string)
    requires line != "" && '\n' !in line && line[0] != '-'
    ensures Find(LineThen(line, rest), CLOSE, 0) == Shifted(1 + |line|, Find(rest, CLOSE, 0))
  {
    var s := LineThen(line, rest);
    forall i: nat | i < 1 + |line| ensures !OccursAt(s, CLOSE, i) {
      ClosesAt(s, i);
      assert s[1] == line[0];
      assert i > 0 ==> s[i] == line[i - 1] && s[i] in line;
    }
    assert s[1 + |line|..] == rest;
    FindBehind(s, 0, 1 + |line|);
  }

  /** Lines, each behind a newline, and what follows them. */
  function Block(lines: seq<string>, rest: string): string {
    if lines == [] then rest else LineThen(lines[0], Block(lines[1..], rest))
  }

  function Opened(t: string): string {
    FENCE + t
  }

  function Closed(rest: string): string {
    CLOSE + rest
  }

  function Fenced(lines: seq<string>, rest: string): string {
    Opened(Block(lines, Closed(rest)))
  }

  /** A line of the block. */
  predicate Plain(line: string) {
    line != "" && SingleLine(line) && line[0] != '-'
  }

  predicate AllPlain(lines: seq<string>) {
    lines != [] && forall line | line in lines :: Plain(line)
  }

  lemma SplitsAt(t: string, end: nat)
    requires Find(t, CLOSE, 0) == Some(end) && end + 4 <= |t|
    ensures Split(Opened(t)) == (Some(Trim(t[..end], IsNewline)), TrimStart(t[end + 4..], IsNewline))
  {
    hide Find, Trim, TrimStart, Opened, OccursAt, IsNewline;
    BehindFence(t, end);
    FindShifts(Opened(t), 3, 0);
    assert Opened(t)[3..] == t;
  }

  lemma BehindFence(t: string, end: nat)
    requires end + 4 <= |t|
    ensures var s := Opened(t);
            && FENCE <= s && |s| == 3 + |t| && s[3..] == t && s[3..3 + end] == t[..end]
            && s[3 + end + 4..] == t[end + 4..]
  {
  }

  lemma {:induction false} BlockThen(lines: seq<string>, rest: string)
    ensures Block(lines, rest) == Block(lines, "") + rest
  {
    if lines != [] {
      BlockThen(lines[1..], rest);
      assert LineThen(lines[0], Block(lines[1..], "") + rest) == LineThen(lines[0], Block(lines[1..], "")) + rest;
    }
  }

  /** The closing fence is found behind the last line. */
  lemma {:induction false} BlockEnds(lines: seq<string>, rest: string)
    requires forall line | line in lines :: Plain(line)
    ensures Find(Block(lines, Closed(rest)), CLOSE, 0) == Some(|Block(lines, "")|)
  {
    hide Find, LineThen, Closed, Plain;
    if lines == [] {
      CloseIsFirst(rest);
    } else {
      assert Plain(lines[0]) && forall line | line in lines[1..] :: line in lines;
      PlainIsLine(lines[0]);
      BlockEnds(lines[1..], rest);
      NotInLine(lines[0], Block(lines[1..], Closed(rest)));
      LineLength(lines[0], Block(lines[1..], ""));
    }
  }

  lemma PlainIsLine(line: string)
    requires Plain(line)
    ensures line != "" && '\n' !in line && line[0] != '-'
  {
  }

  lemma LineLength(line: string, rest: string)
    ensures |LineThen(line, rest)| == 1 + |line| + |rest|
  {
  }

  lemma CloseIsFirst(rest: string)
    ensures Find(Closed(rest), CLOSE, 0) == Some(0)
  {
    assert Closed(rest)[0..0 + 4] == CLOSE;
  }

  /** The block without its first newline. */
  function Head(lines: seq<string>): string
    requires lines != []
  {
    lines[0] + Block(lines[1..], "")
  }

  lemma {:induction false} HeadEnds(lines: seq<string>)
    requires AllPlain(lines)
    ensures var h := Head(lines); h != "" && h[0] != '\n' && h[|h| - 1] != '\n'
  {
    var h := Head(lines);
    PlainIsLine(lines[0]);
    assert h[0] == lines[0][0] && h[0] in lines[0];
    if |lines| == 1 {
      assert h == lines[0] && h[|h| - 1] in lines[0];
    } else {
      assert lines[1] in lines && forall line | line in lines[1..] :: line in lines;
      HeadEnds(lines[1..]);
      assert h == lines[0] + ("\n" + Head(lines[1..]));
      assert h[|h| - 1] == Head(lines[1..])[|Head(lines[1..])| - 1];
    }
  }

  lemma BlockTrims(lines: seq<string>)
    requires AllPlain(lines)
    ensures Trim(Block(lines, ""), IsNewline) == Head(lines)
  {
    hide Trim, Plain;
    HeadEnds(lines);
    TrimBetweenBlanks("\n", Head(lines), "", IsNewline);
    assert Block(lines, "") == "\n" + Head(lines) + "";
  }

  lemma SplitsFenced(lines: seq<string>, rest: string)
    requires AllPlain(lines)
    ensures Split(Fenced(lines, rest)) == (Some(Head(lines)), TrimStart(rest, IsNewline))
  {
    hide Find, Trim, TrimStart, Plain, Split, Head, Opened, Block;
    var t, end := Block(lines, Closed(rest)), |Block(lines, "")|;
    BlockEnds(lines, rest);
    BlockThen(lines, Closed(rest));
    assert t[..end] == Block(lines, "") && t[end + 4..] == rest;
    SplitsAt(t, end);
    BlockTrims(lines);
  }

  lemma FirstBreakAt(line: string, rest: string)
    requires SingleLine(line) && rest != "" && IsBreak(rest[0])
    ensures FirstBreak(line + rest) == |line|
  {
    var s := line + rest;
    var i := FirstBreak(s);
    assert s[|line|] == rest[0] && i < |s|;
    forall k | 0 <= k < |line| ensures !IsBreak(s[k]) { assert s[k] == line[k] && line[k] in line; }
    forall k | 0 <= k < i ensures !IsBreak(s[k]) { assert s[k] == s[..i][k]; }
  }

  lemma SplitsOne(line: string, rest: string)
    requires SingleLine(line)
    ensures SplitLines(line + ("\n" + rest)) == [line] + SplitLines(rest)
  {
    var s := line + ("\n" + rest);
    FirstBreakAt(line, "\n" + rest);
    assert s[..|line|] == line && s[|line|] == '\n' && s[|line| + 1..] == rest;
  }

  lemma SplitsLast(line: string)
    requires SingleLine(line) && line != ""
    ensures SplitLines(line) == [line]
  {
    forall k | 0 <= k < |line| ensures !IsBreak(line[k]) { assert line[k] in line; }
    assert line[..|line|] == line;
  }

  lemma {:induction false} HeadLines(lines: seq<string>)
    requires AllPlain(lines)
    ensures SplitLines(Head(lines)) == lines
  {
    hide SplitLines, SingleLine;
    assert Plain(lines[0]) && forall line | line in lines[1..] :: line in lines;
    if |lines| == 1 {
      assert Head(lines) == lines[0] && lines == [lines[0]];
      SplitsLast(lines[0]);
    } else {
      HeadLines(lines[1..]);
      assert Head(lines) == lines[0] + ("\n" + Head(lines[1..]));
      SplitsOne(lines[0], Head(lines[1..]));
    }
  }

  /** A line `key: value` notes the value under the key without the blanks around it, colons in it
      and all. */
  lemma NotesValue(meta: map<string, string>, key: string, value: string)
    requires key != "" && ':' !in key && Trimmed(key, IsSpace)
    ensures Noted(meta, key + ": " + value) == meta[key := Trim(value, IsSpace)]
  {
    hide Trim, IsSpace;
    var line := key + ": " + value;
    assert OccursAt(line, ":", |key|) by { assert line[|key|..|key| + 1] == [line[|key|]] && line[|key|] == ':'; }
    forall i: nat | i < |key| ensures !OccursAt(line, ":", i) {
      assert line[i..i + 1] == [key[i]] && key[i] in key;
    }
    assert Find(line, ":", 0) == Some(|key|);
    TrimIsTrimmed(key, IsSpace);
    BlankInFront(value);
    assert line[..|key|] == key && line[|key| + 1..] == " " + value;
  }

  lemma BlankInFront(value: string)
    ensures Trim(" " + value, IsSpace) == Trim(value, IsSpace)
  {
    assert (" " + value)[1..] == value;
  }

  /** Blanks around a key are no part of it, and a line without a colon notes nothing. */
  lemma NotesKey(meta: map<string, string>, left: string, key: string, right: string, value: string)
    requires key != "" && ':' !in key && Trimmed(key, IsSpace)
    requires forall c | c in left || c in right :: IsSpace(c)
    ensures Noted(meta, left + key + right + (":" + value)) == meta[key := Trim(value, IsSpace)]
  {
    hide Trim;
    var front := left + key + right;
    var line := front + (":" + value);
    forall c | c in front ensures c != ':' {}
    TrimBetweenBlanks(left, key, right, IsSpace);
    ColonAt(front, value);
    assert line[..|front|] == front && line[|front| + 1..] == value;
  }

  lemma ColonAt(front: string, value: string)
    requires ':' !in front
    ensures Find(front + (":" + value), ":", 0) == Some(|front|)
  {
    var line := front + (":" + value);
    assert OccursAt(line, ":", |front|) by { assert line[|front|..|front| + 1] == [line[|front|]]; }
    forall i: nat | i < |front| ensures !OccursAt(line, ":", i) {
      assert line[i..i + 1] == [front[i]] && front[i] in front;
    }
  }

  lemma NoColonNotesNothing(meta: map<string, string>, line: string)
    requires ':' !in line
    ensures Noted(meta, line) == meta
  {
    hide Trim;
    NoColon(line);
  }

  lemma NoColon(line: string)
    requires ':' !in line
    ensures Find(line, ":", 0) == None
  {
    forall i: nat ensures !OccursAt(line, ":", i) {
      if i < |line| { assert line[i..i + 1] == [line[i]] && line[i] in line; }
    }
  }

  /** Each of Python's line breaks ends a line, and a carriage return with its line feed is one break. */
  lemma BreaksSplit(line: string, ending: char, rest: string)
    requires SingleLine(line) && IsBreak(ending) && (ending == '\r' ==> rest == "" || rest[0] != '\n')
    ensures SplitLines(line + ([ending] + rest)) == [line] + SplitLines(rest)
    ensures SplitLines(line + ("\r\n" + rest)) == [line] + SplitLines(rest)
  {
    hide SingleLine;
    var s := line + ([ending] + rest);
    FirstBreakAt(line, [ending] + rest);
    assert s[..|line|] == line && s[|line|] == ending && s[|line| + 1..] == rest;
    assert rest != "" ==> s[|line| + 1] == rest[0];
    var t := line + ("\r\n" + rest);
    FirstBreakAt(line, "\r\n" + rest);
    assert t[..|line|] == line && t[|line|] == '\r' && t[|line| + 1] == '\n' && t[|line| + 2..] == rest;
  }

  lemma NotedLast(lines: seq<string>, line: string)
    ensures AllNoted(lines + [line]) == Noted(AllNoted(lines), line)
  {
    hide Noted;
    assert (lines + [line])[..|lines|] == lines;
  }

  // ---- a page ----------------------------------------------------------------------------

  /** A title or category: some text, on one line, without blanks around it. */
  predicate Named(s: string) {
    s != "" && Trimmed(s, IsSpace) && SingleLine(s)
  }

  lemma Regroup(a: string, b: string, c: string, d: string, e: string, f: string, g: string, h: string)
    ensures a + b + c + d + e + f + g + h == a + b + (c + d + (e + f + (g + h)))
  {
    assert g + h == g + h;
    assert e + f + (g + h) == e + f + g + h;
    assert c + d + (e + f + g + h) == c + d + e + f + g + h;
  }

  lemma LineOf(newline: string, key: string, value: string, rest: string)
    requires newline == "\n" + key
    ensures newline + value + rest == LineThen(key + value, rest)
  {
  }

  function TitleLine(title: string): string { "title: " + title }
  function CategoryLine(category: string): string { "category: " + category }
  function OrderLine(order: int): string { "order: " + IntText(order) }

  function PageLines(title: string, category: string, order: int): seq<string> {
    [TitleLine(title), CategoryLine(category), OrderLine(order)]
  }

  /** A printed page is a fenced block of three lines. */
  lemma RenderIsFenced(title: string, category: string, order: int, body: string)
    ensures Render(title, category, order, body)
         == Fenced(PageLines(title, category, order), "\n" + (TrimEnd(body, IsSpace) + "\n"))
  {
    hide IntText, TrimEnd, LineThen, Opened;
    var b := TrimEnd(body, IsSpace) + "\n";
    Regroup("---\ntitle: ", title, "\ncategory: ", category, "\norder: ", IntText(order), "\n---\n", b);
    assert "\n---\n" + b == Closed("\n" + b);
    LineOf("\norder: ", "order: ", IntText(order), Closed("\n" + b));
    var t3 := LineThen(OrderLine(order), Closed("\n" + b));
    LineOf("\ncategory: ", "category: ", category, t3);
    FirstLineOf(title, LineThen(CategoryLine(category), t3));
    ThreeLines(TitleLine(title), CategoryLine(category), OrderLine(order), Closed("\n" + b));
  }

  lemma ThreeLines(l1: string, l2: string, l3: string, rest: string)
    ensures Block([l1, l2, l3], rest) == LineThen(l1, LineThen(l2, LineThen(l3, rest)))
  {
    hide LineThen;
    assert [l1, l2, l3][1..] == [l2, l3] && [l2, l3][1..] == [l3] && [l3][1..] == [];
    assert Block([l3], rest) == LineThen(l3, rest) && Block([l2, l3], rest) == LineThen(l2, Block([l3], rest));
  }

  lemma FirstLineOf(title: string, rest: string)
    ensures "---\ntitle: " + title + rest == Opened(LineThen(TitleLine(title), rest))
  {
    assert "---\ntitle: " == "---" + "\n" + "title: ";
  }

  lemma LinesArePlain(title: string, category: string, order: int)
    requires SingleLine(title) && SingleLine(category)
    ensures Plain(TitleLine(title)) && Plain(CategoryLine(category)) && Plain(OrderLine(order))
  {
    IntTextPlain(order);
  }

  lemma PageIsPlain(title: string, category: string, order: int)
    requires SingleLine(title) && SingleLine(category)
    ensures AllPlain(PageLines(title, category, order))
  {
    hide Plain, SingleLine, TitleLine, CategoryLine, OrderLine;
    LinesArePlain(title, category, order);
  }

  lemma NotesTitle(meta: map<string, string>, title: string)
    ensures Noted(meta, TitleLine(title)) == meta["title" := Trim(title, IsSpace)]
  {
    hide Noted, Trim;
    NotesValue(meta, "title", title);
    assert TitleLine(title) == "title" + ": " + title;
  }

  lemma NotesCategory(meta: map<string, string>, category: string)
    ensures Noted(meta, CategoryLine(category)) == meta["category" := Trim(category, IsSpace)]
  {
    hide Noted, Trim;
    NotesValue(meta, "category", category);
    assert CategoryLine(category) == "category" + ": " + category;
  }

  lemma NotesOrder(meta: map<string, string>, order: int)
    ensures Noted(meta, OrderLine(order)) == meta["order" := IntText(order)]
  {
    hide Noted, Trim, IntText;
    NotesValue(meta, "order", IntText(order));
    IntTextPlain(order);
    TrimIsTrimmed(IntText(order), IsSpace);
    assert OrderLine(order) == "order" + ": " + IntText(order);
  }

  lemma BlockMeta(title: string, category: string, order: int)
    ensures AllNoted(PageLines(title, category, order))
         == map["title" := Trim(title, IsSpace), "category" := Trim(category, IsSpace), "order" := IntText(order)]
  {
    hide Noted, IntText, Trim, TitleLine, CategoryLine, OrderLine;
    NotedLast([], TitleLine(title));
    NotedLast([TitleLine(title)], CategoryLine(category));
    NotedLast([TitleLine(title), CategoryLine(category)], OrderLine(order));
    NotesTitle(map[], title);
    NotesCategory(map["title" := Trim(title, IsSpace)], category);
    var two := map["title" := Trim(title, IsSpace), "category" := Trim(category, IsSpace)];
    assert map["title" := Trim(title, IsSpace)]["category" := Trim(category, IsSpace)] == two;
    NotesOrder(two, order);
    assert [] + [TitleLine(title)] == [TitleLine(title)];
    assert PageLines(title, category, order) == [TitleLine(title), CategoryLine(category)] + [OrderLine(order)];
  }

  lemma NewlineInFront(x: string)
    ensures TrimStart("\n" + x, IsNewline) == TrimStart(x, IsNewline)
  {
    assert ("\n" + x)[1..] == x;
  }

  /** What is read from a fenced page: its lines' metadata, and the body in normal form. */
  lemma FencedReads(lines: seq<string>, body: string)
    requires AllPlain(lines)
    ensures var (head, rest) := Split(Fenced(lines, "\n" + (TrimEnd(body, IsSpace) + "\n")));
            Meta(head) == AllNoted(lines) && rest == Normal(body)
  {
    hide Fenced, Split, Head, SplitLines, AllPlain, AllNoted, TrimStart, TrimEnd;
    SplitsFenced(lines, "\n" + (TrimEnd(body, IsSpace) + "\n"));
    HeadLines(lines);
    NewlineInFront(TrimEnd(body, IsSpace) + "\n");
  }

  /** Printing a page whose title and category are on one line and parsing it gives back both without the
      blanks around them, as far as anything is left, the order, and the body in normal form. */
  lemma LinesReadBack(slug: string, slugTitle: string, title: string, category: string, order: int, body: string)
    requires SingleLine(title) && SingleLine(category)
    ensures var e := EntryFromText(slug, slugTitle, Render(title, category, order, body));
            && e.slug == slug && e.order == order && e.content == Normal(body)
            && (Trim(title, IsSpace) != "" ==> e.title == Trim(title, IsSpace))
            && (Trim(category, IsSpace) != "" ==> e.category == Trim(category, IsSpace))
  {
    hide Render, Split, Meta, SplitLines, FirstHeading, IntText, ParseInt, AllNoted, AllPlain, Trim, Normal, Fenced;
    RenderIsFenced(title, category, order, body);
    PageIsPlain(title, category, order);
    FencedReads(PageLines(title, category, order), body);
    BlockMeta(title, category, order);
    IntTextParses(order);
  }

  /** Printing a page and parsing it gives back its title, category and order, and its body in normal
      form, whatever the body holds. */
  lemma PageSurvives(slug: string, slugTitle: string, title: string, category: string, order: int, body: string)
    requires Named(title) && Named(category)
    ensures EntryFromText(slug, slugTitle, Render(title, category, order, body))
         == Entry(slug, title, category, order, Normal(body))
  {
    hide EntryFromText, Render, Normal, Trim, SingleLine;
    LinesReadBack(slug, slugTitle, title, category, order, body);
    TrimIsTrimmed(title, IsSpace);
    TrimIsTrimmed(category, IsSpace);
  }

  /** The normal form of a body: nothing for a blank one, else the body from its first non-newline to
      its last non-blank, and one newline. */
  lemma NormalShape(body: string)
    ensures var kept := TrimEnd(body, IsSpace);
            Normal(body) == if kept == "" then "" else TrimStart(kept, IsNewline) + "\n"
    ensures TrimEnd(body, IsSpace) != "" ==> TrimStart(TrimEnd(body, IsSpace), IsNewline) != ""
  {
    var kept := TrimEnd(body, IsSpace);
    if kept != "" {
      assert !IsSpace(kept[|kept| - 1]);
      TrimStartSnoc(kept, "\n");
    } else {
      assert kept + "\n" == "\n" && "\n"[1..] == "";
    }
  }

  lemma {:induction false} TrimStartSnoc(s: string, tail: string)
    requires s != "" && !IsNewline(s[|s| - 1])
    ensures TrimStart(s + tail, IsNewline) == TrimStart(s, IsNewline) + tail && TrimStart(s, IsNewline) != ""
  {
    assert (s + tail)[0] == s[0];
    if IsNewline(s[0]) {
      assert (s + tail)[1..] == s[1..] + tail;
      TrimStartSnoc(s[1..], tail);
    }
  }

  lemma NormalIsFixed(body: string)
    ensures Normal(Normal(body)) == Normal(body)
  {
    hide Normal, TrimEnd, TrimStart, IsSpace;
    NormalShape(body);
    var kept := TrimEnd(body, IsSpace);
    if kept != "" {
      var core := TrimStart(kept, IsNewline);
      assert core[|core| - 1] == kept[|kept| - 1];
      NewlineIsSpace();
      TrimEndBeforeBlanks(core, "\n", IsSpace);
      NormalShape(core + "\n");
      TrimStartOnce(kept);
    } else {
      NormalShape("");
      NothingTrims();
    }
  }

  lemma NewlineIsSpace()
    ensures IsSpace('\n')
  {
  }

  lemma NothingTrims()
    ensures TrimEnd("", IsSpace) == ""
  {
  }

  lemma {:induction false} TrimStartOnce(s: string)
    ensures TrimStart(TrimStart(s, IsNewline), IsNewline) == TrimStart(s, IsNewline)
  {
    if s != "" { TrimStartOnce(s[1..]); }
  }

  /** A page that was parsed from a print survives the next print and parse unchanged. */
  lemma SecondRoundChangesNothing(slug: string, slugTitle: string, title: string, category: string, order: int,
                                  body: string)
    requires Named(title) && Named(category)
    ensures var e := EntryFromText(slug, slugTitle, Render(title, category, order, body));
            EntryFromText(slug, slugTitle, Render(e.title, e.category, e.order, e.content)) == e
  {
    hide Render, Normal, EntryFromText;
    PageSurvives(slug, slugTitle, title, category, order, body);
    PageSurvives(slug, slugTitle, title, category, order, Normal(body));
    NormalIsFixed(body);
  }

  // ---- what cannot survive ---------------------------------------------------------------

  lemma PartIsSingleLine(s: string, from: nat, to: nat)
    requires SingleLine(s) && from <= to <= |s|
    ensures SingleLine(s[from..to])
  {
    forall c | c in s[from..to] ensures !IsBreak(c) { assert c in s; }
  }

  lemma TrimKeepsLine(s: string, blank: char -> bool)
    requires SingleLine(s)
    ensures SingleLine(TrimStart(s, blank)) && SingleLine(Trim(s, blank))
  {
    hide IsBreak;
    var front := TrimStart(s, blank);
    PartIsSingleLine(s, |s| - |front|, |s|);
    PartIsSingleLine(front, 0, |TrimEnd(front, blank)|);
  }

  lemma {:induction false} LinesAreSingle(s: string)
    ensures forall line | line in SplitLines(s) :: SingleLine(line)
    decreases |s|
  {
    if s != "" {
      var i := FirstBreak(s);
      if i == |s| {
        assert s[..|s|] == s;
      } else {
        var width := if s[i] == '\r' && i + 1 < |s| && s[i + 1] == '\n' then 2 else 1;
        LinesAreSingle(s[i + width..]);
      }
    }
  }

  lemma NotesSingleLine(meta: map<string, string>, line: string)
    requires SingleLine(line) && forall k | k in meta :: SingleLine(meta[k])
    ensures forall k | k in Noted(meta, line) :: SingleLine(Noted(meta, line)[k])
  {
    hide SingleLine, Trim;
    var at := Find(line, ":", 0);
    if at.Some? {
      PartIsSingleLine(line, at.value + 1, |line|);
      assert line[at.value + 1..|line|] == line[at.value + 1..];
      TrimKeepsLine(line[at.value + 1..], IsSpace);
    }
  }

  lemma {:induction false} MetaIsSingleLine(lines: seq<string>)
    requires forall line | line in lines :: SingleLine(line)
    ensures forall k | k in AllNoted(lines) :: SingleLine(AllNoted(lines)[k])
  {
    hide SingleLine, Noted;
    if lines != [] {
      MetaIsSingleLine(lines[..|lines| - 1]);
      NotesSingleLine(AllNoted(lines[..|lines| - 1]), lines[|lines| - 1]);
    }
  }

  lemma {:induction false} HeadingIsSingleLine(lines: seq<string>)
    requires forall line | line in lines :: SingleLine(line)
    ensures SingleLine(FirstHeading(lines))
  {
    hide IsBreak, Trim, TrimStart;
    if lines != [] {
      HeadingIsSingleLine(lines[1..]);
      TrimKeepsLine(lines[0], IsSpace);
      var marks := c => c == '#';
      TrimKeepsLine(Trim(lines[0], IsSpace), marks);
      TrimKeepsLine(TrimStart(Trim(lines[0], IsSpace), marks), IsSpace);
    }
  }

  lemma NotesTrimmed(meta: map<string, string>, line: string)
    requires forall k | k in meta :: Trimmed(meta[k], IsSpace)
    ensures forall k | k in Noted(meta, line) :: Trimmed(Noted(meta, line)[k], IsSpace)
  {
    hide Trimmed, Trim;
    var at := Find(line, ":", 0);
    if at.Some? { TrimIsTrimmed(line[at.value + 1..], IsSpace); }
  }

  lemma {:induction false} MetaIsTrimmed(lines: seq<string>)
    ensures forall k | k in AllNoted(lines) :: Trimmed(AllNoted(lines)[k], IsSpace)
  {
    hide Trimmed, Noted;
    if lines != [] {
      MetaIsTrimmed(lines[..|lines| - 1]);
      NotesTrimmed(AllNoted(lines[..|lines| - 1]), lines[|lines| - 1]);
    }
  }

  lemma {:induction false} HeadingIsTrimmed(lines: seq<string>)
    ensures Trimmed(FirstHeading(lines), IsSpace)
  {
    hide IsSpace, Trim, TrimStart;
    if lines != [] {
      HeadingIsTrimmed(lines[1..]);
      var marks := c => c == '#';
      TrimIsTrimmed(TrimStart(Trim(lines[0], IsSpace), marks), IsSpace);
    }
  }

  /** Whatever a page holds, its parsed title and category are names: some text, on one line, without
      blanks around it. */
  lemma ParsedNamesAreNames(slug: string, slugTitle: string, text: string)
    requires Named(slugTitle)
    ensures var e := EntryFromText(slug, slugTitle, text); Named(e.title) && Named(e.category)
  {
    hide Split, SplitLines, AllNoted, FirstHeading, ParseInt, Trimmed, SingleLine;
    var (head, body) := Split(text);
    GeneralIsNamed();
    LinesAreSingle(body);
    HeadingIsSingleLine(SplitLines(body));
    HeadingIsTrimmed(SplitLines(body));
    if head.Some? {
      LinesAreSingle(head.value);
      MetaIsSingleLine(SplitLines(head.value));
      MetaIsTrimmed(SplitLines(head.value));
    }
  }

  lemma GeneralIsNamed()
    ensures Named("General")
  {
  }

  /** A printed page gives back its title and category exactly when both are names. */
  lemma PageSurvivesExactly(slug: string, slugTitle: string, title: string, category: string, order: int, body: string)
    requires Named(slugTitle)
    ensures var e := EntryFromText(slug, slugTitle, Render(title, category, order, body));
            e.title == title && e.category == category <==> Named(title) && Named(category)
  {
    hide EntryFromText, Render, Named;
    ParsedNamesAreNames(slug, slugTitle, Render(title, category, order, body));
    if Named(title) && Named(category) { PageSurvives(slug, slugTitle, title, category, order, body); }
  }

  /** A text without an opening fence, or without a closing one, is all body: titled by its first heading,
      else by its slug, in the category `General` with the order 100. */
  lemma BareTextReads(slug: string, slugTitle: string, text: string)
    requires |text| < 3 || text[..3] != "---" || Find(text, "\n---", 3) == None
    ensures var heading := FirstHeading(SplitLines(text));
            EntryFromText(slug, slugTitle, text)
            == Entry(slug, if heading != "" then heading else slugTitle, "General", 100, text)
  {
    hide Split, SplitLines, FirstHeading, ParseInt;
    BareSplits(text);
  }

  lemma BareSplits(text: string)
    requires |text| < 3 || text[..3] != "---" || Find(text, "\n---", 3) == None
    ensures Split(text) == (None, text)
  {
    hide Find;
    assert FENCE <= text ==> text[..3] == "---";
  }

  predicate IsHeading(line: string) {
    var s := Trim(line, IsSpace);
    s != "" && s[0] == '#'
  }

  /** The heading is that of the first line that starts with a mark, blanks aside, without its marks and
      the blanks around; without such a line there is none. */
  lemma {:induction false} HeadingIsFirst(lines: seq<string>)
    ensures (forall k | 0 <= k < |lines| :: !IsHeading(lines[k])) ==> FirstHeading(lines) == ""
    ensures forall k | 0 <= k < |lines| && IsHeading(lines[k]) && (forall j | 0 <= j < k :: !IsHeading(lines[j])) ::
              FirstHeading(lines) == Trim(TrimStart(Trim(lines[k], IsSpace), c => c == '#'), IsSpace)
  {
    hide Trim, TrimStart, IsSpace;
    if lines != [] {
      HeadingIsFirst(lines[1..]);
      assert forall k | 1 <= k < |lines| :: lines[k] == lines[1..][k - 1];
    }
  }

  /** An order with a plus sign, or blanks around it, reads as the number. */
  lemma OrderReads(n: nat, m: int, left: string, right: string)
    requires forall c | c in left || c in right :: IsSpace(c)
    ensures ParseInt(left + ("+" + NatText(n)) + right) == Some(n)
    ensures ParseInt(left + IntText(m) + right) == Some(m)
  {
    hide NatText, ParseNat, Trim, IsSpace;
    var plus := "+" + NatText(n);
    assert plus[|plus| - 1] in NatText(n);
    SignsAreText(plus);
    TrimBetweenBlanks(left, plus, right, IsSpace);
    assert plus[1..] == NatText(n);
    NatTextParses(n);
    IntTextPlain(m);
    TrimBetweenBlanks(left, IntText(m), right, IsSpace);
    TrimIsTrimmed(IntText(m), IsSpace);
    IntTextParses(m);
  }

  lemma SignsAreText(s: string)
    requires s != "" && s[0] == '+' && '0' <= s[|s| - 1] <= '9'
    ensures Trimmed(s, IsSpace)
  {
  }

  /** Field by field: of a title and a category on one line, each is read back exactly when it is a name,
      whatever the other is. */
  lemma FieldsSurviveExactly(slug: string, slugTitle: string, title: string, category: string, order: int,
                             body: string)
    requires Named(slugTitle) && SingleLine(title) && SingleLine(category)
    ensures var e := EntryFromText(slug, slugTitle, Render(title, category, order, body));
            && (e.title == title <==> Named(title)) && (e.category == category <==> Named(category))
            && e.order == order && e.content == Normal(body)
  {
    hide EntryFromText, Render, Normal, Trim, SingleLine;
    ParsedNamesAreNames(slug, slugTitle, Render(title, category, order, body));
    LinesReadBack(slug, slugTitle, title, category, order, body);
    TrimIsTrimmed(title, IsSpace);
    TrimIsTrimmed(category, IsSpace);
  }

  /** With a line break in the category, the page can read back with another title, however good its own. */
  lemma GoodTitleIsLost(slug: string, slugTitle: string, title: string, category: string, other: string,
                        order: int, body: string)
    requires Named(title) && Named(category) && Named(other)
    ensures EntryFromText(slug, slugTitle, Render(title, category + "\ntitle: " + other, order, body))
         == Entry(slug, other, category, order, Normal(body))
  {
    hide Named, Render, EntryFromText, Normal, Trim, SingleLine;
    NamedParts(title);
    NamedParts(category);
    NamedParts(other);
    BreakReads(slug, slugTitle, title, category, other, order, body);
  }

  lemma BreakReads(slug: string, slugTitle: string, title: string, category: string, other: string,
                   order: int, body: string)
    requires SingleLine(title) && SingleLine(category) && SingleLine(other)
    requires Trim(category, IsSpace) == category != "" && Trim(other, IsSpace) == other != ""
    ensures EntryFromText(slug, slugTitle, Render(title, category + "\ntitle: " + other, order, body))
         == Entry(slug, other, category, order, Normal(body))
  {
    hide Render, Split, Meta, SplitLines, FirstHeading, IntText, ParseInt, AllNoted, AllPlain, Trim, Normal, Fenced,
         SingleLine;
    var lines := [TitleLine(title), CategoryLine(category), TitleLine(other), OrderLine(order)];
    BreakIsLine(title, category, other, order, body);
    FourArePlain(title, category, other, order);
    hide TitleLine, CategoryLine, OrderLine;
    FencedReads(lines, body);
    FourNoted(title, category, other, order);
    IntTextParses(order);
  }

  lemma FourArePlain(title: string, category: string, other: string, order: int)
    requires SingleLine(title) && SingleLine(category) && SingleLine(other)
    ensures AllPlain([TitleLine(title), CategoryLine(category), TitleLine(other), OrderLine(order)])
  {
    hide Plain, SingleLine, TitleLine, CategoryLine, OrderLine;
    LinesArePlain(title, category, order);
    LinesArePlain(other, category, order);
  }

  lemma NamedParts(s: string)
    requires Named(s)
    ensures SingleLine(s) && s != "" && Trim(s, IsSpace) == s
  {
    TrimIsTrimmed(s, IsSpace);
  }

  lemma FourNoted(title: string, category: string, other: string, order: int)
    ensures AllNoted([TitleLine(title), CategoryLine(category), TitleLine(other), OrderLine(order)])
         == map["title" := Trim(other, IsSpace), "category" := Trim(category, IsSpace), "order" := IntText(order)]
  {
    hide Noted, IntText, Trim, TitleLine, CategoryLine, OrderLine;
    var l1, l2, l3, l4 := TitleLine(title), CategoryLine(category), TitleLine(other), OrderLine(order);
    assert [] + [l1] == [l1];
    NotedLast([], l1);
    NotedLast([l1], l2);
    NotedLast([l1, l2], l3);
    NotedLast([l1, l2, l3], l4);
    NotesTitle(map[], title);
    NotesCategory(map["title" := Trim(title, IsSpace)], category);
    var two := map["title" := Trim(title, IsSpace), "category" := Trim(category, IsSpace)];
    assert map["title" := Trim(title, IsSpace)]["category" := Trim(category, IsSpace)] == two;
    NotesTitle(two, other);
    var three := map["title" := Trim(other, IsSpace), "category" := Trim(category, IsSpace)];
    assert two["title" := Trim(other, IsSpace)] == three;
    NotesOrder(three, order);
    assert [l1, l2] + [l3] == [l1, l2, l3] && [l1, l2, l3] + [l4] == [l1, l2, l3, l4];
  }

  /** The line break is printed as one. */
  lemma BreakIsLine(title: string, category: string, other: string, order: int, body: string)
    ensures Render(title, category + "\ntitle: " + other, order, body)
         == Fenced([TitleLine(title), CategoryLine(category), TitleLine(other), OrderLine(order)],
                   "\n" + (TrimEnd(body, IsSpace) + "\n"))
  {
    hide IntText, TrimEnd, Closed, Opened, Render;
    var rest := Closed("\n" + (TrimEnd(body, IsSpace) + "\n"));
    RenderIsFenced(title, category + "\ntitle: " + other, order, body);
    hide LineThen;
    ThreeLines(TitleLine(title), CategoryLine(category + "\ntitle: " + other), OrderLine(order), rest);
    ThreeLines(CategoryLine(category), TitleLine(other), OrderLine(order), rest);
    TwoInOne(category, other, LineThen(OrderLine(order), rest));
    var lines := [TitleLine(title), CategoryLine(category), TitleLine(other), OrderLine(order)];
    assert lines[1..] == [CategoryLine(category), TitleLine(other), OrderLine(order)];
  }

  lemma TwoInOne(category: string, other: string, rest: string)
    ensures LineThen(CategoryLine(category + "\ntitle: " + other), rest)
         == LineThen(CategoryLine(category), LineThen(TitleLine(other), rest))
  {
    assert CategoryLine(category + "\ntitle: " + other) == CategoryLine(category) + ("\n" + TitleLine(other));
    assert CategoryLine(category) + ("\n" + TitleLine(other)) + rest
        == CategoryLine(category) + ("\n" + TitleLine(other) + rest);
  }
}
