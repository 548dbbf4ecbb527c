/** The manual's pages: a frontmatter block printed and parsed back. */
module Instructions {
  import opened Wrappers
  import opened Text

  // ---- lines -----------------------------------------------------------------------------

  /** Where Python's `splitlines` ends a line. */
  predicate IsBreak(c: char) {
    '\n' <= c <= '\r' || '\U{001C}' <= c <= '\U{001E}' || c == '\U{0085}' || c == '\U{2028}' || c == '\U{2029}'
  }

  predicate SingleLine(s: string) {
    forall c | c in s :: !IsBreak(c)
  }

  function FirstBreak(s: string): (i: nat)
    ensures i <= |s| && SingleLine(s[..i]) && (i < |s| ==> IsBreak(s[i]))
  {
    if s == "" || IsBreak(s[0]) then 0 else 1 + FirstBreak(s[1..])
  }

  function SplitLines(s: string): seq<string>
    decreases |s|
  {
    if s == "" then []
    else
      var i := FirstBreak(s);
      if i == |s| then [s]
      else
        var width := if s[i] == '\r' && i + 1 < |s| && s[i + 1] == '\n' then 2 else 1;
        [s[..i]] + SplitLines(s[i + width..])
  }

  predicate IsNewline(c: char) {
    c == '\n'
  }

  // ---- integers --------------------------------------------------------------------------

  function Digit(d: nat): char
    requires d < 10
  {
    '0' + d as char
  }

  function NatText(n: nat): (s: string)
    ensures s != "" && forall c | c in s :: '0' <= c <= '9'
  {
    if n < 10 then [Digit(n)] else NatText(n / 10) + [Digit(n % 10)]
  }

  function IntText(n: int): string {
    if n < 0 then "-" + NatText(-n) else NatText(n)
  }

  function ParseNat(s: string): Option<nat> {
    if s == "" || !('0' <= s[|s| - 1] <= '9') then None
    else
      var last := (s[|s| - 1] - '0') as nat;
      if |s| == 1 then Some(last)
      else match ParseNat(s[..|s| - 1])
        case Some(front) => Some(10 * front + last)
        case None => None
  }

  function Minus(n: int): Option<int> {
    Some(-n)
  }

  /** `int` on text: blanks around an optional sign and digits. */
  function ParseInt(s: string): Option<int> {
    var t := Trim(s, IsSpace);
    if t != "" && t[0] == '-' then
      match ParseNat(t[1..])
      case Some(n) => Minus(n)
      case None => None
    else if t != "" && t[0] == '+' then
      match ParseNat(t[1..])
      case Some(n) => Some(n)
      case None => None
    else match ParseNat(t)
      case Some(n) => Some(n)
      case None => None
  }

  // ---- printing and parsing --------------------------------------------------------------

  /** `_render`. */
  function Render(title: string, category: string, order: int, body: string): string {
    "---\ntitle: " + title + "\ncategory: " + category + "\norder: " + IntText(order) + "\n---\n"
    + (TrimEnd(body, IsSpace) + "\n")
  }

  const FENCE := "---"
  const CLOSE := "\n---"

  /** The lines between the fences, and the text behind them; without both fences, the whole text. */
  function Split(text: string): (Option<string>, string) {
    if !(FENCE <= text) then (None, text)
    else match Find(text, CLOSE, 3)
      case None => (None, text)
      case Some(end) => (Some(Trim(text[3..end], IsNewline)), TrimStart(text[end + 4..], IsNewline))
  }

  /** One line of the block: what stands before and behind its first colon. */
  function Noted(meta: map<string, string>, line: string): map<string, string> {
    match Find(line, ":", 0)
    case Some(i) => meta[Trim(line[..i], IsSpace) := Trim(line[i + 1..], IsSpace)]
    case None => meta
  }

  function AllNoted(lines: seq<string>): map<string, string> {
    if lines == [] then map[] else Noted(AllNoted(lines[..|lines| - 1]), lines[|lines| - 1])
  }

  function Meta(head: Option<string>): map<string, string> {
    match head
    case Some(h) => AllNoted(SplitLines(h))
    case None => map[]
  }

  /** `_parse`. */
  method Parse(text: string) returns (meta: map<string, string>, body: string)
    ensures (meta, body) == (Meta(Split(text).0), Split(text).1)
  {
    hide SplitLines, Find, Trim, TrimStart, Noted;
    meta, body := map[], text;
    if FENCE <= text {
      var end := Find(text, CLOSE, 3);
      if end.Some? {
        var head := Trim(text[3..end.value], IsNewline);
        body := TrimStart(text[end.value + 4..], IsNewline);
        var lines := SplitLines(head);
        for k := 0 to |lines|
          invariant meta == AllNoted(lines[..k])
        {
          assert lines[..k + 1][..k] == lines[..k];
          meta := Noted(meta, lines[k]);
        }
        assert lines[..|lines|] == lines;
      }
    }
  }

  datatype Entry = Entry(slug: string, title: string, category: string, order: int, content: string)

  /** The first markdown heading, without its marks. */
  function FirstHeading(lines: seq<string>): string {
    if lines == [] then ""
    else
      var s := Trim(lines[0], IsSpace);
      if s != "" && s[0] == '#' then Trim(TrimStart(s, c => c == '#'), IsSpace) else FirstHeading(lines[1..])
  }

  function Get(meta: map<string, string>, key: string, otherwise: string): string {
    if key in meta && meta[key] != "" then meta[key] else otherwise
  }

  /** `_entry_from_text`; `slugTitle` is the title made from the slug. */
  function EntryFromText(slug: string, slugTitle: string, text: string): Entry {
    var (head, body) := Split(text);
    var meta := Meta(head);
    var heading := FirstHeading(SplitLines(body));
    var order := if "order" in meta && ParseInt(meta["order"]).Some? then ParseInt(meta["order"]).value else 100;
    Entry(slug, Get(meta, "title", if heading != "" then heading else slugTitle),
          Get(meta, "category", "General"), order, body)
  }

  /** What printing and parsing make of a body: no newlines in front, no blanks behind but one newline,
      and nothing at all of a blank body. */
  function Normal(body: string): string {
    TrimStart(TrimEnd(body, IsSpace) + "\n", IsNewline)
  }
}
