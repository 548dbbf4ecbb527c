/** Trimming and searching of text, for any notion of a blank character. */
module Text {
  import opened Wrappers

  /** Python's notion of white space, as `str.strip` uses it. */
  predicate IsSpace(c: char) {
    c in " \t\n\r" || '\U{000B}' <= c <= '\U{000C}' || '\U{001C}' <= c <= '\U{001F}'
    || c == '\U{0085}' || c == '\U{00A0}' || c == '\U{1680}' || '\U{2000}' <= c <= '\U{200A}'
    || c == '\U{2028}' || c == '\U{2029}' || c == '\U{202F}' || c == '\U{205F}' || c == '\U{3000}'
  }

  /** ASCII lower case. */
  function Lower(s: string): string {
    seq(|s|, i requires 0 <= i < |s| => if 'A' <= s[i] <= 'Z' then s[i] - 'A' + 'a' else s[i])
  }

  function TrimStart(s: string, blank: char -> bool): (r: string)
    ensures |r| <= |s| && r == s[|s| - |r|..]
    ensures r != "" ==> !blank(r[0])
    ensures forall i | 0 <= i < |s| - |r| :: blank(s[i])
  {
    if s != "" && blank(s[0]) then TrimStart(s[1..], blank) else s
  }

  function TrimEnd(s: string, blank: char -> bool): (r: string)
    ensures |r| <= |s| && r == s[..|r|]
    ensures r != "" ==> !blank(r[|r| - 1])
    ensures forall i | |r| <= i < |s| :: blank(s[i])
  {
    if s != "" && blank(s[|s| - 1]) then TrimEnd(s[..|s| - 1], blank) else s
  }

  function Trim(s: string, blank: char -> bool): string {
    TrimEnd(TrimStart(s, blank), blank)
  }

  predicate Trimmed(s: string, blank: char -> bool) {
    s != "" ==> !blank(s[0]) && !blank(s[|s| - 1])
  }

  /** Does `pattern` occur in `s` at position `i`? */
  predicate OccursAt(s: string, pattern: string, i: nat) {
    i + |pattern| <= |s| && s[i..i + |pattern|] == pattern
  }

  /** The first occurrence at or after `from`. */
  function Find(s: string, pattern: string, from: nat): (r: Option<nat>)
    ensures r.Some? ==> from <= r.value && OccursAt(s, pattern, r.value)
    ensures forall i: nat | from <= i && (r.Some? ==> i < r.value) :: !OccursAt(s, pattern, i)
    decreases |s| - from
  {
    if from + |pattern| > |s| then None
    else if OccursAt(s, pattern, from) then Some(from)
    else Find(s, pattern, from + 1)
  }

  lemma TrimStartAfterBlanks(left: string, s: string, blank: char -> bool)
    requires s != "" && !blank(s[0]) && forall c | c in left :: blank(c)
    ensures TrimStart(left + s, blank) == s
  {
    var whole := left + s;
    var front := TrimStart(whole, blank);
    var cut := |whole| - |front|;
    assert forall i | 0 <= i < |left| :: whole[i] == left[i];
    assert whole[|left|] == s[0] && front == whole[cut..];
    assert cut == |left|;
  }

  lemma TrimEndBeforeBlanks(s: string, right: string, blank: char -> bool)
    requires s != "" && !blank(s[|s| - 1]) && forall c | c in right :: blank(c)
    ensures TrimEnd(s + right, blank) == s
  {
    var whole := s + right;
    var kept := TrimEnd(whole, blank);
    assert forall i | |s| <= i < |whole| :: whole[i] == right[i - |s|];
    assert whole[|s| - 1] == s[|s| - 1] && kept == whole[..|kept|];
    assert |kept| == |s|;
  }

  /** A trimmed text is what trimming leaves of it between any blanks. */
  lemma TrimBetweenBlanks(left: string, s: string, right: string, blank: char -> bool)
    requires s != "" && Trimmed(s, blank)
    requires forall c | c in left || c in right :: blank(c)
    ensures Trim(left + s + right, blank) == s
  {
    assert left + s + right == left + (s + right);
    TrimStartAfterBlanks(left, s + right, blank);
    TrimEndBeforeBlanks(s, right, blank);
  }

  lemma TrimIsTrimmed(s: string, blank: char -> bool)
    ensures Trimmed(Trim(s, blank), blank)
    ensures Trimmed(s, blank) ==> Trim(s, blank) == s
  {
    var front := TrimStart(s, blank);
    var r := TrimEnd(front, blank);
    assert r != "" ==> r[0] == front[0];
  }
}
