/** Splitting a document into overlapping chunks that end at natural boundaries. */
module Knowledge {
  import opened Wrappers
  import opened Text

  const CHUNK_SIZE := 1500
  const CHUNK_OVERLAP := 150

  /** `s[from:to]` as Python slices: a negative end counts from the back. */
  function Slice(s: string, from: nat, to: int): string {
    var end := if to < 0 then to + |s| else if to > |s| then |s| else to;
    if from < end then s[from..end] else ""
  }

  /** The last occurrence. */
  function FindLast(s: string, pattern: string, before: nat): (r: Option<nat>)
    ensures r.Some? ==> r.value < before && OccursAt(s, pattern, r.value)
    ensures forall i: nat | i < before && OccursAt(s, pattern, i) :: r.Some? && i <= r.value
  {
    if before == 0 then None
    else if OccursAt(s, pattern, before - 1) then Some(before - 1)
    else FindLast(s, pattern, before - 1)
  }

  const SEPARATORS := ["\n\n", "\n", ". "]

  /** The window up to the last occurrence of a separator past its middle. */
  function CutAt(window: string, size: int, separator: string): (r: Option<string>)
    ensures r.Some? ==> |r.value| <= |window| && r.value == window[..|r.value|]
  {
    match FindLast(window, separator, |window| + 1)
    case Some(cut) => if cut > size / 2 then Some(window[..cut + |separator|]) else None
    case None => None
  }

  /** The first separator, from the strongest, that cuts the window. */
  function Cut(window: string, size: int, separators: seq<string>): (r: string)
    ensures |r| <= |window| && r == window[..|r|]
  {
    if separators == [] then window
    else match CutAt(window, size, separators[0])
      case Some(part) => part
      case None => Cut(window, size, separators[1..])
  }

  /** The text taken at one start, before and after stripping. */
  function Taken(text: string, start: nat, size: int): string {
    var window := Slice(text, start, start + size);
    if start + size < |text| then Cut(window, size, SEPARATORS) else window
  }

  function Chunk(text: string, start: nat, size: int): string {
    Trim(Taken(text, start, size), IsSpace)
  }

  function NextStart(start: nat, chunk: string, overlap: int): (next: nat)
    ensures next > start
  {
    if |chunk| - overlap > 1 then start + |chunk| - overlap else start + 1
  }

  function ChunksFrom(text: string, start: nat, size: int, overlap: int): seq<string>
    decreases |text| - start
  {
    if start >= |text| then []
    else
      var chunk := Chunk(text, start, size);
      (if chunk != "" then [chunk] else []) + ChunksFrom(text, NextStart(start, chunk, overlap), size, overlap)
  }

  function Chunks(document: string, size: int, overlap: int): seq<string> {
    var text := Trim(document, IsSpace);
    if text == "" then [] else if |text| <= size then [text] else ChunksFrom(text, 0, size, overlap)
  }

  /** One turn of the loop, after `before`. */
  lemma RestFrom(text: string, start: nat, size: int, overlap: int, before: seq<string>)
    ensures start < |text| ==>
      var chunk := Chunk(text, start, size);
      var next := NextStart(start, chunk, overlap);
      before + ChunksFrom(text, start, size, overlap)
      == (if chunk != "" then before + [chunk] else before) + ChunksFrom(text, next, size, overlap)
    ensures start >= |text| ==> before + ChunksFrom(text, start, size, overlap) == before
  {
    hide Chunk;
    if start < |text| {
      var chunk := Chunk(text, start, size);
      var rest := ChunksFrom(text, NextStart(start, chunk, overlap), size, overlap);
      assert before + ([chunk] + rest) == before + [chunk] + rest;
      assert before + ([] + rest) == before + rest;
    }
  }

  /** The loop over the separators. */
  method PreferBoundary(window: string, size: int) returns (chunk: string)
    ensures chunk == Cut(window, size, SEPARATORS)
  {
    hide CutAt;
    var k := 0;
    while k < |SEPARATORS|
      invariant 0 <= k <= |SEPARATORS|
      invariant Cut(window, size, SEPARATORS[k..]) == Cut(window, size, SEPARATORS)
    {
      var part := CutAt(window, size, SEPARATORS[k]);
      if part.Some? { return part.value; }
      k := k + 1;
    }
    return window;
  }

  /** `chunk_text`: it ends for every size and overlap. */
  method ChunkText(document: string, size: int := CHUNK_SIZE, overlap: int := CHUNK_OVERLAP)
    returns (chunks: seq<string>)
    ensures chunks == Chunks(document, size, overlap)
  {
    hide Trim, Slice, Cut, ChunksFrom, NextStart;
    var text := Trim(document, IsSpace);
    if text == "" { return []; }
    if |text| <= size { return [text]; }
    chunks := [];
    var start := 0;
    while start < |text|
      invariant chunks + ChunksFrom(text, start, size, overlap) == ChunksFrom(text, 0, size, overlap)
      decreases |text| - start
    {
      var end := start + size;
      var chunk := Slice(text, start, end);
      if end < |text| { chunk := PreferBoundary(chunk, size); }
      chunk := Trim(chunk, IsSpace);
      RestFrom(text, start, size, overlap, chunks);
      if chunk != "" { chunks := chunks + [chunk]; }
      start := NextStart(start, chunk, overlap);
    }
    RestFrom(text, start, size, overlap, chunks);
  }

  // ---- what the chunks are ---------------------------------------------------------------

  /** The chunk stands in the text at `at`. */
  predicate StandsAt(text: string, chunk: string, at: nat) {
    at + |chunk| <= |text| && text[at..at + |chunk|] == chunk
  }

  predicate CoveredBy(text: string, chunk: string, at: nat, i: nat) {
    StandsAt(text, chunk, at) && at <= i < at + |chunk|
  }

  /** How many blanks stripping takes off the front. */
  function Lead(s: string): nat {
    |s| - |TrimStart(s, IsSpace)|
  }

  lemma TakenIsPart(text: string, start: nat, size: int)
    requires size >= 1 && start < |text|
    ensures var t := Taken(text, start, size);
            1 <= |t| <= size && start + |t| <= |text| && t == text[start..start + |t|]
  {
    var window := Slice(text, start, start + size);
    if start + size < |text| {
      CutIsLong(window, size, SEPARATORS);
      var t := Cut(window, size, SEPARATORS);
      assert window[..|t|] == text[start..start + |t|];
    }
  }

  lemma {:induction false} CutIsLong(window: string, size: int, separators: seq<string>)
    requires size >= 1 && |window| >= 1
    ensures |Cut(window, size, separators)| >= 1
  {
    if separators != [] { CutIsLong(window, size, separators[1..]); }
  }

  /** Stripping leaves a part, with only blanks in front of it and behind it. */
  lemma TrimIsPart(s: string)
    ensures var r := Trim(s, IsSpace); var lead := Lead(s);
            lead + |r| <= |s| && r == s[lead..lead + |r|]
            && (forall k | 0 <= k < lead :: IsSpace(s[k])) && (forall k | lead + |r| <= k < |s| :: IsSpace(s[k]))
  {
    hide IsSpace;
    var front := TrimStart(s, IsSpace);
    var r := TrimEnd(front, IsSpace);
    hide TrimStart, TrimEnd;
    InnerPart(s, |s| - |front|, |r|);
    BlanksBehind(s, |s| - |front|, |r|);
  }

  lemma BlanksBehind(s: string, lead: nat, n: nat)
    requires lead + n <= |s| && forall k | n <= k < |s| - lead :: IsSpace(s[lead..][k])
    ensures forall k | lead + n <= k < |s| :: IsSpace(s[k])
  {
    hide IsSpace;
    forall k | lead + n <= k < |s| ensures IsSpace(s[k]) { assert s[lead..][k - lead] == s[k]; }
  }

  lemma InnerPart(s: string, from: nat, n: nat)
    requires from + n <= |s|
    ensures s[from..][..n] == s[from..from + n]
  {
  }

  /** A chunk is a trimmed part of the text, no longer than the size, at or behind its start. */
  lemma ChunkIsPart(text: string, start: nat, size: int)
    requires size >= 1 && start < |text|
    ensures var c := Chunk(text, start, size);
            |c| <= size && Trimmed(c, IsSpace) && StandsAt(text, c, start + Lead(Taken(text, start, size)))
  {
    hide IsSpace, Taken, Trim, Lead, Trimmed;
    var t := Taken(text, start, size);
    TakenIsPart(text, start, size);
    TrimIsPart(t);
    TrimIsTrimmed(t, IsSpace);
    PartOfPart(text, start, |t|, Lead(t), |Trim(t, IsSpace)|);
  }

  lemma PartOfPart(text: string, start: nat, n: nat, lead: nat, m: nat)
    requires start + n <= |text| && lead + m <= n
    ensures text[start + lead..start + lead + m] == text[start..start + n][lead..lead + m]
  {
    var part := text[start..start + n];
    assert forall k | lead <= k < lead + m :: part[k] == text[start + k];
  }

  /** The chunk holds every non-blank position of what was taken. */
  lemma ChunkCovers(text: string, start: nat, size: int, i: nat)
    requires size >= 1 && start < |text| && start <= i < start + |Taken(text, start, size)|
    requires i < |text| && !IsSpace(text[i])
    ensures CoveredBy(text, Chunk(text, start, size), start + Lead(Taken(text, start, size)), i)
  {
    hide IsSpace, Taken, Trim, Lead, Trimmed, StandsAt;
    var t := Taken(text, start, size);
    TakenIsPart(text, start, size);
    TrimIsPart(t);
    ChunkIsPart(text, start, size);
    assert t[i - start] == text[i];
  }

  /** Nothing but blanks is passed over on the way to the next start. */
  lemma StepCovers(text: string, start: nat, size: int, overlap: int, i: nat)
    requires size >= 1 && overlap >= 0 && start <= i < |text| && !IsSpace(text[i])
    requires i < NextStart(start, Chunk(text, start, size), overlap)
    ensures Chunk(text, start, size) != ""
    ensures CoveredBy(text, Chunk(text, start, size), start + Lead(Taken(text, start, size)), i)
  {
    hide IsSpace, Taken, Trim, Lead, Trimmed, StandsAt;
    TakenIsPart(text, start, size);
    TrimIsPart(Taken(text, start, size));
    ChunkCovers(text, start, size, i);
  }

  ghost predicate Covered(text: string, chunks: seq<string>, i: nat) {
    exists c: string, at: nat :: c in chunks && CoveredBy(text, c, at, i)
  }

  lemma {:induction false} RestIsCovered(text: string, start: nat, size: int, overlap: int, i: nat)
    requires size >= 1 && overlap >= 0 && start <= i < |text| && !IsSpace(text[i])
    ensures Covered(text, ChunksFrom(text, start, size, overlap), i)
    decreases |text| - start
  {
    hide IsSpace, Chunk, Lead, Taken, CoveredBy;
    var chunk := Chunk(text, start, size);
    var next := NextStart(start, chunk, overlap);
    var rest := ChunksFrom(text, next, size, overlap);
    var all := ChunksFrom(text, start, size, overlap);
    if i < next {
      StepCovers(text, start, size, overlap, i);
      assert chunk in all && CoveredBy(text, chunk, start + Lead(Taken(text, start, size)), i);
    } else {
      RestIsCovered(text, next, size, overlap, i);
      var c: string, at: nat :| c in rest && CoveredBy(text, c, at, i);
      assert c in all;
    }
  }

  /** Every non-blank position of the stripped document lies in some chunk. */
  lemma EverythingIsCovered(document: string, size: int, overlap: int, i: nat)
    requires size >= 1 && overlap >= 0
    requires i < |Trim(document, IsSpace)| && !IsSpace(Trim(document, IsSpace)[i])
    ensures Covered(Trim(document, IsSpace), Chunks(document, size, overlap), i)
  {
    hide IsSpace;
    var text := Trim(document, IsSpace);
    if |text| <= size {
      assert text in [text] && text[0..0 + |text|] == text && CoveredBy(text, text, 0, i);
    } else {
      RestIsCovered(text, 0, size, overlap, i);
    }
  }

  // ---- what overlapping is for -----------------------------------------------------------

  /** Whenever the step is longer than one, the next window starts `overlap` characters, and the blanks
      stripped in front, before the end of the chunk. */
  lemma WindowsOverlap(text: string, start: nat, size: int, overlap: int)
    requires size >= 1 && start < |text| && |Chunk(text, start, size)| - overlap > 1
    ensures var chunk, lead := Chunk(text, start, size), Lead(Taken(text, start, size));
            var next, end := NextStart(start, chunk, overlap), start + lead + |chunk|;
            && next == end - lead - overlap
            && StandsAt(text, chunk, start + lead)
            && (0 <= overlap <= |chunk| - lead ==> text[next..end] == chunk[|chunk| - overlap - lead..])
  {
    hide IsSpace, Taken, Lead, Chunk;
    ChunkIsPart(text, start, size);
    var chunk, lead := Chunk(text, start, size), Lead(Taken(text, start, size));
    var next, end := NextStart(start, chunk, overlap), start + lead + |chunk|;
    if 0 <= overlap <= |chunk| - lead {
      assert text[start + lead..end][|chunk| - overlap - lead..] == text[next..end];
    }
  }

  /** The passage of `n` characters from `i` lies within the chunk standing at `at`. */
  predicate Inside(text: string, chunk: string, at: nat, i: nat, n: nat) {
    StandsAt(text, chunk, at) && at <= i && i + n <= at + |chunk|
  }

  /** A passage no longer than the overlap and one, nor than what a cut always leaves, without blanks at
      its ends. */
  predicate Passage(text: string, size: int, overlap: int, i: nat, n: nat) {
    && 1 <= n && i + n <= |text| && !IsSpace(text[i]) && !IsSpace(text[i + n - 1])
    && n <= overlap + 1 && n <= size && n <= size / 2 + 2
  }

  lemma {:induction false} CutLeaves(window: string, size: int, separators: seq<string>)
    requires size >= 1 && forall s | s in separators :: s != ""
    ensures |Cut(window, size, separators)| == |window| || |Cut(window, size, separators)| >= size / 2 + 2
  {
    if separators != [] {
      assert separators[0] in separators && forall s | s in separators[1..] :: s in separators;
      CutLeaves(window, size, separators[1..]);
    }
  }

  /** What is taken reaches to the end of the text, or is as long as a passage may be. */
  lemma TakenReaches(text: string, start: nat, size: int)
    requires size >= 1 && start < |text|
    ensures var n := |Taken(text, start, size)|; start + n == |text| || n >= size || n >= size / 2 + 2
  {
    CutLeaves(Slice(text, start, start + size), size, SEPARATORS);
  }

  /** A passage that starts before the next window lies within this chunk. */
  lemma StepHoldsPassage(text: string, start: nat, size: int, overlap: int, i: nat, n: nat)
    requires size >= 1 && overlap >= 0 && start <= i && Passage(text, size, overlap, i, n)
    requires i < NextStart(start, Chunk(text, start, size), overlap)
    ensures Chunk(text, start, size) != ""
    ensures Inside(text, Chunk(text, start, size), start + Lead(Taken(text, start, size)), i, n)
  {
    hide IsSpace, Taken, Chunk, Lead;
    StepCovers(text, start, size, overlap, i);
    if |Chunk(text, start, size)| - overlap <= 1 {
      TakenReaches(text, start, size);
      ChunkCovers(text, start, size, i + n - 1);
    }
  }

  ghost predicate Held(text: string, chunks: seq<string>, i: nat, n: nat) {
    exists c: string, at: nat :: c in chunks && Inside(text, c, at, i, n)
  }

  lemma {:induction false} RestHolds(text: string, start: nat, size: int, overlap: int, i: nat, n: nat)
    requires size >= 1 && overlap >= 0 && start <= i && Passage(text, size, overlap, i, n)
    ensures Held(text, ChunksFrom(text, start, size, overlap), i, n)
    decreases |text| - start
  {
    hide IsSpace, Chunk, Lead, Taken, Inside;
    var chunk := Chunk(text, start, size);
    var next := NextStart(start, chunk, overlap);
    var rest := ChunksFrom(text, next, size, overlap);
    var all := ChunksFrom(text, start, size, overlap);
    if i < next {
      StepHoldsPassage(text, start, size, overlap, i, n);
      assert chunk in all && Inside(text, chunk, start + Lead(Taken(text, start, size)), i, n);
    } else {
      RestHolds(text, next, size, overlap, i, n);
      var c: string, at: nat :| c in rest && Inside(text, c, at, i, n);
      assert c in all;
    }
  }

  /** No short passage is torn: one of at most the overlap and one characters, and within what a cut
      always leaves, that has no blank at its ends lies whole in some chunk. */
  lemma PassagesStayWhole(document: string, size: int, overlap: int, i: nat, n: nat)
    requires size >= 1 && overlap >= 0 && Passage(Trim(document, IsSpace), size, overlap, i, n)
    ensures Held(Trim(document, IsSpace), Chunks(document, size, overlap), i, n)
  {
    hide IsSpace;
    var text := Trim(document, IsSpace);
    if |text| <= size {
      assert text in [text] && text[0..0 + |text|] == text && Inside(text, text, 0, i, n);
    } else {
      RestHolds(text, 0, size, overlap, i, n);
    }
  }

  /** A window that reaches the end of the text is taken whole, and a document no longer than the size is
      one chunk. */
  lemma LastWindowIsWhole(text: string, start: nat, size: int)
    requires start < |text| && start + size >= |text|
    ensures Taken(text, start, size) == text[start..]
  {
  }

  lemma ShortIsOneChunk(document: string, size: int, overlap: int)
    requires |Trim(document, IsSpace)| <= size
    ensures var text := Trim(document, IsSpace); Chunks(document, size, overlap) == if text == "" then [] else [text]
  {
    hide Trim;
  }

  /** A window that is not the last is the next `size` characters, before it is cut. */
  lemma WindowIsNext(text: string, start: nat, size: int)
    requires size >= 1 && start + size < |text|
    ensures Taken(text, start, size) == Cut(text[start..start + size], size, ["\n\n", "\n", ". "])
  {
    hide Cut;
  }

  // ---- the single chunk ------------------------------------------------------------------

  ghost predicate GoodChunk(text: string, chunk: string, size: int) {
    1 <= |chunk| <= size && Trimmed(chunk, IsSpace) && exists at: nat :: StandsAt(text, chunk, at)
  }

  lemma {:induction false} RestIsGood(text: string, start: nat, size: int, overlap: int, c: string)
    requires size >= 1 && c in ChunksFrom(text, start, size, overlap)
    ensures GoodChunk(text, c, size)
    decreases |text| - start
  {
    hide IsSpace, Chunk;
    var chunk := Chunk(text, start, size);
    if c == chunk && chunk != "" {
      ChunkIsPart(text, start, size);
    } else {
      RestIsGood(text, NextStart(start, chunk, overlap), size, overlap, c);
    }
  }

  /** Every chunk is a non-empty, trimmed piece of the stripped document, no longer than the size. */
  lemma ChunksAreParts(document: string, size: int, overlap: int, c: string)
    requires size >= 1 && c in Chunks(document, size, overlap)
    ensures GoodChunk(Trim(document, IsSpace), c, size)
  {
    hide IsSpace;
    var text := Trim(document, IsSpace);
    TrimIsTrimmed(document, IsSpace);
    if |text| <= size {
      assert text[0..0 + |text|] == text && StandsAt(text, text, 0);
    } else {
      RestIsGood(text, 0, size, overlap, c);
    }
  }

  /** A window that is not the last ends at the last paragraph break past its middle, else at the last
      line break there, else at the last sentence end there; only without any of them is it whole. */
  lemma CutsAtStrongestBoundary(window: string, size: int)
    requires size >= 1
    ensures var r := Cut(window, size, SEPARATORS);
            if BoundaryPast(window, "\n\n", size) then EndsAtLast(window, r, "\n\n", size)
            else if BoundaryPast(window, "\n", size) then EndsAtLast(window, r, "\n", size)
            else if BoundaryPast(window, ". ", size) then EndsAtLast(window, r, ". ", size)
            else r == window
  {
    hide Cut, CutAt, BoundaryPast, EndsAtLast;
    CutIsExact(window, size, "\n\n");
    CutIsExact(window, size, "\n");
    CutIsExact(window, size, ". ");
    assert SEPARATORS == ["\n\n"] + ["\n", ". "] && ["\n", ". "] == ["\n"] + [". "] && [". "] == [". "] + [];
    CutHere(window, size, "\n\n", ["\n", ". "]);
    CutHere(window, size, "\n", [". "]);
    CutHere(window, size, ". ", []);
  }

  lemma CutHere(window: string, size: int, separator: string, rest: seq<string>)
    ensures Cut(window, size, [separator] + rest)
         == match CutAt(window, size, separator) case Some(part) => part case None => Cut(window, size, rest)
    ensures Cut(window, size, []) == window
  {
    assert ([separator] + rest)[1..] == rest;
  }

  ghost predicate BoundaryPast(window: string, separator: string, size: int) {
    exists i: nat :: i > size / 2 && OccursAt(window, separator, i)
  }

  /** The piece ends with the separator, and no later one stands in the window. */
  ghost predicate EndsAtLast(window: string, piece: string, separator: string, size: int) {
    && |separator| <= |piece| <= |window| && piece == window[..|piece|]
    && |piece| - |separator| > size / 2
    && OccursAt(window, separator, |piece| - |separator|)
    && forall i: nat | i > |piece| - |separator| :: !OccursAt(window, separator, i)
  }

  lemma CutIsExact(window: string, size: int, separator: string)
    requires separator != ""
    ensures CutAt(window, size, separator).Some? <==> BoundaryPast(window, separator, size)
    ensures CutAt(window, size, separator).Some? ==>
      EndsAtLast(window, CutAt(window, size, separator).value, separator, size)
  {
  }
}
