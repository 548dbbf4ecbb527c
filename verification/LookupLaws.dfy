/** What names a version, what labels it may get, and what the repair makes of each entry. */
module LookupLaws {
  import opened Wrappers
  import opened VersionTree
  import opened VersionRegistry
  import opened RegistryLaws
  import Text
  import Instructions

  // ---- references ------------------------------------------------------------------------

  predicate AnyCaseHex(ref: string) {
    7 <= |ref| <= 40 && forall i | 0 <= i < |ref| ::
      '0' <= ref[i] <= '9' || 'a' <= ref[i] <= 'f' || 'A' <= ref[i] <= 'F'
  }

  /** The name begins with the reference, whatever the case of its letters. */
  predicate Begins(ref: string, name: string) {
    |ref| <= |name| && forall i | 0 <= i < |ref| ::
      name[i] == if 'A' <= ref[i] <= 'F' then ref[i] - 'A' + 'a' else ref[i]
  }

  ghost predicate Numbers(idx: Index, ref: string, s: Sha) {
    s in idx.versions && SeqRef(ref) == Some(idx.versions[s].seqNo)
  }

  ghost predicate OnlyBegins(idx: Index, ref: string, s: Sha) {
    s in idx.versions && Begins(ref, s.text) && forall t | t in idx.versions && Begins(ref, t.text) :: t == s
  }

  /** What a reference means: a full name; else a version number; else, for seven to forty hex digits of
      any case, the only name that begins with them; else a label. */
  ghost predicate Means(idx: Index, ref: string, s: Sha) {
    if Sha(ref) in idx.versions then s == Sha(ref)
    else if exists t :: Numbers(idx, ref, t) then Numbers(idx, ref, s)
    else if AnyCaseHex(ref) && exists t :: OnlyBegins(idx, ref, t) then OnlyBegins(idx, ref, s)
    else s in idx.versions && idx.versions[s].tag == Some(ref)
  }

  predicate IsHex(c: char) {
    '0' <= c <= '9' || 'a' <= c <= 'f'
  }

  lemma PrefixSpelled(ref: string, s: Sha)
    ensures IsShaPrefix(Text.Lower(ref)) <==> AnyCaseHex(ref)
    ensures AnyCaseHex(ref) ==> (Text.Lower(ref) <= s.text <==> Begins(ref, s.text))
  {
    var l := Text.Lower(ref);
    forall i | 0 <= i < |ref| ensures IsHex(l[i]) <==> IsHex(ref[i]) || 'A' <= ref[i] <= 'F' {}
    if IsShaPrefix(l) {
      forall i | 0 <= i < |ref| ensures IsHex(l[i]) { assert l[i] in l; }
    }
    if AnyCaseHex(ref) {
      forall c | c in l ensures IsHex(c) {
        var i :| 0 <= i < |l| && l[i] == c;
      }
      if Begins(ref, s.text) { assert l == s.text[..|l|]; }
    }
  }

  /** A want that one entry fits alone has that one match. */
  lemma MatchesOne(idx: Index, listing: seq<Entry>, want: Want, s: Sha)
    requires Enumerates(listing, idx) && s in idx.versions && Fits(idx.versions[s], want)
    requires forall t | t in idx.versions && Fits(idx.versions[t], want) :: t == s
    ensures Matching(listing, want) == [idx.versions[s]]
  {
    UnambiguousMatchesOnce(idx, listing, want);
    MatchingFilters(listing, want, idx.versions[s]);
  }

  /** A single match is fitted by it alone. */
  lemma MatchIsOnly(idx: Index, listing: seq<Entry>, want: Want)
    requires Enumerates(listing, idx) && |Matching(listing, want)| == 1
    ensures var e := Matching(listing, want)[0];
            e.sha in idx.versions && idx.versions[e.sha] == e && Fits(e, want)
            && forall t | t in idx.versions && Fits(idx.versions[t], want) :: idx.versions[t] == e
  {
    var m := Matching(listing, want);
    MatchingFilters(listing, want, m[0]);
    forall t | t in idx.versions && Fits(idx.versions[t], want) ensures idx.versions[t] == m[0] {
      MatchingFilters(listing, want, idx.versions[t]);
    }
  }

  lemma MatchesNone(idx: Index, listing: seq<Entry>, want: Want)
    requires Enumerates(listing, idx)
    ensures Matching(listing, want) == [] <==> forall t | t in idx.versions :: !Fits(idx.versions[t], want)
  {
    var m := Matching(listing, want);
    if m != [] { MatchingFilters(listing, want, m[0]); }
    forall t | t in idx.versions && Fits(idx.versions[t], want) ensures m != [] {
      MatchingFilters(listing, want, idx.versions[t]);
    }
  }

  lemma NamesAreKeys(idx: Index, s: Sha)
    requires Valid(idx) && s in idx.versions
    ensures idx.versions[s].sha == s
  {
    assert PairOk(idx, s, s);
  }

  lemma ExactMatch(idx: Index, listing: seq<Entry>, ref: string)
    requires Valid(idx) && Enumerates(listing, idx)
    ensures Matching(listing, Exact(ref)) == [] <==> Sha(ref) !in idx.versions
  {
    MatchesNone(idx, listing, Exact(ref));
    forall t | t in idx.versions ensures Fits(idx.versions[t], Exact(ref)) <==> t == Sha(ref) { NamesAreKeys(idx, t); }
  }

  lemma NumberMatch(idx: Index, listing: seq<Entry>, ref: string, s: Sha)
    requires Valid(idx) && Enumerates(listing, idx)
    ensures var m := Matching(listing, Numbered(SeqRef(ref)));
            && (m == [] <==> !exists t :: Numbers(idx, ref, t))
            && (m != [] ==> (FirstSha(m) == Some(s) <==> Numbers(idx, ref, s)))
  {
    hide SeqRef;
    var want := Numbered(SeqRef(ref));
    MatchesNone(idx, listing, want);
    if Matching(listing, want) != [] {
      NumbersAndLabelsUnambiguous(idx, want);
      UnambiguousMatchesOnce(idx, listing, want);
      MatchIsOnly(idx, listing, want);
      var e := Matching(listing, want)[0];
      assert Numbers(idx, ref, e.sha);
      if Numbers(idx, ref, s) { NamesAreKeys(idx, s); }
    }
    forall t | Numbers(idx, ref, t) ensures Matching(listing, want) != [] { assert Fits(idx.versions[t], want); }
  }

  lemma PrefixMatch(idx: Index, listing: seq<Entry>, ref: string, s: Sha)
    requires Valid(idx) && Enumerates(listing, idx)
    ensures var m := Matching(listing, Prefixed(Text.Lower(ref)));
            && (|m| == 1 <==> AnyCaseHex(ref) && exists t :: OnlyBegins(idx, ref, t))
            && (|m| == 1 ==> (FirstSha(m) == Some(s) <==> OnlyBegins(idx, ref, s)))
  {
    hide IsShaPrefix, Text.Lower, Begins, AnyCaseHex;
    var want := Prefixed(Text.Lower(ref));
    var m := Matching(listing, want);
    forall t | t in idx.versions
      ensures Fits(idx.versions[t], want) <==> AnyCaseHex(ref) && Begins(ref, t.text)
    {
      NamesAreKeys(idx, t);
      PrefixSpelled(ref, t);
    }
    if |m| == 1 {
      MatchIsOnly(idx, listing, want);
      var e := m[0];
      forall t | t in idx.versions && Begins(ref, t.text) ensures t == e.sha { NamesAreKeys(idx, t); }
      assert OnlyBegins(idx, ref, e.sha);
    } else if AnyCaseHex(ref) && exists t :: OnlyBegins(idx, ref, t) {
      var t :| OnlyBegins(idx, ref, t);
      MatchesOne(idx, listing, want, t);
    }
  }

  lemma LabelMatch(idx: Index, listing: seq<Entry>, ref: string, s: Sha)
    requires Valid(idx) && Enumerates(listing, idx)
    ensures FirstSha(Matching(listing, Tagged(ref))) == Some(s)
       <==> s in idx.versions && idx.versions[s].tag == Some(ref)
  {
    var want := Tagged(ref);
    MatchesNone(idx, listing, want);
    if Matching(listing, want) != [] {
      NumbersAndLabelsUnambiguous(idx, want);
      UnambiguousMatchesOnce(idx, listing, want);
      MatchIsOnly(idx, listing, want);
      if s in idx.versions && idx.versions[s].tag == Some(ref) { NamesAreKeys(idx, s); }
    }
  }

  /** A reference, without the blanks around it, resolves to a version exactly when it means that one;
      one that is blank resolves to nothing. */
  lemma LookupExactly(idx: Index, listing: seq<Entry>, reference: string, s: Sha)
    requires Valid(idx) && Enumerates(listing, idx)
    ensures var ref := Text.Trim(reference, Text.IsSpace);
            Lookup(listing, reference) == Some(s) <==> ref != "" && Means(idx, ref, s)
  {
    hide Matching, FirstSha, SeqRef, IsShaPrefix, Text.Lower, Text.Trim, Numbers, OnlyBegins;
    var ref := Text.Trim(reference, Text.IsSpace);
    ExactMatch(idx, listing, ref);
    NumberMatch(idx, listing, ref, s);
    PrefixMatch(idx, listing, ref, s);
    LabelMatch(idx, listing, ref, s);
    FirstIsSome(Matching(listing, Numbered(SeqRef(ref))));
    FirstIsSome(Matching(listing, Prefixed(Text.Lower(ref))));
  }

  lemma FirstIsSome(hits: seq<Entry>)
    ensures FirstSha(hits) == None <==> hits == []
  {
  }

  // ---- version numbers -------------------------------------------------------------------

  lemma {:induction false} NumeralReads(n: nat)
    ensures AllDigits(Instructions.NatText(n)) && Numeral(Instructions.NatText(n)) == n
  {
    var s := Instructions.NatText(n);
    assert forall i | 0 <= i < |s| :: s[i] in s;
    if n < 10 {
      assert s[..0] == "";
    } else {
      NumeralReads(n / 10);
      assert s[..|s| - 1] == Instructions.NatText(n / 10);
    }
  }

  /** `v` or `V` with the decimal digits of a number refers to that number. */
  lemma NumberIsReference(n: nat)
    ensures SeqRef("v" + Instructions.NatText(n)) == Some(n) == SeqRef("V" + Instructions.NatText(n))
  {
    hide Numeral, Instructions.NatText;
    NumeralReads(n);
    var s := Instructions.NatText(n);
    assert ("v" + s)[1..] == s && ("V" + s)[1..] == s;
    var letters := "vV";
    assert letters[0] in letters && letters[1] in letters;
  }

  // ---- labels ----------------------------------------------------------------------------

  predicate Letter(c: char) {
    'a' <= c <= 'z' || 'A' <= c <= 'Z' || '0' <= c <= '9'
  }

  predicate PlainLabel(s: string) {
    && 1 <= |s| <= 64 && Letter(s[0])
    && forall i | 1 <= i < |s| :: Letter(s[i]) || s[i] == '.' || s[i] == '_' || s[i] == ' ' || s[i] == '-'
  }

  /** A label is accepted exactly for a known version, when it is plain but for one newline that may end
      it and no other version has it; then it is the version's label and nothing else has changed. None
      and an empty one clear the label. */
  lemma LabelAcceptedExactly(idx: Index, sha: Sha, tag: Option<string>)
    ensures var (ok, u) := Labelled(idx, sha, tag);
            var clears := tag == None || tag == Some("");
            && (ok <==> sha in idx.versions
                        && (clears
                            || ((PlainLabel(tag.value)
                                 || (tag.value[|tag.value| - 1] == '\n' && PlainLabel(tag.value[..|tag.value| - 1])))
                                && forall t | t in idx.versions && t != sha :: idx.versions[t].tag != tag)))
            && (!ok ==> u == idx)
            && (ok ==>
                  var e := idx.versions[sha].(tag := if clears then None else tag);
                  u == idx.(versions := idx.versions[sha := e]))
  {
    if tag.Some? && tag.value != "" { LabelSpelled(tag.value); }
    hide ValidLabel, PlainLabel;
  }

  lemma LabelSpelled(tag: string)
    requires tag != ""
    ensures ValidLabel(tag)
       <==> PlainLabel(tag) || (tag[|tag| - 1] == '\n' && PlainLabel(tag[..|tag| - 1]))
  {
    hide PlainLabel, ValidBody;
    BodySpelled(tag);
    if tag[|tag| - 1] == '\n' {
      BodySpelled(tag[..|tag| - 1]);
      NewlineIsNotPlain(tag);
    }
  }

  lemma NewlineIsNotPlain(tag: string)
    requires tag != "" && tag[|tag| - 1] == '\n'
    ensures !PlainLabel(tag)
  {
    assert !Letter('\n');
  }

  lemma BodySpelled(body: string)
    ensures ValidBody(body) <==> PlainLabel(body)
  {
    SignsSpelled();
    hide LabelChar;
    if PlainLabel(body) {
      forall i | 0 <= i < |body| ensures LabelChar(body[i], i == 0) {}
    }
    if ValidBody(body) {
      assert LabelChar(body[0], 0 == 0);
      forall i | 1 <= i < |body| ensures LabelChar(body[i], false) { assert LabelChar(body[i], i == 0); }
    }
  }

  lemma SignsSpelled()
    ensures forall c :: LabelChar(c, true) <==> Letter(c)
    ensures forall c :: LabelChar(c, false) <==> Letter(c) || c == '.' || c == '_' || c == ' ' || c == '-'
  {
    var signs := "._ -";
    assert signs[0] == '.' && signs[1] == '_' && signs[2] == ' ' && signs[3] == '-';
    assert forall c :: c in signs <==> c == '.' || c == '_' || c == ' ' || c == '-';
  }

  // ---- what the repair makes of an entry -------------------------------------------------

  /** A lost entry is re-created with its parent and the status git implies: promoted on main, pending
      while it waits for approval, else abandoned, with a history of just that. */
  lemma RepairFills(idx: Index, commits: seq<Commit>, onMain: set<Sha>, pending: set<Sha>, k: nat)
    requires Sound(commits) && k < |commits| && commits[k].sha !in idx.versions
    ensures var s := commits[k].sha;
            var r := Reconciled(idx, commits, onMain, pending);
            && s in r.versions
            && var e := r.versions[s];
               && e.sha == s && e.parent == commits[k].parent && e.tag == None
               && e.status == (if s in onMain then Promoted else if s in pending then Pending else Abandoned)
               && e.history == [e.status]
  {
    FilledEntry(Pruned(idx, Shas(commits)), commits, onMain, pending, k);
  }

  lemma {:induction false} FilledEntry(idx: Index, commits: seq<Commit>, onMain: set<Sha>, pending: set<Sha>, k: nat)
    requires Sound(commits) && k < |commits| && commits[k].sha !in idx.versions
    ensures var s := commits[k].sha;
            var r := Backfilled(idx, commits, onMain, pending);
            && s in r.versions
            && r.versions[s] == Fresh(s, r.versions[s].seqNo, commits[k].parent, None, None,
                                      if s in onMain then Promoted else if s in pending then Pending else Abandoned)
  {
    var init, c := commits[..|commits| - 1], commits[|commits| - 1];
    BackfillAdds(idx, init, onMain, pending);
    if k < |init| {
      assert init[k] == commits[k] && commits[k] in init;
      FilledEntry(idx, init, onMain, pending, k);
    }
  }

  /** A known entry of a version git has is kept as it is, but for two corrections: a version of main that
      reads committed becomes promoted, and one off main that reads promoted or restored abandoned. */
  lemma RepairCorrects(idx: Index, commits: seq<Commit>, onMain: set<Sha>, pending: set<Sha>, s: Sha)
    requires s in Shas(commits) && s in idx.versions
    ensures var r := Reconciled(idx, commits, onMain, pending);
            && s in r.versions
            && var was, now := idx.versions[s], r.versions[s];
               if s in onMain && was.status == Committed then
                 now == was.(status := Promoted, history := was.history + [Promoted])
               else if s !in onMain && (was.status == Promoted || was.status == Restored) then
                 now == was.(status := Abandoned, history := was.history + [Abandoned])
               else now == was
  {
    BackfillEntry(Pruned(idx, Shas(commits)), commits, onMain, pending, s);
  }
}
