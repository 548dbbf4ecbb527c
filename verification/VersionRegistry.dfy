/** The metadata index of versions: numbering, labels, status history, lookup by reference,
    and the boot-time repair against git. */
module VersionRegistry {
  import opened Wrappers
  import opened VersionTree
  import Text

  datatype Status =
    | Committed | Pending | Promoted | HealthFailed | VerifyFailed | EvalFailed | Rejected
    | RolledBack | Abandoned | Restored | Reverted | Reapplied | LinePromoted

  datatype Entry = Entry(
    sha: Sha, seqNo: nat, parent: Option<Sha>, tag: Option<string>,
    reverts: Option<Sha>, reapplies: Option<Sha>,
    revertedBy: Option<Sha>, reappliedBy: Option<Sha>,
    status: Status, history: seq<Status>)

  datatype Index = Index(nextSeq: nat, versions: map<Sha, Entry>)

  const EMPTY_INDEX := Index(1, map[])

  /** Two stored entries sit under their own names, below the counter, each with the last of its
      history as status; distinct ones differ in number and label. */
  ghost predicate PairOk(idx: Index, s: Sha, t: Sha) {
    s in idx.versions && t in idx.versions ==>
      var e, f := idx.versions[s], idx.versions[t];
      && e.sha == s && e.seqNo < idx.nextSeq
      && e.history != [] && e.status == e.history[|e.history| - 1]
      && (s != t ==> e.seqNo != f.seqNo && (e.tag.Some? ==> e.tag != f.tag))
  }

  /** A well-formed index: every pair of its entries is. */
  ghost predicate Valid(idx: Index) {
    forall s, t :: PairOk(idx, s, t)
  }

  // ---- transitions -----------------------------------------------------------------

  function Fresh(sha: Sha, seqNo: nat, parent: Option<Sha>, reverts: Option<Sha>,
                 reapplies: Option<Sha>, status: Status): Entry
  {
    Entry(sha, seqNo, parent, None, reverts, reapplies, None, None, status, [status])
  }

  function Recorded(idx: Index, sha: Sha, parent: Option<Sha>, reverts: Option<Sha>,
                    reapplies: Option<Sha>, status: Status): Index
  {
    if sha in idx.versions then idx
    else Index(idx.nextSeq + 1,
               idx.versions[sha := Fresh(sha, idx.nextSeq, parent, reverts, reapplies, status)])
  }

  /** One status transition; `cause` names the version that reverts or re-applies this one. */
  function Transition(e: Entry, status: Status, cause: Option<Sha>): Entry {
    e.(status := status,
       history := e.history + [status],
       revertedBy := if status == Reverted && cause.Some? then cause else e.revertedBy,
       reappliedBy := if status == Reapplied && cause.Some? then cause else e.reappliedBy)
  }

  function WithStatus(idx: Index, sha: Sha, status: Status, cause: Option<Sha>): Index {
    if sha !in idx.versions then idx
    else idx.(versions := idx.versions[sha := Transition(idx.versions[sha], status, cause)])
  }

  predicate LabelChar(c: char, first: bool) {
    'A' <= c <= 'Z' || 'a' <= c <= 'z' || '0' <= c <= '9' || (!first && c in "._ -")
  }

  /** 1 to 64 allowed characters; the pattern's `$` also lets one final newline through. */
  predicate ValidLabel(tag: string) {
    ValidBody(if tag != "" && tag[|tag| - 1] == '\n' then tag[..|tag| - 1] else tag)
  }

  predicate ValidBody(body: string) {
    1 <= |body| <= 64 && forall i | 0 <= i < |body| :: LabelChar(body[i], i == 0)
  }

  ghost predicate LabelTaken(idx: Index, tag: string, sha: Sha) {
    exists t :: t in idx.versions && t != sha && idx.versions[t].tag == Some(tag)
  }

  ghost function Labelled(idx: Index, sha: Sha, tag: Option<string>): (r: (bool, Index)) {
    if sha !in idx.versions then (false, idx)
    else if tag.None? || tag.value == "" then
      (true, idx.(versions := idx.versions[sha := idx.versions[sha].(tag := None)]))
    else if !ValidLabel(tag.value) || LabelTaken(idx, tag.value, sha) then (false, idx)
    else (true, idx.(versions := idx.versions[sha := idx.versions[sha].(tag := tag)]))
  }

  // ---- boot-time repair --------------------------------------------------------------

  function BackfillStatus(sha: Sha, onMain: set<Sha>, pending: set<Sha>): Status {
    if sha in onMain then Promoted else if sha in pending then Pending else Abandoned
  }

  /** Entries git has and the index lost, numbered in history order. */
  function Backfilled(idx: Index, commits: seq<Commit>, onMain: set<Sha>, pending: set<Sha>): Index {
    if commits == [] then idx
    else
      var done := Backfilled(idx, commits[..|commits| - 1], onMain, pending);
      var c := commits[|commits| - 1];
      Recorded(done, c.sha, c.parent, None, None, BackfillStatus(c.sha, onMain, pending))
  }

  predicate Drifted(e: Entry, sha: Sha, onMain: set<Sha>) {
    if sha in onMain then e.status == Committed else e.status == Promoted || e.status == Restored
  }

  function Repaired(e: Entry, sha: Sha, onMain: set<Sha>): Entry {
    if !Drifted(e, sha, onMain) then e
    else Transition(e, if sha in onMain then Promoted else Abandoned, None)
  }

  function Pruned(idx: Index, gitShas: set<Sha>): Index {
    idx.(versions := map s | s in idx.versions && s in gitShas :: idx.versions[s])
  }

  function DriftFixed(idx: Index, onMain: set<Sha>): Index {
    idx.(versions := map s | s in idx.versions :: Repaired(idx.versions[s], s, onMain))
  }

  /** The repair, with these entries still to be looked at. */
  function PartFixed(versions: map<Sha, Entry>, todo: set<Sha>, onMain: set<Sha>): map<Sha, Entry> {
    map s | s in versions :: if s in todo then versions[s] else Repaired(versions[s], s, onMain)
  }

  lemma FixOne(versions: map<Sha, Entry>, todo: set<Sha>, s: Sha, onMain: set<Sha>)
    requires s in todo && s in versions
    ensures var part := PartFixed(versions, todo, onMain);
            && s in part && part[s] == versions[s]
            && PartFixed(versions, todo - {s}, onMain) == part[s := Repaired(versions[s], s, onMain)]
    ensures PartFixed(versions, todo - {s}, onMain).Keys == PartFixed(versions, todo, onMain).Keys
  {
    hide Repaired;
  }

  function Reconciled(idx: Index, commits: seq<Commit>, onMain: set<Sha>, pending: set<Sha>): Index {
    DriftFixed(Backfilled(Pruned(idx, Shas(commits)), commits, onMain, pending), onMain)
  }

  // ---- lookup by human reference ----------------------------------------------------

  predicate AllDigits(s: string) {
    forall i | 0 <= i < |s| :: '0' <= s[i] <= '9'
  }

  function Numeral(s: string): nat
    requires AllDigits(s)
  {
    if s == "" then 0 else Numeral(s[..|s| - 1]) * 10 + (s[|s| - 1] - '0') as nat
  }

  /** The number in a reference spelled `v12` or `V12`. */
  function SeqRef(ref: string): Option<nat> {
    if |ref| >= 2 && ref[0] in "vV" && AllDigits(ref[1..]) then Some(Numeral(ref[1..])) else None
  }

  predicate IsShaPrefix(s: string) {
    7 <= |s| <= 40 && forall c | c in s :: '0' <= c <= '9' || 'a' <= c <= 'f'
  }

  /** The ways a reference can name an entry. */
  datatype Want = Exact(text: string) | Numbered(number: Option<nat>) | Prefixed(prefix: string) | Tagged(name: string)

  predicate Fits(e: Entry, want: Want) {
    match want
    case Exact(text) => e.sha.text == text
    case Numbered(number) => number == Some(e.seqNo)
    case Prefixed(prefix) => IsShaPrefix(prefix) && prefix <= e.sha.text
    case Tagged(name) => e.tag == Some(name)
  }

  function Matching(listing: seq<Entry>, want: Want): seq<Entry> {
    if listing == [] then []
    else (if Fits(listing[0], want) then [listing[0]] else []) + Matching(listing[1..], want)
  }

  function FirstSha(hits: seq<Entry>): Option<Sha> {
    if hits == [] then None else Some(hits[0].sha)
  }

  /** What the reference names before labels are considered: a full name, a number, or the
      only name with this prefix. */
  function EarlierHit(listing: seq<Entry>, ref: string): Option<Sha> {
    var exact := Matching(listing, Exact(ref));
    var numbered := Matching(listing, Numbered(SeqRef(ref)));
    var prefixed := Matching(listing, Prefixed(Text.Lower(ref)));
    if exact != [] then Some(Sha(ref))
    else if numbered != [] then FirstSha(numbered)
    else if |prefixed| == 1 then FirstSha(prefixed)
    else None
  }

  /** Resolve a reference against the entries in dictionary order. */
  function Lookup(listing: seq<Entry>, reference: string): Option<Sha> {
    Resolve(listing, Text.Trim(reference, Text.IsSpace))
  }

  function Resolve(listing: seq<Entry>, ref: string): Option<Sha> {
    if ref == "" then None
    else if EarlierHit(listing, ref).Some? then EarlierHit(listing, ref)
    else FirstSha(Matching(listing, Tagged(ref)))
  }

  /** `listing` is the dictionary in some order. */
  ghost predicate Enumerates(listing: seq<Entry>, idx: Index) {
    && (forall i | 0 <= i < |listing| ::
          listing[i].sha in idx.versions && idx.versions[listing[i].sha] == listing[i])
    && (forall s | s in idx.versions :: idx.versions[s] in listing)
    && (forall i, j | 0 <= i < j < |listing| :: listing[i].sha != listing[j].sha)
  }

  // ---- the stored index ----------------------------------------------------------------

  class Registry {
    var nextSeq: nat
    var versions: map<Sha, Entry>

    function View(): Index
      reads this
    {
      Index(nextSeq, versions)
    }

    constructor ()
      ensures View() == EMPTY_INDEX
    {
      nextSeq, versions := 1, map[];
    }

    method RecordCommit(sha: Sha, parent: Option<Sha>, reverts: Option<Sha>, reapplies: Option<Sha>,
                        status: Status)
      modifies this
      ensures View() == Recorded(old(View()), sha, parent, reverts, reapplies, status)
    {
      if sha in versions { return; }
      var entry := Fresh(sha, nextSeq, parent, reverts, reapplies, status);
      nextSeq := entry.seqNo + 1;
      versions := versions[sha := entry];
    }

    method SetStatus(sha: Sha, status: Status, cause: Option<Sha>)
      modifies this
      ensures View() == WithStatus(old(View()), sha, status, cause)
    {
      if sha !in versions { return; }
      var entry := versions[sha];
      entry := entry.(history := entry.history + [status], status := status);
      if status == Reverted && cause.Some? { entry := entry.(revertedBy := cause); }
      if status == Reapplied && cause.Some? { entry := entry.(reappliedBy := cause); }
      versions := versions[sha := entry];
    }

    method SetLabel(sha: Sha, tag: Option<string>) returns (ok: bool)
      modifies this
      ensures (ok, View()) == Labelled(old(View()), sha, tag)
    {
      if sha !in versions { return false; }
      if tag.Some? && tag.value != "" {
        if !ValidLabel(tag.value) { return false; }
        var todo := versions.Keys;
        while todo != {}
          invariant todo <= versions.Keys
          invariant forall t | t in versions.Keys - todo && t != sha :: versions[t].tag != tag
          decreases |todo|
        {
          var t :| t in todo;
          if t != sha && versions[t].tag == tag { return false; }
          todo := todo - {t};
        }
        versions := versions[sha := versions[sha].(tag := tag)];
      } else {
        versions := versions[sha := versions[sha].(tag := None)];
      }
      return true;
    }

    /** Drop the entries whose version left git. */
    method Prune(gitShas: set<Sha>) returns (pruned: nat)
      modifies this
      ensures View() == Pruned(old(View()), gitShas)
      ensures pruned == 0 ==> View() == old(View())
    {
      pruned := 0;
      ghost var before := versions;
      var todo := versions.Keys - gitShas;
      while todo != {}
        invariant todo <= versions.Keys && before.Keys * gitShas <= versions.Keys <= before.Keys
        invariant forall s | s in versions :: s in todo <==> s !in gitShas
        invariant nextSeq == old(nextSeq)
        invariant forall s | s in versions :: versions[s] == before[s]
        invariant pruned == 0 ==> versions == before
        decreases |todo|
      {
        var s :| s in todo;
        versions := versions - {s};
        todo := todo - {s};
        pruned := pruned + 1;
      }
    }

    /** Re-create, oldest first, the entries git has and the index lost. */
    method Backfill(commits: seq<Commit>, onMain: set<Sha>, pending: set<Sha>) returns (added: nat)
      modifies this
      ensures View() == Backfilled(old(View()), commits, onMain, pending)
      ensures added == nextSeq - old(nextSeq)
      ensures added == 0 ==> View() == old(View())
    {
      added := 0;
      for i := 0 to |commits|
        invariant View() == Backfilled(old(View()), commits[..i], onMain, pending)
        invariant added == nextSeq - old(nextSeq)
        invariant added == 0 ==> View() == old(View())
      {
        assert commits[..i + 1][..i] == commits[..i];
        var c := commits[i];
        if c.sha !in versions {
          added := added + 1;
          RecordCommit(c.sha, c.parent, None, None, BackfillStatus(c.sha, onMain, pending));
        }
      }
      assert commits[..|commits|] == commits;
    }

    /** Correct the statuses a crash can leave behind. */
    method FixDrift(onMain: set<Sha>) returns (updated: nat)
      modifies this
      ensures View() == DriftFixed(old(View()), onMain)
      ensures updated == 0 ==> View() == old(View())
    {
      updated := 0;
      ghost var before := versions;
      var todo := versions.Keys;
      while todo != {}
        invariant todo <= versions.Keys
        invariant nextSeq == old(nextSeq)
        invariant versions == PartFixed(before, todo, onMain)
        invariant updated == 0 ==> versions == before
        decreases |todo|
      {
        hide PartFixed;
        var s :| s in todo;
        FixOne(before, todo, s, onMain);
        var entry := versions[s];
        if Drifted(entry, s, onMain) {
          versions := versions[s := Transition(entry, if s in onMain then Promoted else Abandoned, None)];
          updated := updated + 1;
        }
        todo := todo - {s};
      }
    }

    /** Repair the index against git: prune, backfill, fix drift. The three counts are the
        amount of work done, so a repair that reports none has changed nothing. */
    method Reconcile(commits: seq<Commit>, onMain: set<Sha>, pending: set<Sha>)
      returns (added: nat, pruned: nat, updated: nat)
      modifies this
      ensures View() == Reconciled(old(View()), commits, onMain, pending)
      ensures added == nextSeq - old(nextSeq)
      ensures added == pruned == updated == 0 ==> View() == old(View())
    {
      pruned := Prune(Shas(commits));
      added := Backfill(commits, onMain, pending);
      updated := FixDrift(onMain);
    }
  }
}
