/** What the version index promises: transitions keep it well formed, the boot-time repair
    makes it agree with git and is idempotent, and a reference has one meaning. */
module RegistryLaws {
  import opened Wrappers
  import opened VersionTree
  import opened VersionRegistry
  import Text

  lemma RecordKeepsPair(idx: Index, e: Entry, s: Sha, t: Sha)
    requires PairOk(idx, s, t) && PairOk(idx, s, s) && PairOk(idx, t, t)
    requires e.sha !in idx.versions && e.seqNo == idx.nextSeq
    requires e.tag.None? && e.history == [e.status]
    ensures PairOk(Index(idx.nextSeq + 1, idx.versions[e.sha := e]), s, t)
  {
  }

  lemma RecordKeepsValid(idx: Index, sha: Sha, parent: Option<Sha>, reverts: Option<Sha>,
                         reapplies: Option<Sha>, status: Status)
    requires Valid(idx)
    ensures Valid(Recorded(idx, sha, parent, reverts, reapplies, status))
  {
    if sha !in idx.versions {
      forall s, t ensures PairOk(Recorded(idx, sha, parent, reverts, reapplies, status), s, t) {
        RecordKeepsPair(idx, Fresh(sha, idx.nextSeq, parent, reverts, reapplies, status), s, t);
      }
    }
  }

  lemma StatusKeepsValid(idx: Index, sha: Sha, status: Status, cause: Option<Sha>)
    requires Valid(idx)
    ensures Valid(WithStatus(idx, sha, status, cause))
  {
    forall s, t ensures PairOk(WithStatus(idx, sha, status, cause), s, t) {
      assert PairOk(idx, s, t);
    }
  }

  /** A label is accepted only when no other version carries it, so labels stay unique. */
  lemma LabelKeepsValid(idx: Index, sha: Sha, tag: Option<string>)
    requires Valid(idx)
    ensures Valid(Labelled(idx, sha, tag).1)
    ensures !Labelled(idx, sha, tag).0 ==> Labelled(idx, sha, tag).1 == idx
    ensures Labelled(idx, sha, tag).0 && tag.Some? && tag.value != "" ==>
              !LabelTaken(idx, tag.value, sha) && Labelled(idx, sha, tag).1.versions[sha].tag == tag
  {
    var r := Labelled(idx, sha, tag).1;
    forall s, t ensures PairOk(r, s, t) {
      assert PairOk(idx, s, t);
      if s in r.versions && t in r.versions && s != t && r.versions[s].tag == r.versions[t].tag == tag && tag.Some? {
        assert idx.versions[if s == sha then t else s].tag == tag;
      }
    }
  }

  // ---- repair ----------------------------------------------------------------------

  /** Backfilling adds exactly the missing versions. */
  lemma {:induction false} BackfillAdds(idx: Index, commits: seq<Commit>, onMain: set<Sha>, pending: set<Sha>)
    ensures Backfilled(idx, commits, onMain, pending).versions.Keys == idx.versions.Keys + Shas(commits)
    ensures Backfilled(idx, commits, onMain, pending).nextSeq >= idx.nextSeq
  {
    if commits != [] {
      BackfillAdds(idx, commits[..|commits| - 1], onMain, pending);
      ShasSnoc(commits);
    }
  }

  /** A known version keeps its entry; a missing one gets the status git implies and a fresh number. */
  lemma {:induction false} BackfillEntry(idx: Index, commits: seq<Commit>, onMain: set<Sha>, pending: set<Sha>, s: Sha)
    requires s in idx.versions.Keys + Shas(commits)
    ensures var r := Backfilled(idx, commits, onMain, pending);
            s in r.versions &&
            if s in idx.versions then r.versions[s] == idx.versions[s]
            else r.versions[s].status == BackfillStatus(s, onMain, pending)
                 && idx.nextSeq <= r.versions[s].seqNo < r.nextSeq
  {
    if commits != [] {
      var init, c := commits[..|commits| - 1], commits[|commits| - 1];
      ShasSnoc(commits);
      BackfillAdds(idx, init, onMain, pending);
      if s in idx.versions.Keys + Shas(init) {
        BackfillEntry(idx, init, onMain, pending, s);
      }
    }
  }

  lemma {:induction false} BackfillKeepsValid(idx: Index, commits: seq<Commit>, onMain: set<Sha>, pending: set<Sha>)
    requires Valid(idx)
    ensures Valid(Backfilled(idx, commits, onMain, pending))
  {
    if commits != [] {
      var init, c := commits[..|commits| - 1], commits[|commits| - 1];
      BackfillKeepsValid(idx, init, onMain, pending);
      RecordKeepsValid(Backfilled(idx, init, onMain, pending), c.sha, c.parent, None, None,
                       BackfillStatus(c.sha, onMain, pending));
    }
  }

  /** Of two missing versions the older gets the smaller number. */
  lemma {:induction false} BackfillOrder(idx: Index, commits: seq<Commit>, onMain: set<Sha>, pending: set<Sha>,
                                         i: nat, j: nat)
    requires Sound(commits) && i < j < |commits|
    requires commits[i].sha !in idx.versions && commits[j].sha !in idx.versions
    ensures var r := Backfilled(idx, commits, onMain, pending);
            && commits[i].sha in r.versions && commits[j].sha in r.versions
            && r.versions[commits[i].sha].seqNo < r.versions[commits[j].sha].seqNo
  {
    var init, c := commits[..|commits| - 1], commits[|commits| - 1];
    assert commits[i] == init[i] && init[i] in init;
    BackfillAdds(idx, init, onMain, pending);
    BackfillEntry(idx, init, onMain, pending, commits[i].sha);
    if j < |init| {
      assert commits[j] == init[j] && init[j] in init;
      BackfillOrder(idx, init, onMain, pending, i, j);
    }
  }

  predicate OffLine(status: Status) {
    status == Abandoned || status == RolledBack
  }

  predicate OnLine(status: Status) {
    status == Promoted || status == Restored
  }

  /** The repair keeps an index well formed. */
  lemma ReconcileKeepsValid(idx: Index, commits: seq<Commit>, onMain: set<Sha>, pending: set<Sha>)
    requires Valid(idx)
    ensures Valid(Reconciled(idx, commits, onMain, pending))
  {
    var pruned := Pruned(idx, Shas(commits));
    forall s, t ensures PairOk(pruned, s, t) { assert PairOk(idx, s, t); }
    BackfillKeepsValid(pruned, commits, onMain, pending);
    var filled := Backfilled(pruned, commits, onMain, pending);
    forall s, t ensures PairOk(DriftFixed(filled, onMain), s, t) { assert PairOk(filled, s, t); }
  }

  /** The repair leaves exactly git's versions. */
  lemma ReconcileDomain(idx: Index, commits: seq<Commit>, onMain: set<Sha>, pending: set<Sha>)
    ensures Reconciled(idx, commits, onMain, pending).versions.Keys == Shas(commits)
  {
    BackfillAdds(Pruned(idx, Shas(commits)), commits, onMain, pending);
  }

  /** After the repair no version off main reads as live and none on main as never promoted; a
      known version keeps its number and label, a missing one gets a fresh number. */
  lemma ReconcileEntry(idx: Index, commits: seq<Commit>, onMain: set<Sha>, pending: set<Sha>, s: Sha)
    requires s in Shas(commits)
    ensures var r := Reconciled(idx, commits, onMain, pending);
            && s in r.versions
            && (s in onMain ==> r.versions[s].status != Committed)
            && (s !in onMain ==> !OnLine(r.versions[s].status))
            && (s in idx.versions ==> r.versions[s].seqNo == idx.versions[s].seqNo
                                      && r.versions[s].tag == idx.versions[s].tag)
            && (s !in idx.versions ==> idx.nextSeq <= r.versions[s].seqNo)
  {
    BackfillEntry(Pruned(idx, Shas(commits)), commits, onMain, pending, s);
  }

  /** Re-created versions are numbered in history order. */
  lemma ReconcileOrder(idx: Index, commits: seq<Commit>, onMain: set<Sha>, pending: set<Sha>, i: nat, j: nat)
    requires Sound(commits) && i < j < |commits|
    requires commits[i].sha !in idx.versions && commits[j].sha !in idx.versions
    ensures var r := Reconciled(idx, commits, onMain, pending);
            && commits[i].sha in r.versions && commits[j].sha in r.versions
            && r.versions[commits[i].sha].seqNo < r.versions[commits[j].sha].seqNo
  {
    BackfillOrder(Pruned(idx, Shas(commits)), commits, onMain, pending, i, j);
  }

  /** What the repair does not mend: a main version that reads as off the line stays so, and no
      other becomes so. */
  lemma ReconcileKeepsOffLineOnMain(idx: Index, commits: seq<Commit>, onMain: set<Sha>, pending: set<Sha>, s: Sha)
    requires s in Shas(commits) && s in onMain
    ensures var r := Reconciled(idx, commits, onMain, pending);
            s in r.versions &&
            (OffLine(r.versions[s].status) <==> s in idx.versions && OffLine(idx.versions[s].status))
  {
    BackfillEntry(Pruned(idx, Shas(commits)), commits, onMain, pending, s);
  }

  lemma {:induction false} BackfillNothing(idx: Index, commits: seq<Commit>, onMain: set<Sha>, pending: set<Sha>)
    requires Shas(commits) <= idx.versions.Keys
    ensures Backfilled(idx, commits, onMain, pending) == idx
  {
    if commits != [] {
      ShasSnoc(commits);
      BackfillNothing(idx, commits[..|commits| - 1], onMain, pending);
    }
  }

  /** A second repair against the same git facts changes nothing, whatever is pending by then. */
  lemma ReconcileIdempotent(idx: Index, commits: seq<Commit>, onMain: set<Sha>,
                            pending: set<Sha>, pendingLater: set<Sha>)
    ensures var r := Reconciled(idx, commits, onMain, pending);
            Reconciled(r, commits, onMain, pendingLater) == r
  {
    var r := Reconciled(idx, commits, onMain, pending);
    ReconcileDomain(idx, commits, onMain, pending);
    assert Pruned(r, Shas(commits)).versions == r.versions;
    BackfillNothing(r, commits, onMain, pendingLater);
    forall s | s in r.versions ensures Repaired(r.versions[s], s, onMain) == r.versions[s] {
      ReconcileEntry(idx, commits, onMain, pending, s);
    }
    assert DriftFixed(r, onMain).versions == r.versions;
  }

  // ---- references --------------------------------------------------------------------

  lemma {:induction false} MatchingFilters(listing: seq<Entry>, want: Want, e: Entry)
    ensures e in Matching(listing, want) <==> e in listing && Fits(e, want)
  {
    if listing != [] {
      MatchingFilters(listing[1..], want, e);
      assert listing == [listing[0]] + listing[1..];
    }
  }

  lemma {:induction false} MatchingDistinct(listing: seq<Entry>, want: Want)
    requires forall i, j | 0 <= i < j < |listing| :: listing[i].sha != listing[j].sha
    ensures var m := Matching(listing, want);
            forall i, j | 0 <= i < j < |m| :: m[i].sha != m[j].sha
  {
    if listing != [] {
      MatchingDistinct(listing[1..], want);
      var m := Matching(listing[1..], want);
      forall j | 0 <= j < |m| ensures m[j].sha != listing[0].sha {
        MatchingFilters(listing[1..], want, m[j]);
      }
    }
  }

  lemma SameSingleton(ma: seq<Entry>, mb: seq<Entry>)
    requires forall e :: e in ma <==> e in mb
    requires forall i, j | 0 <= i < j < |mb| :: mb[i].sha != mb[j].sha
    ensures ma == [] ==> mb == []
    ensures |ma| == 1 ==> mb == ma
  {
    assert mb != [] ==> mb[0] in ma;
    if |ma| == 1 {
      assert ma[0] in mb;
      assert forall i | 0 <= i < |mb| :: mb[i] in ma;
      assert mb[0].sha == mb[|mb| - 1].sha;
    }
  }

  /** When one order of the dictionary has a single match, every order has that one match. */
  lemma MatchingOrderIndependent(idx: Index, a: seq<Entry>, b: seq<Entry>, want: Want)
    requires Enumerates(a, idx) && Enumerates(b, idx)
    ensures Matching(a, want) == [] ==> Matching(b, want) == []
    ensures |Matching(a, want)| == 1 ==> Matching(b, want) == Matching(a, want)
  {
    MatchingDistinct(b, want);
    forall e ensures e in Matching(a, want) <==> e in Matching(b, want) {
      MatchingFilters(a, want, e);
      MatchingFilters(b, want, e);
    }
    SameSingleton(Matching(a, want), Matching(b, want));
  }

  /** At most one stored entry fits. */
  ghost predicate Unambiguous(idx: Index, want: Want) {
    forall s, t | s in idx.versions && t in idx.versions && s != t ::
      Fits(idx.versions[s], want) ==> !Fits(idx.versions[t], want)
  }

  lemma NumbersAndLabelsUnambiguous(idx: Index, want: Want)
    requires Valid(idx) && !want.Prefixed?
    ensures Unambiguous(idx, want)
  {
    forall s, t | s in idx.versions && t in idx.versions && s != t && Fits(idx.versions[s], want)
      ensures !Fits(idx.versions[t], want)
    {
      assert PairOk(idx, s, t) && PairOk(idx, t, s);
    }
  }

  lemma UnambiguousMatchesOnce(idx: Index, listing: seq<Entry>, want: Want)
    requires Enumerates(listing, idx) && Unambiguous(idx, want)
    ensures |Matching(listing, want)| <= 1
  {
    var m := Matching(listing, want);
    MatchingDistinct(listing, want);
    forall i | 0 <= i < |m| ensures m[i].sha in idx.versions && idx.versions[m[i].sha] == m[i] && Fits(m[i], want) {
      MatchingFilters(listing, want, m[i]);
    }
    assert |m| >= 2 ==> m[0].sha != m[1].sha;
  }

  lemma EarlierHitOrderIndependent(idx: Index, a: seq<Entry>, b: seq<Entry>, ref: string)
    requires Valid(idx) && Enumerates(a, idx) && Enumerates(b, idx)
    ensures EarlierHit(a, ref) == EarlierHit(b, ref)
  {
    MatchingOrderIndependent(idx, a, b, Exact(ref));
    MatchingOrderIndependent(idx, b, a, Exact(ref));
    NumbersAndLabelsUnambiguous(idx, Numbered(SeqRef(ref)));
    UnambiguousMatchesOnce(idx, a, Numbered(SeqRef(ref)));
    MatchingOrderIndependent(idx, a, b, Numbered(SeqRef(ref)));
    MatchingOrderIndependent(idx, a, b, Prefixed(Text.Lower(ref)));
    MatchingOrderIndependent(idx, b, a, Prefixed(Text.Lower(ref)));
  }

  /** With unique numbers and labels a reference resolves the same way in every dictionary order. */
  lemma LookupOrderIndependent(idx: Index, a: seq<Entry>, b: seq<Entry>, reference: string)
    requires Valid(idx) && Enumerates(a, idx) && Enumerates(b, idx)
    ensures Lookup(a, reference) == Lookup(b, reference)
  {
    var ref := Text.Trim(reference, Text.IsSpace);
    EarlierHitOrderIndependent(idx, a, b, ref);
    NumbersAndLabelsUnambiguous(idx, Tagged(ref));
    UnambiguousMatchesOnce(idx, a, Tagged(ref));
    MatchingOrderIndependent(idx, a, b, Tagged(ref));
  }

  lemma FindsTheOne(idx: Index, listing: seq<Entry>, sha: Sha, want: Want)
    requires Valid(idx) && Enumerates(listing, idx) && sha in idx.versions
    requires !want.Prefixed? && Fits(idx.versions[sha], want)
    ensures Matching(listing, want) == [idx.versions[sha]] && idx.versions[sha].sha == sha
  {
    assert PairOk(idx, sha, sha);
    NumbersAndLabelsUnambiguous(idx, want);
    UnambiguousMatchesOnce(idx, listing, want);
    MatchingFilters(listing, want, idx.versions[sha]);
  }

  /** A full name, or failing that a version number, resolves to its version. */
  lemma LookupFindsVersion(idx: Index, listing: seq<Entry>, sha: Sha, ref: string)
    requires Valid(idx) && Enumerates(listing, idx) && sha in idx.versions
    requires ref != "" && Text.Trimmed(ref, Text.IsSpace)
    requires ref == sha.text || (Sha(ref) !in idx.versions && SeqRef(ref) == Some(idx.versions[sha].seqNo))
    ensures Lookup(listing, ref) == Some(sha)
  {
    Text.TrimIsTrimmed(ref, Text.IsSpace);
    assert PairOk(idx, sha, sha);
    if ref == sha.text {
      FindsTheOne(idx, listing, sha, Exact(ref));
    } else {
      FindsTheOne(idx, listing, sha, Numbered(SeqRef(ref)));
      var m := Matching(listing, Exact(ref));
      if m != [] {
        MatchingFilters(listing, Exact(ref), m[0]);
      }
    }
  }

  lemma ResolveLabel(idx: Index, listing: seq<Entry>, sha: Sha, name: string, ref: string)
    requires Valid(idx) && Enumerates(listing, idx) && sha in idx.versions
    requires idx.versions[sha].tag == Some(name)
    ensures EarlierHit(listing, ref) == None && ref != "" ==>
              (Resolve(listing, ref) == Some(sha) <==> ref == name)
  {
    hide EarlierHit, Matching;
    assert PairOk(idx, sha, sha);
    var m := Matching(listing, Tagged(ref));
    if ref == name {
      FindsTheOne(idx, listing, sha, Tagged(ref));
    } else if m != [] {
      MatchingFilters(listing, Tagged(ref), m[0]);
      assert idx.versions[m[0].sha] == m[0];
    }
  }

  /** A label resolves to its version exactly when it has no blank at either end and nothing that
      is looked up earlier hides it, or what hides it is that same version. */
  lemma LookupFindsLabel(idx: Index, listing: seq<Entry>, sha: Sha, name: string)
    requires Valid(idx) && Enumerates(listing, idx) && sha in idx.versions
    requires idx.versions[sha].tag == Some(name)
    ensures var ref := Text.Trim(name, Text.IsSpace);
            Lookup(listing, name) == Some(sha) <==>
              ref != "" && (EarlierHit(listing, ref) == Some(sha)
                            || (EarlierHit(listing, ref) == None && Text.Trimmed(name, Text.IsSpace)))
  {
    Text.TrimIsTrimmed(name, Text.IsSpace);
    ResolveLabel(idx, listing, sha, name, Text.Trim(name, Text.IsSpace));
  }

  /** It happens to every new version: the label `a ` is accepted, and a lookup of it misses. */
  lemma LabelWithBlankIsMissed(sha: Sha, parent: Option<Sha>)
    requires |sha.text| > 1
    ensures var idx := Recorded(EMPTY_INDEX, sha, parent, None, None, Committed);
            var (ok, labelled) := Labelled(idx, sha, Some("a "));
            && ok && sha in labelled.versions && labelled.versions[sha].tag == Some("a ")
            && Enumerates([labelled.versions[sha]], labelled)
            && Lookup([labelled.versions[sha]], "a ") == None
  {
    hide Resolve, ValidLabel, Text.Trim, Labelled;
    var idx := Recorded(EMPTY_INDEX, sha, parent, None, None, Committed);
    BlankLabelAccepted(idx, sha, "a ");
    var e := idx.versions[sha].(tag := Some("a "));
    Text.TrimBetweenBlanks("", "a", " ", Text.IsSpace);
    assert "" + "a" + " " == "a ";
    NothingFits(e, "a");
  }

  lemma BlankLabelAccepted(idx: Index, sha: Sha, tag: string)
    requires idx.versions.Keys == {sha} && tag == "a "
    ensures var e := idx.versions[sha].(tag := Some(tag));
            Labelled(idx, sha, Some(tag)) == (true, idx.(versions := idx.versions[sha := e]))
  {
    var blank := "._ -";
    assert blank[2] == ' ' && ' ' in blank;
    assert LabelChar(tag[0], true) && LabelChar(tag[1], false);
    assert ValidLabel(tag);
  }

  lemma SingleMiss(e: Entry, want: Want)
    requires !Fits(e, want)
    ensures Matching([e], want) == []
  {
    assert [e][1..] == [];
  }

  lemma NothingFits(e: Entry, ref: string)
    requires e.sha.text != ref && SeqRef(ref) == None && |ref| < 7 && e.tag != Some(ref)
    ensures Resolve([e], ref) == None
  {
    hide Matching;
    SingleMiss(e, Exact(ref));
    SingleMiss(e, Numbered(SeqRef(ref)));
    SingleMiss(e, Prefixed(Text.Lower(ref)));
    SingleMiss(e, Tagged(ref));
  }
}
