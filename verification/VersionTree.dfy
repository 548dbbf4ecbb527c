/** The git facts the kernel asks for: which versions lie on the line ending at a tip.
    Every version has at most one parent, so history is a tree. */
module VersionTree {
  import opened Wrappers

  /** A version name: the hex text of a commit id. */
  datatype Sha = Sha(text: string)

  datatype Commit = Commit(sha: Sha, parent: Option<Sha>)

  /** All version names, for commits listed oldest first. */
  function Shas(commits: seq<Commit>): set<Sha> {
    set c | c in commits :: c.sha
  }

  /** Names are distinct and a parent is always an older commit. */
  ghost predicate Sound(commits: seq<Commit>) {
    commits == [] ||
    var init, last := commits[..|commits| - 1], commits[|commits| - 1];
    && Sound(init)
    && last.sha !in Shas(init)
    && (last.parent.Some? ==> last.parent.value in Shas(init))
  }

  /** `git rev-list tip`: the tip and everything below it. */
  function Ancestors(commits: seq<Commit>, tip: Sha): set<Sha> {
    if commits == [] then {}
    else
      var init, last := commits[..|commits| - 1], commits[|commits| - 1];
      if last.sha != tip then Ancestors(init, tip)
      else if last.parent.None? then {tip}
      else {tip} + Ancestors(init, last.parent.value)
  }

  /** The listed names that are in `keep`, newest first. */
  function NewestFirst(commits: seq<Commit>, keep: set<Sha>): seq<Sha> {
    if commits == [] then []
    else
      var init, last := commits[..|commits| - 1], commits[|commits| - 1];
      (if last.sha in keep then [last.sha] else []) + NewestFirst(init, keep)
  }

  /** `git rev-list notIn..tip`. */
  function CommitsOnlyIn(commits: seq<Commit>, tip: Sha, notIn: Sha): seq<Sha> {
    NewestFirst(commits, Ancestors(commits, tip) - Ancestors(commits, notIn))
  }

  ghost predicate ParentClosed(commits: seq<Commit>, line: set<Sha>) {
    forall c | c in commits && c.sha in line && c.parent.Some? :: c.parent.value in line
  }

  lemma ShasSnoc(commits: seq<Commit>)
    requires commits != []
    ensures Shas(commits) == Shas(commits[..|commits| - 1]) + {commits[|commits| - 1].sha}
  {
    assert commits == commits[..|commits| - 1] + [commits[|commits| - 1]];
  }

  lemma {:induction false} AncestorsAreVersions(commits: seq<Commit>, tip: Sha)
    requires Sound(commits)
    ensures Ancestors(commits, tip) <= Shas(commits)
    ensures tip in Shas(commits) <==> tip in Ancestors(commits, tip)
    ensures tip !in Shas(commits) ==> Ancestors(commits, tip) == {}
  {
    if commits != [] {
      var init, last := commits[..|commits| - 1], commits[|commits| - 1];
      ShasSnoc(commits);
      AncestorsAreVersions(init, tip);
      if last.sha == tip && last.parent.Some? {
        AncestorsAreVersions(init, last.parent.value);
      }
    }
  }

  /** The line of a version is the least set that holds it and the parent of each member. */
  lemma {:induction false} AncestorsAreLeastClosedSet(commits: seq<Commit>, tip: Sha, line: set<Sha>)
    requires Sound(commits) && tip in Shas(commits)
    ensures tip in Ancestors(commits, tip) && ParentClosed(commits, Ancestors(commits, tip))
    ensures tip in line && ParentClosed(commits, line) ==> Ancestors(commits, tip) <= line
  {
    var init, last := commits[..|commits| - 1], commits[|commits| - 1];
    ShasSnoc(commits);
    assert commits == init + [last];
    AncestorsAreVersions(commits, tip);
    assert forall c | c in init :: c.sha in Shas(init);
    if last.sha != tip {
      AncestorsAreVersions(init, tip);
      AncestorsAreLeastClosedSet(init, tip, line);
    } else if last.parent.Some? {
      AncestorsAreVersions(init, last.parent.value);
      AncestorsAreLeastClosedSet(init, last.parent.value, line);
    }
  }

  /** A new version, whatever its parent, moves no older version on or off any line. */
  lemma CommitKeepsLines(commits: seq<Commit>, c: Commit, tip: Sha)
    requires tip != c.sha
    ensures Ancestors(commits + [c], tip) == Ancestors(commits, tip)
  {
    assert (commits + [c])[..|commits|] == commits;
  }

  /** The range between two tips lists each version of the difference exactly once. */
  lemma RangeIsDifference(commits: seq<Commit>, tip: Sha, notIn: Sha)
    requires Sound(commits)
    ensures var range := CommitsOnlyIn(commits, tip, notIn);
            && (forall x :: x in range <==> x in Ancestors(commits, tip) && x !in Ancestors(commits, notIn))
            && (forall i, j | 0 <= i < j < |range| :: range[i] != range[j])
  {
    AncestorsAreVersions(commits, tip);
    NewestFirstKeeps(commits, Ancestors(commits, tip) - Ancestors(commits, notIn));
  }

  lemma {:induction false} NewestFirstKeeps(commits: seq<Commit>, keep: set<Sha>)
    requires Sound(commits)
    ensures var range := NewestFirst(commits, keep);
            && (forall x :: x in range <==> x in keep && x in Shas(commits))
            && (forall i, j | 0 <= i < j < |range| :: range[i] != range[j])
  {
    if commits != [] {
      var init, last := commits[..|commits| - 1], commits[|commits| - 1];
      ShasSnoc(commits);
      NewestFirstKeeps(init, keep);
      var rest := NewestFirst(init, keep);
      var head := if last.sha in keep then [last.sha] else [];
      assert NewestFirst(commits, keep) == head + rest;
      assert forall x :: x in head + rest <==> x in head || x in rest;
      assert forall j | 0 <= j < |rest| :: rest[j] in rest && rest[j] != last.sha;
    }
  }
}
