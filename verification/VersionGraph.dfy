/** Lane packing of the version graph: the trunk on lane 0, every other branch on a lane of its own. */
module VersionGraph {
  import opened Wrappers
  import opened VersionTree

  /** A version as drawn: newest first, `parent` absent when the version has none. */
  datatype Row = Row(sha: Sha, parent: Option<Sha>, onMain: bool)

  /** What the pass over the rows changes: the lane kept for a parent, the lanes given back, the highest
      lane, and the lane of each row so far. */
  datatype Layout = Layout(reserved: map<Sha, nat>, free: seq<nat>, maxLane: nat, lanes: seq<nat>)

  ghost predicate Distinct(rows: seq<Row>) {
    forall a, b | 0 <= a < b < |rows| :: rows[a].sha != rows[b].sha
  }

  ghost predicate ParentsBelow(rows: seq<Row>) {
    forall a, b | 0 <= a < |rows| && 0 <= b < |rows| && rows[a].parent == Some(rows[b].sha) :: a < b
  }

  ghost predicate Drawable(rows: seq<Row>) {
    Distinct(rows) && ParentsBelow(rows)
  }

  // ---- branches, in terms of the rows alone ----------------------------------------------

  function IndexFrom(rows: seq<Row>, sha: Sha, from: nat): (r: Option<nat>)
    requires from <= |rows|
    ensures r.Some? ==> from <= r.value < |rows| && rows[r.value].sha == sha
    ensures forall k | from <= k < |rows| && rows[k].sha == sha :: r.Some? && r.value <= k
    decreases |rows| - from
  {
    if from == |rows| then None
    else if rows[from].sha == sha then Some(from)
    else IndexFrom(rows, sha, from + 1)
  }

  function IndexOf(rows: seq<Row>, sha: Sha): (r: Option<nat>)
    ensures r.Some? ==> r.value < |rows| && rows[r.value].sha == sha
  {
    IndexFrom(rows, sha, 0)
  }

  predicate BranchChild(rows: seq<Row>, c: nat, sha: Sha) {
    c < |rows| && !rows[c].onMain && rows[c].parent == Some(sha)
  }

  function TopChildFrom(rows: seq<Row>, sha: Sha, from: nat): (r: Option<nat>)
    requires from <= |rows|
    ensures r.Some? ==> from <= r.value && BranchChild(rows, r.value, sha)
    ensures forall c: nat | from <= c && BranchChild(rows, c, sha) :: r.Some? && r.value <= c
    decreases |rows| - from
  {
    if from == |rows| then None
    else if BranchChild(rows, from, sha) then Some(from)
    else TopChildFrom(rows, sha, from + 1)
  }

  /** The topmost child off the trunk of a version. */
  function TopChild(rows: seq<Row>, sha: Sha): Option<nat> {
    TopChildFrom(rows, sha, 0)
  }

  /** The row the branch of row `i` goes on in: its parent, when that is off the trunk too and `i` is
      its topmost child there. */
  function Onward(rows: seq<Row>, i: nat): (r: Option<nat>)
    ensures r.Some? ==> r.value < |rows|
  {
    if i < |rows| && !rows[i].onMain && rows[i].parent.Some? then
      match IndexOf(rows, rows[i].parent.value)
      case Some(j) =>
        if !rows[j].onMain && TopChild(rows, rows[j].sha) == Some(i) then Some(j) else None
      case None => None
    else None
  }

  /** The branch of row `h`, above row `k`, still needs its lane at row `k`. A version off the trunk
      without a parent never gives its lane back. */
  predicate Holds(rows: seq<Row>, h: nat, k: nat) {
    && h < k && h < |rows| && !rows[h].onMain
    && (rows[h].parent == None || (Onward(rows, h).Some? && Onward(rows, h).value >= k))
  }

  function Held(rows: seq<Row>, k: nat): set<nat> {
    set h | 0 <= h < k && Holds(rows, h, k)
  }

  /** A branch starts at a version off the trunk that no branch above goes on in. */
  predicate Heads(rows: seq<Row>, i: nat) {
    i < |rows| && !rows[i].onMain && TopChild(rows, rows[i].sha) == None
  }

  /** How many lanes are needed at row `i`. */
  function Load(rows: seq<Row>, i: nat): nat {
    |Held(rows, i)| + if Heads(rows, i) then 1 else 0
  }

  function Peak(rows: seq<Row>, n: nat): nat {
    if n == 0 then 0
    else
      var before := Peak(rows, n - 1);
      if Load(rows, n - 1) > before then Load(rows, n - 1) else before
  }

  // ---- one row ---------------------------------------------------------------------------

  function Insert(x: nat, s: seq<nat>): (r: seq<nat>)
    ensures multiset(r) == multiset{x} + multiset(s) && |r| == |s| + 1
  {
    if s == [] || x <= s[0] then [x] + s
    else
      assert s == [s[0]] + s[1..];
      [s[0]] + Insert(x, s[1..])
  }

  function Sorted(s: seq<nat>): (r: seq<nat>)
    ensures multiset(r) == multiset(s) && |r| == |s|
  {
    if s == [] then []
    else
      assert s == [s[0]] + s[1..];
      Insert(s[0], Sorted(s[1..]))
  }

  /** A lane for a new branch: the smallest one given back, or one more. */
  function Allocated(s: Layout): (Layout, nat) {
    if s.free != [] then (s.(free := Sorted(s.free)[1..]), Sorted(s.free)[0])
    else (s.(maxLane := s.maxLane + 1), s.maxLane + 1)
  }

  /** The lane of a row, and the layout before its parent is considered. */
  function Assigned(s: Layout, r: Row): (Layout, nat) {
    if r.onMain then (s, 0)
    else if r.sha in s.reserved then (s.(reserved := s.reserved - {r.sha}), s.reserved[r.sha])
    else Allocated(s)
  }

  function Placed(rows: seq<Row>, s: Layout, r: Row): Layout {
    var (t, lane) := Assigned(s, r);
    var u := t.(lanes := s.lanes + [lane]);
    if r.parent.Some? && !r.onMain then
      var parent := IndexOf(rows, r.parent.value);
      if parent.Some? && !rows[parent.value].onMain && r.parent.value !in u.reserved
      then u.(reserved := u.reserved[r.parent.value := lane])
      else if lane != 0 then u.(free := u.free + [lane])
      else u
    else u
  }

  /** The layout after the first `n` rows. */
  function Laid(rows: seq<Row>, n: nat): (s: Layout)
    requires n <= |rows|
    ensures |s.lanes| == n
  {
    if n == 0 then Layout(map[], [], 0, []) else Placed(rows, Laid(rows, n - 1), rows[n - 1])
  }

  function Listed(rows: seq<Row>, n: nat): set<Sha>
    requires n <= |rows|
  {
    set k | 0 <= k < n :: rows[k].sha
  }

  /** The lane of each of the first rows, by version. */
  ghost predicate Drawn(rows: seq<Row>, laneOf: map<Sha, nat>, lanes: seq<nat>) {
    && |lanes| <= |rows| && laneOf.Keys == Listed(rows, |lanes|)
    && forall k | 0 <= k < |lanes| :: rows[k].sha in laneOf && laneOf[rows[k].sha] == lanes[k]
  }

  lemma NothingDrawn(rows: seq<Row>)
    ensures Drawn(rows, map[], [])
  {
  }

  lemma DrawOne(rows: seq<Row>, laneOf: map<Sha, nat>, lanes: seq<nat>, lane: nat)
    requires Distinct(rows) && Drawn(rows, laneOf, lanes) && |lanes| < |rows|
    ensures Drawn(rows, laneOf[rows[|lanes|].sha := lane], lanes + [lane])
  {
    var n := |lanes|;
    assert Listed(rows, n + 1) == Listed(rows, n) + {rows[n].sha};
  }

  /** `computeLayout`, from the sorted rows on. */
  method ComputeLayout(rows: seq<Row>) returns (laneOf: map<Sha, nat>, lanes: nat)
    requires Distinct(rows)
    ensures Drawn(rows, laneOf, Laid(rows, |rows|).lanes)
    ensures lanes == Laid(rows, |rows|).maxLane + 1
  {
    hide IndexOf, Sorted, Drawn, Distinct;
    var reserved: map<Sha, nat>, free: seq<nat>, maxLane: nat := map[], [], 0;
    ghost var column: seq<nat> := [];
    laneOf := map[];
    NothingDrawn(rows);
    for i := 0 to |rows|
      invariant Layout(reserved, free, maxLane, column) == Laid(rows, i)
      invariant Drawn(rows, laneOf, column)
    {
      var v := rows[i];
      var lane: nat;
      if v.onMain {
        lane := 0;
      } else if v.sha in reserved {
        lane := reserved[v.sha];
        reserved := reserved - {v.sha};
      } else if free != [] {
        free := Sorted(free);
        lane, free := free[0], free[1..];
      } else {
        maxLane := maxLane + 1;
        lane := maxLane;
      }
      DrawOne(rows, laneOf, column, lane);
      laneOf := laneOf[v.sha := lane];
      column := column + [lane];
      if v.parent.Some? && !v.onMain {
        var parent := IndexOf(rows, v.parent.value);
        if parent.Some? && !rows[parent.value].onMain && v.parent.value !in reserved {
          reserved := reserved[v.parent.value := lane];
        } else if lane != 0 {
          free := free + [lane];
        }
      }
    }
    lanes := maxLane + 1;
  }
}
