/** What the packed graph shows: the trunk alone on lane 0, each branch in one column that nothing else
    enters while it runs, and no more columns than are needed at once. */
module VersionGraphLaws {
  import opened Wrappers
  import opened VersionTree
  import opened VersionGraph

  // ---- which branches hold a lane --------------------------------------------------------

  lemma IndexIs(rows: seq<Row>, k: nat)
    requires Distinct(rows) && k < |rows|
    ensures IndexOf(rows, rows[k].sha) == Some(k)
  {
    var i := IndexFrom(rows, rows[k].sha, 0).value;
    assert i <= k && rows[i].sha == rows[k].sha;
  }

  /** The top child of a version off the trunk stands above it and goes on in it. */
  lemma TopChildGoesOn(rows: seq<Row>, j: nat)
    requires Drawable(rows) && j < |rows| && !rows[j].onMain && TopChild(rows, rows[j].sha).Some?
    ensures var c := TopChild(rows, rows[j].sha).value;
            c < j && Onward(rows, c) == Some(j) && Holds(rows, c, j)
  {
    IndexIs(rows, j);
    var c := TopChild(rows, rows[j].sha).value;
    assert BranchChild(rows, c, rows[j].sha);
  }

  /** A branch goes on further down, in a version whose top child it is. */
  lemma OnwardIsBelow(rows: seq<Row>, h: nat)
    requires Drawable(rows) && Onward(rows, h).Some?
    ensures var j := Onward(rows, h).value;
            h < j < |rows| && rows[h].parent == Some(rows[j].sha) && !rows[j].onMain
            && TopChild(rows, rows[j].sha) == Some(h)
  {
  }

  /** The branch that row `i` takes over, and the one it leaves open. */
  function Taken(rows: seq<Row>, i: nat): set<nat>
    requires i < |rows|
  {
    if !rows[i].onMain && TopChild(rows, rows[i].sha).Some? then {TopChild(rows, rows[i].sha).value} else {}
  }

  function Left(rows: seq<Row>, i: nat): set<nat>
    requires i < |rows|
  {
    if !rows[i].onMain && (rows[i].parent == None || Onward(rows, i).Some?) then {i} else {}
  }

  lemma HoldsStep(rows: seq<Row>, i: nat, h: nat)
    requires Drawable(rows) && i < |rows|
    ensures Holds(rows, h, i + 1) <==> (Holds(rows, h, i) && h !in Taken(rows, i)) || h in Left(rows, i)
  {
    hide IndexOf, TopChild, Onward;
    if !rows[i].onMain && TopChild(rows, rows[i].sha).Some? { TopChildGoesOn(rows, i); }
    if Onward(rows, h).Some? { OnwardIsBelow(rows, h); }
  }

  lemma TakenHolds(rows: seq<Row>, i: nat)
    requires Drawable(rows) && i < |rows|
    ensures Taken(rows, i) <= Held(rows, i) && i !in Held(rows, i)
  {
    hide IndexOf, TopChild, Onward;
    if !rows[i].onMain && TopChild(rows, rows[i].sha).Some? { TopChildGoesOn(rows, i); }
  }

  lemma HeldStep(rows: seq<Row>, i: nat)
    requires Drawable(rows) && i < |rows|
    ensures Held(rows, i + 1) == Held(rows, i) - Taken(rows, i) + Left(rows, i)
    ensures |Held(rows, i + 1)| == |Held(rows, i)| - |Taken(rows, i)| + |Left(rows, i)|
  {
    hide Holds, Taken, Left;
    TakenHolds(rows, i);
    forall h: nat ensures h in Held(rows, i + 1) <==> h in Held(rows, i) - Taken(rows, i) + Left(rows, i) {
      HoldsStep(rows, i, h);
      LeftIs(rows, i, h);
      HoldsAbove(rows, h, i);
      HoldsAbove(rows, h, i + 1);
    }
    LeftApart(rows, i);
    assert Held(rows, i) == (Held(rows, i) - Taken(rows, i)) + Taken(rows, i);
  }

  lemma LeftIs(rows: seq<Row>, i: nat, h: nat)
    requires i < |rows|
    ensures h in Left(rows, i) ==> h == i
  {
  }

  lemma LeftApart(rows: seq<Row>, i: nat)
    requires i < |rows|
    ensures Left(rows, i) <= {i}
  {
  }

  lemma HoldsAbove(rows: seq<Row>, h: nat, k: nat)
    ensures Holds(rows, h, k) ==> h < k
  {
  }

  // ---- lanes held and lanes free ---------------------------------------------------------

  function LanesOf(held: set<nat>, lanes: seq<nat>): set<nat> {
    set h | h in held && h < |lanes| :: lanes[h]
  }

  ghost predicate Apart(lanes: seq<nat>, h: nat, k: nat) {
    h < |lanes| && k < |lanes| && lanes[h] != lanes[k]
  }

  ghost predicate HasLane(lanes: seq<nat>, free: seq<nat>, maxLane: nat, h: nat) {
    h < |lanes| && 1 <= lanes[h] <= maxLane && lanes[h] !in free
  }

  ghost predicate FreeLane(free: seq<nat>, maxLane: nat, l: nat) {
    l in free ==> 1 <= l <= maxLane && multiset(free)[l] == 1
  }

  /** The lanes up to the highest are split between the branches that hold one and the free ones. */
  ghost predicate Packed(lanes: seq<nat>, held: set<nat>, free: seq<nat>, maxLane: nat) {
    && (forall h | h in held :: HasLane(lanes, free, maxLane, h))
    && (forall h, k | h in held && k in held && h != k :: Apart(lanes, h, k))
    && (forall l :: FreeLane(free, maxLane, l))
    && (forall l | 1 <= l <= maxLane :: l in free || l in LanesOf(held, lanes))
    && |held| + |free| == maxLane
  }

  lemma LanesGrow(held: set<nat>, lanes: seq<nat>, lane: nat)
    requires forall h | h in held :: h < |lanes|
    ensures LanesOf(held, lanes + [lane]) == LanesOf(held, lanes)
    ensures LanesOf(held + {|lanes|}, lanes + [lane]) == LanesOf(held, lanes) + {lane}
  {
    var all := lanes + [lane];
    assert all[|lanes|] == lane && |lanes| in held + {|lanes|};
    forall h | h in held ensures all[h] == lanes[h] {}
    forall l | l in LanesOf(held, lanes) ensures l in LanesOf(held + {|lanes|}, all) && l in LanesOf(held, all) {
      var h :| h in held && h < |lanes| && lanes[h] == l;
      assert all[h] == l && h in held + {|lanes|};
    }
  }

  /** A row on the trunk takes no lane. */
  lemma PackTrunk(lanes: seq<nat>, held: set<nat>, free: seq<nat>, maxLane: nat)
    requires Packed(lanes, held, free, maxLane)
    ensures Packed(lanes + [0], held, free, maxLane)
  {
    LanesGrow(held, lanes, 0);
    forall h | h in held ensures HasLane(lanes + [0], free, maxLane, h) { assert HasLane(lanes, free, maxLane, h); }
    forall h, k | h in held && k in held && h != k ensures Apart(lanes + [0], h, k) { assert Apart(lanes, h, k); }
  }

  /** A row goes on in the column of the branch it takes over. */
  lemma PackTakeOver(lanes: seq<nat>, held: set<nat>, free: seq<nat>, maxLane: nat, c: nat)
    requires Packed(lanes, held, free, maxLane) && c in held
    ensures c < |lanes| && Packed(lanes + [lanes[c]], held - {c} + {|lanes|}, free, maxLane)
  {
    assert HasLane(lanes, free, maxLane, c);
    var n, all, next := |lanes|, lanes + [lanes[c]], held - {c} + {|lanes|};
    forall h | h in held ensures h < n { assert HasLane(lanes, free, maxLane, h); }
    forall h | h in next ensures HasLane(all, free, maxLane, h) {
      if h != n { assert HasLane(lanes, free, maxLane, h); }
    }
    forall h, k | h in next && k in next && h != k ensures Apart(all, h, k) {
      assert Apart(lanes, if h == n then c else h, if k == n then c else k);
    }
    forall l | l in LanesOf(held, lanes) ensures l in LanesOf(next, all) {
      var h :| h in held && h < |lanes| && lanes[h] == l;
      assert all[if h == c then n else h] == l;
    }
    assert held == held - {c} + {c};
  }

  /** A new branch takes a lane that is in nobody's use. */
  lemma PackNew(lanes: seq<nat>, held: set<nat>, free: seq<nat>, maxLane: nat, lane: nat, rest: seq<nat>, top: nat)
    requires Packed(lanes, held, free, maxLane)
    requires 1 <= lane <= top && maxLane <= top && lane !in LanesOf(held, lanes) && lane !in rest
    requires forall l | l in rest :: l in free && FreeLane(rest, top, l)
    requires forall l | 1 <= l <= top :: l == lane || l in rest || l in LanesOf(held, lanes)
    requires |held| + |rest| + 1 == top
    ensures Packed(lanes + [lane], held + {|lanes|}, rest, top)
  {
    var n, all, next := |lanes|, lanes + [lane], held + {|lanes|};
    forall h | h in held ensures h < n { assert HasLane(lanes, free, maxLane, h); }
    LanesGrow(held, lanes, lane);
    forall h | h in next ensures HasLane(all, rest, top, h) { if h != n { assert HasLane(lanes, free, maxLane, h); } }
    forall h, k | h in next && k in next && h != k ensures Apart(all, h, k) {
      if h != n && k != n { assert Apart(lanes, h, k); }
      if h != n { assert lanes[h] in LanesOf(held, lanes); }
      if k != n { assert lanes[k] in LanesOf(held, lanes); }
    }
  }

  lemma PackWider(lanes: seq<nat>, held: set<nat>, maxLane: nat)
    requires Packed(lanes, held, [], maxLane)
    ensures Packed(lanes + [maxLane + 1], held + {|lanes|}, [], maxLane + 1)
  {
    HeldLanesBounded(lanes, held, [], maxLane);
    PackNew(lanes, held, [], maxLane, maxLane + 1, [], maxLane + 1);
  }

  lemma HeldLanesBounded(lanes: seq<nat>, held: set<nat>, free: seq<nat>, maxLane: nat)
    requires Packed(lanes, held, free, maxLane)
    ensures forall l | l in LanesOf(held, lanes) :: 1 <= l <= maxLane && l !in free
  {
    forall l | l in LanesOf(held, lanes) ensures 1 <= l <= maxLane && l !in free {
      var h :| h in held && h < |lanes| && lanes[h] == l;
      assert HasLane(lanes, free, maxLane, h);
    }
  }

  lemma PackReuse(lanes: seq<nat>, held: set<nat>, free: seq<nat>, maxLane: nat)
    requires Packed(lanes, held, free, maxLane) && free != []
    ensures Packed(lanes + [Sorted(free)[0]], held + {|lanes|}, Sorted(free)[1..], maxLane)
  {
    hide Sorted, Packed;
    var sorted := Sorted(free);
    assert sorted == [sorted[0]] + sorted[1..];
    assert multiset(sorted) == multiset(free);
    FreeAfterTake(lanes, held, free, maxLane, sorted);
    HeldLanesBounded(lanes, held, free, maxLane);
    PackNew(lanes, held, free, maxLane, sorted[0], sorted[1..], maxLane);
  }

  lemma FreeAfterTake(lanes: seq<nat>, held: set<nat>, free: seq<nat>, maxLane: nat, sorted: seq<nat>)
    requires Packed(lanes, held, free, maxLane) && free != [] && |sorted| == |free|
    requires multiset(sorted) == multiset(free) && sorted == [sorted[0]] + sorted[1..]
    ensures sorted[0] in free && 1 <= sorted[0] <= maxLane && sorted[0] !in sorted[1..]
    ensures forall l | l in sorted[1..] :: l in free && FreeLane(sorted[1..], maxLane, l)
    ensures forall l | 1 <= l <= maxLane :: l == sorted[0] || l in sorted[1..] || l in LanesOf(held, lanes)
    ensures |held| + |sorted[1..]| + 1 == maxLane
  {
    hide LanesOf;
    var rest := sorted[1..];
    assert multiset(sorted) == multiset{sorted[0]} + multiset(rest);
    assert sorted[0] in multiset(free);
    assert FreeLane(free, maxLane, sorted[0]);
    forall l | l in rest ensures l in free && FreeLane(rest, maxLane, l) {
      assert l in multiset(free) && FreeLane(free, maxLane, l);
    }
    forall l | 1 <= l <= maxLane ensures l == sorted[0] || l in rest || l in LanesOf(held, lanes) {
      if l in free { assert l in multiset(sorted); }
    }
  }

  /** A branch that ends gives its lane back. */
  lemma PackRelease(lanes: seq<nat>, held: set<nat>, free: seq<nat>, maxLane: nat, k: nat)
    requires Packed(lanes, held, free, maxLane) && k in held
    ensures k < |lanes| && Packed(lanes, held - {k}, free + [lanes[k]], maxLane)
  {
    assert HasLane(lanes, free, maxLane, k);
    var l0, next, more := lanes[k], held - {k}, free + [lanes[k]];
    forall h | h in next ensures HasLane(lanes, more, maxLane, h) {
      assert HasLane(lanes, free, maxLane, h) && Apart(lanes, h, k);
    }
    forall l ensures FreeLane(more, maxLane, l) { assert FreeLane(free, maxLane, l); }
    forall l | 1 <= l <= maxLane ensures l in more || l in LanesOf(next, lanes) {
      if l !in free && l != l0 {
        var h :| h in held && h < |lanes| && lanes[h] == l;
        assert h in next;
      }
      assert l0 == more[|free|];
      if l in free { var i :| 0 <= i < |free| && free[i] == l; assert more[i] == l; }
    }
    assert held == next + {k};
  }

  // ---- reservations ----------------------------------------------------------------------

  /** The version is still to come, off the trunk, and has a child off the trunk above row `i`. */
  predicate Pending(rows: seq<Row>, sha: Sha, i: nat) {
    var j, c := IndexOf(rows, sha), TopChild(rows, sha);
    j.Some? && i <= j.value && !rows[j.value].onMain && c.Some? && c.value < i
  }

  /** Exactly the pending versions have a lane kept, the lane of their top child. */
  ghost predicate Reserved(rows: seq<Row>, s: Layout, i: nat, sha: Sha) {
    && (sha in s.reserved <==> Pending(rows, sha, i))
    && (Pending(rows, sha, i) ==>
          TopChild(rows, sha).value < |s.lanes| && s.reserved[sha] == s.lanes[TopChild(rows, sha).value])
  }

  lemma ReservedHere(rows: seq<Row>, i: nat)
    requires Drawable(rows) && i < |rows| && !rows[i].onMain
    ensures Pending(rows, rows[i].sha, i) <==> TopChild(rows, rows[i].sha).Some?
  {
    hide IndexOf, TopChild;
    IndexIs(rows, i);
    if TopChild(rows, rows[i].sha).Some? { TopChildGoesOn(rows, i); }
  }

  /** A row keeps its lane for its parent exactly when its branch goes on there. */
  lemma GoesOnWhenUnclaimed(rows: seq<Row>, i: nat)
    requires Drawable(rows) && i < |rows| && !rows[i].onMain && rows[i].parent.Some?
    ensures var p := rows[i].parent.value; var j := IndexOf(rows, p);
            && (j.Some? ==> i < j.value && p != rows[i].sha)
            && (Onward(rows, i).Some? <==> j.Some? && !rows[j.value].onMain && !Pending(rows, p, i))
            && (Onward(rows, i).Some? ==> TopChild(rows, p) == Some(i) && Onward(rows, i) == j)
  {
    assert BranchChild(rows, i, rows[i].parent.value);
  }

  lemma PendingStep(rows: seq<Row>, i: nat, sha: Sha)
    requires Drawable(rows) && i < |rows|
    ensures Pending(rows, sha, i + 1) <==>
      (Pending(rows, sha, i) && sha != rows[i].sha)
      || (Onward(rows, i).Some? && rows[i].parent == Some(sha))
  {
    IndexIs(rows, i);
    if TopChild(rows, sha) == Some(i) { assert BranchChild(rows, i, sha); }
    if IndexOf(rows, sha).Some? && rows[i].parent == Some(sha) { assert i < IndexOf(rows, sha).value; }
  }

  lemma TrunkIsNotReserved(rows: seq<Row>, i: nat)
    requires Drawable(rows) && i < |rows| && rows[i].onMain
    ensures !Pending(rows, rows[i].sha, i)
  {
    IndexIs(rows, i);
  }

  lemma ReservedStep(rows: seq<Row>, s: Layout, i: nat, sha: Sha)
    requires Drawable(rows) && i < |rows| && |s.lanes| == i
    requires Reserved(rows, s, i, sha) && Reserved(rows, s, i, rows[i].sha)
    requires rows[i].parent.Some? ==> Reserved(rows, s, i, rows[i].parent.value)
    ensures Reserved(rows, Placed(rows, s, rows[i]), i + 1, sha)
  {
    hide IndexOf, TopChild, Onward, Pending, Sorted;
    PendingStep(rows, i, sha);
    PendingAbove(rows, sha, i);
    if rows[i].onMain {
      TrunkIsNotReserved(rows, i);
      TrunkStaysPut(rows, i);
    } else if rows[i].parent.Some? {
      GoesOnWhenUnclaimed(rows, i);
    } else {
      TrunkStaysPut(rows, i);
    }
  }

  lemma PendingAbove(rows: seq<Row>, sha: Sha, i: nat)
    ensures Pending(rows, sha, i) ==> TopChild(rows, sha).Some? && TopChild(rows, sha).value < i
  {
  }

  lemma TrunkStaysPut(rows: seq<Row>, i: nat)
    requires i < |rows| && (rows[i].onMain || rows[i].parent == None)
    ensures Onward(rows, i) == None
  {
  }

  // ---- columns ---------------------------------------------------------------------------

  /** The trunk, and nothing else, is on lane 0. */
  ghost predicate TrunkOnZero(rows: seq<Row>, lanes: seq<nat>, k: nat) {
    k < |rows| && k < |lanes| ==> (lanes[k] == 0 <==> rows[k].onMain)
  }

  predicate NoneBetween(lanes: seq<nat>, h: nat, to: nat) {
    forall m | h < m < to && m < |lanes| && h < |lanes| :: lanes[m] != lanes[h]
  }

  /** A branch stays in its column: the parent it goes on in gets its lane and no row between them uses
      it; a version without a parent keeps its lane to itself for good. */
  ghost predicate ColumnOk(rows: seq<Row>, lanes: seq<nat>, h: nat) {
    h < |rows| && h < |lanes| && !rows[h].onMain ==>
      match Onward(rows, h)
      case Some(j) => NoneBetween(lanes, h, j) && (j < |lanes| ==> lanes[j] == lanes[h])
      case None => rows[h].parent == None ==> NoneBetween(lanes, h, |lanes|)
  }

  /** A new branch gets the smallest lane that no branch holds. */
  ghost predicate SmallestLane(rows: seq<Row>, lanes: seq<nat>, k: nat) {
    k < |lanes| && Heads(rows, k) ==>
      && lanes[k] !in LanesOf(Held(rows, k), lanes)
      && forall l | 1 <= l < lanes[k] :: l in LanesOf(Held(rows, k), lanes)
  }

  ghost predicate AllReserved(rows: seq<Row>, s: Layout, i: nat) {
    forall sha :: Reserved(rows, s, i, sha)
  }

  ghost predicate Columns(rows: seq<Row>, lanes: seq<nat>) {
    forall h: nat :: TrunkOnZero(rows, lanes, h) && ColumnOk(rows, lanes, h) && SmallestLane(rows, lanes, h)
  }

  ghost predicate Inv(rows: seq<Row>, s: Layout, i: nat) {
    && i <= |rows| && |s.lanes| == i && AllReserved(rows, s, i)
    && Packed(s.lanes, Held(rows, i), s.free, s.maxLane)
    && s.maxLane == Peak(rows, i)
    && Columns(rows, s.lanes)
  }

  // ---- one row ---------------------------------------------------------------------------

  lemma {:induction false} SmallestIsFirst(s: seq<nat>)
    requires s != []
    ensures forall x | x in s :: Sorted(s)[0] <= x
  {
    if |s| > 1 {
      SmallestIsFirst(s[1..]);
      forall x | x in s ensures Sorted(s)[0] <= x {
        if x != s[0] { assert x in s[1..]; }
      }
    }
  }

  /** The lane of a row: its branch's, or for a new branch the smallest one not held. */
  lemma NewLane(rows: seq<Row>, s: Layout, i: nat)
    requires Drawable(rows) && i < |rows| && Inv(rows, s, i) && Heads(rows, i)
    ensures var (t, lane) := Assigned(s, rows[i]);
            && t.reserved == s.reserved && t.maxLane == Peak(rows, i + 1)
            && Packed(s.lanes + [lane], Held(rows, i) + {i}, t.free, t.maxLane)
            && lane !in LanesOf(Held(rows, i), s.lanes)
            && forall l | 1 <= l < lane :: l in LanesOf(Held(rows, i), s.lanes)
  {
    var held, lanes := Held(rows, i), s.lanes;
    ReservedHere(rows, i);
    assert Reserved(rows, s, i, rows[i].sha);
    HeldLanesBounded(lanes, held, s.free, s.maxLane);
    hide Held, Sorted, IndexOf, TopChild, Columns, AllReserved;
    if s.free != [] {
      PackReuse(lanes, held, s.free, s.maxLane);
      SmallestIsFirst(s.free);
      assert Sorted(s.free)[0] in multiset(Sorted(s.free));
      assert FreeLane(s.free, s.maxLane, Sorted(s.free)[0]);
    } else {
      PackWider(lanes, held, s.maxLane);
    }
  }

  /** The lane of a row off the trunk that goes on a branch is that branch's. */
  lemma KeptLane(rows: seq<Row>, s: Layout, i: nat)
    requires Drawable(rows) && i < |rows| && Inv(rows, s, i) && !rows[i].onMain && !Heads(rows, i)
    ensures var (t, lane) := Assigned(s, rows[i]); var c := TopChild(rows, rows[i].sha);
            && c.Some? && c.value < i && Onward(rows, c.value) == Some(i) && lane == s.lanes[c.value]
            && t == s.(reserved := t.reserved) && t.maxLane == Peak(rows, i + 1)
            && Packed(s.lanes + [lane], Held(rows, i) - {c.value} + {i}, t.free, t.maxLane)
  {
    hide IndexOf, TopChild, Columns, AllReserved;
    var c := TopChild(rows, rows[i].sha).value;
    TopChildGoesOn(rows, i);
    ReservedHere(rows, i);
    IsReserved(rows, s, i, rows[i].sha);
    assert c in Held(rows, i);
    PackTakeOver(s.lanes, Held(rows, i), s.free, s.maxLane, c);
  }

  lemma IsReserved(rows: seq<Row>, s: Layout, i: nat, sha: Sha)
    requires AllReserved(rows, s, i)
    ensures Reserved(rows, s, i, sha)
  {
  }

  /** Whether its branch goes on decides whether a row's lane stays in use. */
  lemma LaneStaysOrGoes(rows: seq<Row>, s: Layout, i: nat)
    requires Drawable(rows) && i < |rows| && |s.lanes| == i && AllReserved(rows, s, i) && !rows[i].onMain
    requires Assigned(s, rows[i]).1 > 0
    ensures var (t, lane) := Assigned(s, rows[i]); var u := Placed(rows, s, rows[i]);
            && u.maxLane == t.maxLane && u.lanes == s.lanes + [lane]
            && u.free == if Left(rows, i) == {i} then t.free else t.free + [lane]
  {
    hide IndexOf, TopChild, Onward, Sorted;
    if rows[i].parent.Some? {
      GoesOnWhenUnclaimed(rows, i);
      IsReserved(rows, s, i, rows[i].parent.value);
    }
  }

  lemma BranchRowPacks(rows: seq<Row>, s: Layout, i: nat)
    requires Drawable(rows) && i < |rows| && Inv(rows, s, i) && !rows[i].onMain
    ensures var u := Placed(rows, s, rows[i]); var lane := Assigned(s, rows[i]).1;
            && lane > 0 && u.lanes == s.lanes + [lane] && u.maxLane == Peak(rows, i + 1)
            && Packed(u.lanes, Held(rows, i + 1), u.free, u.maxLane)
            && Packed(u.lanes, Held(rows, i) - Taken(rows, i) + {i}, Assigned(s, rows[i]).0.free, u.maxLane)
  {
    hide IndexOf, TopChild, Onward, Columns, AllReserved, Held, Peak, Packed;
    var (t, lane) := Assigned(s, rows[i]);
    HeldStep(rows, i);
    TakenHolds(rows, i);
    if Heads(rows, i) {
      NewLane(rows, s, i);
      assert Held(rows, i) - Taken(rows, i) + {i} == Held(rows, i) + {i};
    } else {
      KeptLane(rows, s, i);
    }
    var now := Held(rows, i) - Taken(rows, i) + {i};
    PackedLane(s.lanes + [lane], now, t.free, t.maxLane, i);
    LaneStaysOrGoes(rows, s, i);
    if Left(rows, i) != {i} {
      PackRelease(s.lanes + [lane], now, t.free, t.maxLane, i);
      assert now - {i} == Held(rows, i + 1);
    }
  }

  lemma PackedLane(lanes: seq<nat>, held: set<nat>, free: seq<nat>, maxLane: nat, h: nat)
    requires Packed(lanes, held, free, maxLane) && h in held
    ensures h < |lanes| && 1 <= lanes[h] <= maxLane
    ensures forall k | k in held && k != h :: k < |lanes| && lanes[k] != lanes[h]
  {
    assert HasLane(lanes, free, maxLane, h);
    forall k | k in held && k != h ensures k < |lanes| && lanes[k] != lanes[h] { assert Apart(lanes, k, h); }
  }

  lemma TrunkRowPacks(rows: seq<Row>, s: Layout, i: nat)
    requires Drawable(rows) && i < |rows| && Inv(rows, s, i) && rows[i].onMain
    ensures var u := Placed(rows, s, rows[i]);
            && u == s.(lanes := s.lanes + [0]) && u.maxLane == Peak(rows, i + 1)
            && Packed(u.lanes, Held(rows, i + 1), u.free, u.maxLane)
  {
    hide IndexOf, TopChild, Onward, Columns, AllReserved, Held, Packed;
    HeldStep(rows, i);
    assert Held(rows, i) - {} + {} == Held(rows, i);
    PackTrunk(s.lanes, Held(rows, i), s.free, s.maxLane);
    PackedCount(s.lanes, Held(rows, i), s.free, s.maxLane);
  }

  lemma PackedCount(lanes: seq<nat>, held: set<nat>, free: seq<nat>, maxLane: nat)
    requires Packed(lanes, held, free, maxLane)
    ensures |held| <= maxLane
  {
  }

  /** No other branch that is still open shares the lane of row `i`. */
  lemma LaneIsOwn(rows: seq<Row>, s: Layout, i: nat, h: nat)
    requires Drawable(rows) && i < |rows| && Inv(rows, s, i) && Holds(rows, h, i) && h !in Taken(rows, i)
    ensures h < i && Assigned(s, rows[i]).1 != s.lanes[h]
  {
    hide IndexOf, TopChild, Onward, Columns, AllReserved, Packed, Peak;
    assert h in Held(rows, i);
    var u := Placed(rows, s, rows[i]);
    if rows[i].onMain {
      PackedLane(s.lanes, Held(rows, i), s.free, s.maxLane, h);
    } else {
      BranchRowPacks(rows, s, i);
      PackedLane(u.lanes, Held(rows, i) - Taken(rows, i) + {i}, Assigned(s, rows[i]).0.free, u.maxLane, i);
      assert h in Held(rows, i) - Taken(rows, i) + {i};
      assert u.lanes[h] == s.lanes[h] && u.lanes[i] == Assigned(s, rows[i]).1;
    }
  }

  lemma ColumnStep(rows: seq<Row>, s: Layout, i: nat, h: nat)
    requires Drawable(rows) && i < |rows| && Inv(rows, s, i)
    ensures ColumnOk(rows, s.lanes + [Assigned(s, rows[i]).1], h)
  {
    hide IndexOf, TopChild, Onward, Packed, Peak, Assigned, AllReserved, Held;
    assert ColumnOk(rows, s.lanes, h);
    if h < i && Holds(rows, h, i) && h !in Taken(rows, i) { LaneIsOwn(rows, s, i, h); }
    if Onward(rows, h).Some? { OnwardIsBelow(rows, h); }
    if h in Taken(rows, i) { KeptLane(rows, s, i); }
  }

  lemma SmallestStep(rows: seq<Row>, s: Layout, i: nat, k: nat)
    requires Drawable(rows) && i < |rows| && Inv(rows, s, i)
    ensures SmallestLane(rows, s.lanes + [Assigned(s, rows[i]).1], k)
  {
    hide IndexOf, TopChild, Onward, Packed, Peak, Assigned, AllReserved, Heads;
    assert SmallestLane(rows, s.lanes, k);
    if k <= i { LanesGrow(Held(rows, k), s.lanes, Assigned(s, rows[i]).1); }
    if k == i && Heads(rows, i) { NewLane(rows, s, i); }
  }

  lemma ColumnsStep(rows: seq<Row>, s: Layout, i: nat)
    requires Drawable(rows) && i < |rows| && Inv(rows, s, i)
    ensures Columns(rows, s.lanes + [Assigned(s, rows[i]).1])
  {
    var lanes := s.lanes + [Assigned(s, rows[i]).1];
    forall h: nat ensures TrunkOnZero(rows, lanes, h) && ColumnOk(rows, lanes, h) && SmallestLane(rows, lanes, h) {
      hide ColumnOk, SmallestLane, Packed, AllReserved, Peak, Held;
      assert TrunkOnZero(rows, s.lanes, h);
      if h == i && !rows[i].onMain { BranchRowPacks(rows, s, i); }
      ColumnStep(rows, s, i, h);
      SmallestStep(rows, s, i, h);
    }
  }

  lemma RowKeepsInv(rows: seq<Row>, s: Layout, i: nat)
    requires Drawable(rows) && i < |rows| && Inv(rows, s, i)
    ensures Inv(rows, Placed(rows, s, rows[i]), i + 1)
  {
    hide Columns, Packed, Peak, Held, Reserved, Assigned, Drawable;
    ColumnsStep(rows, s, i);
    if rows[i].onMain { TrunkRowPacks(rows, s, i); } else { BranchRowPacks(rows, s, i); }
    var next, n := Placed(rows, s, rows[i]), i + 1;
    forall sha ensures Reserved(rows, next, n, sha) {
      IsReserved(rows, s, i, sha);
      ReservedStep(rows, s, i, sha);
    }
  }

  lemma {:induction false} LaidKeepsInv(rows: seq<Row>, n: nat)
    requires Drawable(rows) && n <= |rows|
    ensures Inv(rows, Laid(rows, n), n)
  {
    if n == 0 {
      forall sha ensures Reserved(rows, Laid(rows, 0), 0, sha) {}
    } else {
      hide Inv, Drawable;
      LaidKeepsInv(rows, n - 1);
      RowKeepsInv(rows, Laid(rows, n - 1), n - 1);
    }
  }

  // ---- the picture -----------------------------------------------------------------------

  /** The trunk, and nothing else, is on lane 0. */
  lemma TrunkIsLaneZero(rows: seq<Row>, k: nat)
    requires Drawable(rows) && k < |rows|
    ensures Laid(rows, |rows|).lanes[k] == 0 <==> rows[k].onMain
  {
    LaidKeepsInv(rows, |rows|);
    assert TrunkOnZero(rows, Laid(rows, |rows|).lanes, k);
  }

  /** A branch is one column: the version it goes on in gets its lane, and no version in between, on
      the trunk or on another branch, is drawn there. */
  lemma BranchIsOneColumn(rows: seq<Row>, h: nat, j: nat)
    requires Drawable(rows) && Onward(rows, h) == Some(j)
    ensures var lanes := Laid(rows, |rows|).lanes;
            h < j < |rows| && lanes[j] == lanes[h] && forall m | h < m < j :: lanes[m] != lanes[h]
  {
    OnwardIsBelow(rows, h);
    LaidKeepsInv(rows, |rows|);
    assert ColumnOk(rows, Laid(rows, |rows|).lanes, h);
  }

  /** A new branch takes the smallest lane that no branch above still holds. */
  lemma BranchTakesSmallestLane(rows: seq<Row>, k: nat)
    requires Drawable(rows) && Heads(rows, k)
    ensures var lanes := Laid(rows, |rows|).lanes; var used := LanesOf(Held(rows, k), lanes);
            lanes[k] >= 1 && lanes[k] !in used && forall l | 1 <= l < lanes[k] :: l in used
  {
    LaidKeepsInv(rows, |rows|);
    assert SmallestLane(rows, Laid(rows, |rows|).lanes, k) && TrunkOnZero(rows, Laid(rows, |rows|).lanes, k);
  }

  /** The graph is as wide as its busiest row: there are as many lanes off the trunk as some row needs
      at once, counting a lane for good for each version off the trunk without a parent. */
  lemma WidthIsPeakLoad(rows: seq<Row>)
    requires Drawable(rows)
    ensures Laid(rows, |rows|).maxLane == Peak(rows, |rows|)
    ensures forall i | 0 <= i < |rows| :: Load(rows, i) <= Laid(rows, |rows|).maxLane
  {
    LaidKeepsInv(rows, |rows|);
    PeakIsMaximal(rows, |rows|);
  }

  lemma {:induction false} PeakIsMaximal(rows: seq<Row>, n: nat)
    ensures forall i | 0 <= i < n :: Load(rows, i) <= Peak(rows, n)
    ensures n > 0 && Peak(rows, n) > 0 ==> exists i :: 0 <= i < n && Load(rows, i) == Peak(rows, n)
  {
    hide Load;
    if n > 0 { PeakIsMaximal(rows, n - 1); }
  }

  // ---- no narrower picture ---------------------------------------------------------------

  /** The branches that need a lane at row `i`, a new one there among them. */
  function Needed(rows: seq<Row>, i: nat): set<nat> {
    Held(rows, i) + if Heads(rows, i) then {i} else {}
  }

  /** Any picture: every version off the trunk on one of `width` lanes, each branch in one column that
      no row enters while it runs. */
  ghost predicate Picture(rows: seq<Row>, lanes: seq<nat>, width: nat) {
    && |lanes| == |rows|
    && forall h: nat :: Within(rows, lanes, width, h) && ColumnOk(rows, lanes, h)
  }

  ghost predicate Within(rows: seq<Row>, lanes: seq<nat>, width: nat, h: nat) {
    h < |rows| && h < |lanes| && !rows[h].onMain ==> 1 <= lanes[h] <= width
  }

  lemma NeededIsLoad(rows: seq<Row>, i: nat)
    ensures |Needed(rows, i)| == Load(rows, i)
  {
    hide Heads, Holds;
    if Heads(rows, i) { assert i !in Held(rows, i) && |Held(rows, i) + {i}| == |Held(rows, i)| + 1; }
  }

  /** In any picture the branches that need a lane at a row are on different lanes. */
  lemma NeededAreApart(rows: seq<Row>, lanes: seq<nat>, width: nat, i: nat, h: nat, k: nat)
    requires Drawable(rows) && i < |rows| && Picture(rows, lanes, width)
    requires h in Needed(rows, i) && k in Needed(rows, i) && h < k
    ensures lanes[h] != lanes[k]
  {
    hide IndexOf, TopChild, Onward;
    assert ColumnOk(rows, lanes, h);
    if Onward(rows, h).Some? { OnwardIsBelow(rows, h); }
  }

  lemma NeededHaveLanes(rows: seq<Row>, lanes: seq<nat>, width: nat, i: nat, h: nat)
    requires i < |rows| && Picture(rows, lanes, width) && h in Needed(rows, i)
    ensures h < |lanes| && 1 <= lanes[h] <= width
  {
    hide IndexOf, TopChild, Onward;
    assert Within(rows, lanes, width, h);
  }

  lemma AsManyLanes(held: set<nat>, lanes: seq<nat>, width: nat)
    requires forall h | h in held :: h < |lanes| && 1 <= lanes[h] <= width
    requires forall h, k | h in held && k in held && h < k :: lanes[h] != lanes[k]
    ensures |held| <= width
  {
    var m := map h | h in held :: lanes[h];
    assert m.Keys == held;
    AsManyKeysAsValues(m);
    AtMost(m.Values, width);
  }

  lemma {:induction false} AtMost(s: set<nat>, width: nat)
    requires forall l | l in s :: 1 <= l <= width
    ensures |s| <= width
  {
    if width == 0 {
      assert s == {};
    } else {
      AtMost(s - {width}, width - 1);
      assert s <= (s - {width}) + {width};
    }
  }

  lemma PictureNeedsLoad(rows: seq<Row>, lanes: seq<nat>, width: nat, i: nat)
    requires Drawable(rows) && i < |rows| && Picture(rows, lanes, width)
    ensures Load(rows, i) <= width
  {
    hide Needed, Picture, Load;
    NeededIsLoad(rows, i);
    forall h | h in Needed(rows, i) ensures h < |lanes| && 1 <= lanes[h] <= width {
      NeededHaveLanes(rows, lanes, width, i, h);
    }
    forall h, k | h in Needed(rows, i) && k in Needed(rows, i) && h < k ensures lanes[h] != lanes[k] {
      NeededAreApart(rows, lanes, width, i, h, k);
    }
    AsManyLanes(Needed(rows, i), lanes, width);
  }

  /** The layout is a picture, and there is none with fewer lanes. */
  lemma NoNarrowerPicture(rows: seq<Row>)
    requires Drawable(rows)
    ensures var s := Laid(rows, |rows|);
            && Picture(rows, s.lanes, s.maxLane)
            && forall lanes, width: nat :: Picture(rows, lanes, width) ==> s.maxLane <= width
  {
    hide Load, Peak, ColumnOk;
    var s := Laid(rows, |rows|);
    LaidKeepsInv(rows, |rows|);
    PeakIsMaximal(rows, |rows|);
    forall h: nat ensures Within(rows, s.lanes, s.maxLane, h) && ColumnOk(rows, s.lanes, h) {
      LanesAreWithin(rows, |rows|, h);
    }
    forall lanes, width: nat | Picture(rows, lanes, width) ensures s.maxLane <= width {
      if s.maxLane > 0 {
        var i :| 0 <= i < |rows| && Load(rows, i) == Peak(rows, |rows|);
        PictureNeedsLoad(rows, lanes, width, i);
      }
    }
  }

  /** A row's lane is within the highest lane after it, which is no lower than before. */
  lemma RowIsWithin(rows: seq<Row>, s: Layout, i: nat)
    requires Drawable(rows) && i < |rows| && Inv(rows, s, i)
    ensures var u := Placed(rows, s, rows[i]);
            && |u.lanes| == i + 1 && u.lanes[..i] == s.lanes && s.maxLane <= u.maxLane
            && (!rows[i].onMain ==> 1 <= u.lanes[i] <= u.maxLane)
  {
    hide IndexOf, TopChild, Onward, Columns, AllReserved, Held, Packed, Taken, Drawable, Load;
    if rows[i].onMain {
      TrunkRowPacks(rows, s, i);
    } else {
      BranchRowPacks(rows, s, i);
      var u := Placed(rows, s, rows[i]);
      PackedLane(u.lanes, Held(rows, i) - Taken(rows, i) + {i}, Assigned(s, rows[i]).0.free, u.maxLane, i);
    }
  }

  /** Every lane handed out is within the highest. */
  lemma {:induction false} LanesAreWithin(rows: seq<Row>, n: nat, h: nat)
    requires Drawable(rows) && n <= |rows|
    ensures Within(rows, Laid(rows, n).lanes, Laid(rows, n).maxLane, h)
  {
    if n > 0 {
      hide Inv, Placed, Drawable;
      var s := Laid(rows, n - 1);
      LanesAreWithin(rows, n - 1, h);
      LaidKeepsInv(rows, n - 1);
      RowIsWithin(rows, s, n - 1);
      var lanes := Placed(rows, s, rows[n - 1]).lanes;
      assert h < n - 1 ==> lanes[h] == lanes[..n - 1][h];
    }
  }

  // ---- the load, by the rows alone -------------------------------------------------------

  /** The versions off the trunk, from row `k` down, that a branch is drawn to there: row `k` itself, and
      each one with a child off the trunk above. */
  function Open(rows: seq<Row>, k: nat): set<nat> {
    set j | k <= j < |rows| && !rows[j].onMain
            && (j == k || (TopChild(rows, rows[j].sha).Some? && TopChild(rows, rows[j].sha).value < k))
  }

  /** The versions off the trunk above row `k` that have no parent. */
  function Stranded(rows: seq<Row>, k: nat): set<nat> {
    set h | 0 <= h < k && h < |rows| && !rows[h].onMain && rows[h].parent == None
  }

  /** The branches above row `k` that go on at it or below, with where they go on. */
  function Passing(rows: seq<Row>, k: nat): map<nat, nat> {
    map h | 0 <= h < k && Onward(rows, h).Some? && Onward(rows, h).value >= k :: Onward(rows, h).value
  }

  /** The lanes needed at a row, counted on the rows alone: one for every version at it or below that a
      branch is drawn to, and one for every version above without a parent. */
  lemma LoadCountsOpenBranches(rows: seq<Row>, k: nat)
    requires Drawable(rows) && k < |rows|
    ensures Load(rows, k) == |Open(rows, k)| + |Stranded(rows, k)|
  {
    HeldIsPassingOrStranded(rows, k);
    PassingEnds(rows, k);
    PassingIsInjective(rows, k);
    AsManyKeysAsValues(Passing(rows, k));
    hide Held, Open, Stranded, Passing, TopChild, Onward, Drawable;
    var ends := Passing(rows, k).Values;
    if Heads(rows, k) { assert |ends + {k}| == |ends| + 1; }
  }

  lemma HeldIsPassingOrStranded(rows: seq<Row>, k: nat)
    requires Drawable(rows)
    ensures |Held(rows, k)| == |Passing(rows, k).Keys| + |Stranded(rows, k)|
  {
    hide IndexOf, TopChild;
    assert Held(rows, k) == Passing(rows, k).Keys + Stranded(rows, k);
    assert Passing(rows, k).Keys !! Stranded(rows, k);
  }

  lemma PassingEnds(rows: seq<Row>, k: nat)
    requires Drawable(rows) && k < |rows|
    ensures Open(rows, k) == Passing(rows, k).Values + if Heads(rows, k) then {k} else {}
    ensures Heads(rows, k) ==> k !in Passing(rows, k).Values
  {
    hide IndexOf, TopChild, Onward;
    var m := Passing(rows, k);
    forall j: nat ensures j in Open(rows, k) <==> j in m.Values || (Heads(rows, k) && j == k) {
      if j in m.Values {
        var h: nat :| h in m && m[h] == j;
        OnwardIsBelow(rows, h);
      }
      if j in Open(rows, k) && TopChild(rows, rows[j].sha).Some? {
        TopChildGoesOn(rows, j);
        assert m[TopChild(rows, rows[j].sha).value] == j;
      }
    }
    if k in m.Values {
      var h: nat :| h in m && m[h] == k;
      OnwardIsBelow(rows, h);
    }
  }

  lemma PassingIsInjective(rows: seq<Row>, k: nat)
    requires Drawable(rows)
    ensures var m := Passing(rows, k); forall g, h | g in m && h in m && m[g] == m[h] :: g == h
  {
    hide IndexOf, TopChild, Onward;
    var m := Passing(rows, k);
    forall g, h | g in m && h in m && m[g] == m[h] ensures g == h {
      OnwardIsBelow(rows, g);
      OnwardIsBelow(rows, h);
    }
  }

  lemma {:induction false} AsManyKeysAsValues(m: map<nat, nat>)
    requires forall g, h | g in m && h in m && m[g] == m[h] :: g == h
    ensures |m.Keys| == |m.Values|
    decreases |m|
  {
    if m != map[] {
      var g :| g in m;
      var rest := m - {g};
      AsManyKeysAsValues(rest);
      assert m.Keys == rest.Keys + {g};
      assert m.Values == rest.Values + {m[g]} by {
        forall v | v in m.Values ensures v in rest.Values + {m[g]} {
          var h :| h in m && m[h] == v;
          assert h == g || rest[h] == v;
        }
      }
      assert m[g] !in rest.Values;
    }
  }

  /** At every row exactly the versions still to come off the trunk, with a child off the trunk above, have
      a lane kept, the lane of their top child. */
  lemma ReservedArePending(rows: seq<Row>, n: nat, sha: Sha)
    requires Drawable(rows) && n <= |rows|
    ensures var s := Laid(rows, n);
            && (sha in s.reserved <==> Pending(rows, sha, n))
            && (sha in s.reserved ==> TopChild(rows, sha).value < n
                                      && s.reserved[sha] == s.lanes[TopChild(rows, sha).value])
  {
    LaidKeepsInv(rows, n);
    IsReserved(rows, Laid(rows, n), n, sha);
  }

  /** At every row no lane is given back twice, none is both given back and kept for a parent, and no two
      parents have the same. */
  lemma ReservedAndFreeAreApart(rows: seq<Row>, n: nat)
    requires Drawable(rows) && n <= |rows|
    ensures var s := Laid(rows, n);
            && (forall l | l in s.free :: multiset(s.free)[l] == 1)
            && (forall p | p in s.reserved :: s.reserved[p] !in s.free)
            && (forall p, q | p in s.reserved && q in s.reserved && p != q :: s.reserved[p] != s.reserved[q])
  {
    hide Laid, Columns, AllReserved, Held, IndexOf, TopChild;
    var s := Laid(rows, n);
    LaidKeepsInv(rows, n);
    forall l | l in s.free ensures multiset(s.free)[l] == 1 { assert FreeLane(s.free, s.maxLane, l); }
    forall p | p in s.reserved ensures s.reserved[p] !in s.free {
      ReservedIsHeld(rows, s, n, p);
      assert HasLane(s.lanes, s.free, s.maxLane, TopChild(rows, p).value);
    }
    forall p, q | p in s.reserved && q in s.reserved && p != q ensures s.reserved[p] != s.reserved[q] {
      ReservedIsHeld(rows, s, n, p);
      ReservedIsHeld(rows, s, n, q);
      var c, d := TopChild(rows, p).value, TopChild(rows, q).value;
      assert rows[c].parent == Some(p) && rows[d].parent == Some(q);
      assert Apart(s.lanes, c, d);
    }
  }

  lemma ReservedIsHeld(rows: seq<Row>, s: Layout, i: nat, p: Sha)
    requires Drawable(rows) && Inv(rows, s, i) && p in s.reserved
    ensures var c := TopChild(rows, p);
            c.Some? && c.value in Held(rows, i) && c.value < |s.lanes| && s.reserved[p] == s.lanes[c.value]
            && BranchChild(rows, c.value, p)
  {
    IsReserved(rows, s, i, p);
    var j, c := IndexOf(rows, p).value, TopChild(rows, p).value;
    TopChildGoesOn(rows, j);
  }
}
