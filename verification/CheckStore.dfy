/** The stored regression checks: frozen on promotion, switched by the operator, and switched
    along with the version line. */
module CheckStore {
  import opened Wrappers
  import opened VersionTree

  datatype Disabler = Lifecycle | Operator

  datatype Check = Check(id: string, name: string, origin: Sha, active: bool, disabledBy: Option<Disabler>)

  predicate OperatorDisabled(c: Check) {
    !c.active && c.disabledBy == Some(Operator)
  }

  predicate Named(checks: seq<Check>, origin: Sha, name: string) {
    exists i | 0 <= i < |checks| :: checks[i].origin == origin && checks[i].name == name
  }

  /** The checks to append: one per name the store does not hold for this origin yet. */
  function NewChecks(stored: seq<Check>, names: seq<string>, origin: Sha, ids: seq<string>): seq<Check>
    requires |ids| >= |names|
  {
    if names == [] then []
    else
      var last := |names| - 1;
      NewChecks(stored, names[..last], origin, ids)
      + if Named(stored, origin, names[last]) then [] else [Check(ids[last], names[last], origin, true, None)]
  }

  function Ids(checks: seq<Check>): seq<string> {
    seq(|checks|, i requires 0 <= i < |checks| => checks[i].id)
  }

  function Synced(c: Check, disable: set<Sha>, enable: set<Sha>): Check {
    if c.origin in disable && c.active then c.(active := false, disabledBy := Some(Lifecycle))
    else if c.origin in enable && !c.active && c.disabledBy == Some(Lifecycle) then
      c.(active := true, disabledBy := None)
    else c
  }

  function AllSynced(checks: seq<Check>, disable: set<Sha>, enable: set<Sha>): seq<Check> {
    seq(|checks|, i requires 0 <= i < |checks| => Synced(checks[i], disable, enable))
  }

  /** The operator's switch, on the first check with this id. */
  function Toggled(checks: seq<Check>, id: string, enabled: bool): seq<Check> {
    if checks == [] then []
    else if checks[0].id == id then
      [checks[0].(active := enabled, disabledBy := if enabled then None else Some(Operator))] + checks[1..]
    else [checks[0]] + Toggled(checks[1..], id, enabled)
  }

  lemma ToggleLater(checks: seq<Check>, i: nat, id: string, enabled: bool)
    requires i < |checks| && checks[i].id != id
    ensures checks[..i] + Toggled(checks[i..], id, enabled) == checks[..i + 1] + Toggled(checks[i + 1..], id, enabled)
  {
    assert checks[i..][1..] == checks[i + 1..];
    assert checks[..i + 1] == checks[..i] + [checks[i]];
  }

  lemma NothingToggled(checks: seq<Check>, id: string, enabled: bool)
    ensures checks[..0] + Toggled(checks[0..], id, enabled) == Toggled(checks, id, enabled)
    ensures checks[..|checks|] + Toggled(checks[|checks|..], id, enabled) == checks
  {
    assert checks[0..] == checks;
  }

  lemma ToggleHere(checks: seq<Check>, i: nat, id: string, enabled: bool)
    requires i < |checks| && checks[i].id == id
    ensures checks[..i] + Toggled(checks[i..], id, enabled)
         == checks[i := checks[i].(active := enabled, disabledBy := if enabled then None else Some(Operator))]
  {
    assert checks[i..][1..] == checks[i + 1..];
  }

  class Store {
    var checks: seq<Check>

    constructor ()
      ensures checks == []
    {
      checks := [];
    }

    /** `ids` are the fresh ids drawn for the names, in order. */
    method FreezeChecks(names: seq<string>, origin: Sha, ids: seq<string>) returns (added: seq<string>)
      requires |ids| >= |names|
      modifies this
      ensures checks == old(checks) + NewChecks(old(checks), names, origin, ids)
      ensures added == Ids(NewChecks(old(checks), names, origin, ids))
    {
      added := [];
      var grown := checks;
      for i := 0 to |names|
        invariant grown == checks + NewChecks(checks, names[..i], origin, ids)
        invariant checks == old(checks) && added == Ids(NewChecks(checks, names[..i], origin, ids))
      {
        assert names[..i + 1][..i] == names[..i];
        if !Named(checks, origin, names[i]) {
          grown := grown + [Check(ids[i], names[i], origin, true, None)];
          added := added + [ids[i]];
        }
      }
      assert names[..|names|] == names;
      checks := grown;
    }

    method SetCheckEnabled(id: string, enabled: bool) returns (known: bool)
      modifies this
      ensures checks == Toggled(old(checks), id, enabled)
      ensures known <==> exists c :: c in old(checks) && c.id == id
    {
      hide Toggled;
      var i := 0;
      NothingToggled(checks, id, enabled);
      while i < |checks| && checks[i].id != id
        invariant i <= |checks| && checks == old(checks)
        invariant forall k | 0 <= k < i :: checks[k].id != id
        invariant Toggled(checks, id, enabled) == checks[..i] + Toggled(checks[i..], id, enabled)
      {
        ToggleLater(checks, i, id, enabled);
        i := i + 1;
      }
      known := i < |checks|;
      if known {
        ToggleHere(checks, i, id, enabled);
        checks := checks[i := checks[i].(active := enabled, disabledBy := if enabled then None else Some(Operator))];
      }
    }

    method SyncLifecycle(disable: set<Sha>, enable: set<Sha>) returns (disabled: nat, enabled: nat)
      modifies this
      ensures checks == AllSynced(old(checks), disable, enable)
      ensures disabled == enabled == 0 ==> checks == old(checks)
    {
      disabled, enabled := 0, 0;
      for i := 0 to |checks|
        invariant |checks| == |old(checks)|
        invariant disabled == enabled == 0 ==> checks == old(checks)
        invariant forall k | 0 <= k < |checks| ::
                    checks[k] == if k < i then Synced(old(checks)[k], disable, enable) else old(checks)[k]
      {
        var c := checks[i];
        if c.origin in disable && c.active {
          checks := checks[i := c.(active := false, disabledBy := Some(Lifecycle))];
          disabled := disabled + 1;
        } else if c.origin in enable && !c.active && c.disabledBy == Some(Lifecycle) {
          checks := checks[i := c.(active := true, disabledBy := None)];
          enabled := enabled + 1;
        }
      }
    }
  }

  // ---- laws --------------------------------------------------------------------------

  /** Freezing again adds nothing: every name is already held for its origin. */
  lemma {:induction false} FreezeIdempotent(checks: seq<Check>, names: seq<string>, origin: Sha,
                                            ids: seq<string>, later: seq<string>)
    requires |ids| >= |names| && |later| >= |names|
    ensures NewChecks(checks + NewChecks(checks, names, origin, ids), names, origin, later) == []
  {
    FreezeHolds(checks, names, origin, ids);
    HeldAddsNothing(checks + NewChecks(checks, names, origin, ids), names, origin, later);
  }

  lemma {:induction false} FreezeHolds(checks: seq<Check>, names: seq<string>, origin: Sha, ids: seq<string>)
    requires |ids| >= |names|
    ensures forall i | 0 <= i < |names| :: Named(checks + NewChecks(checks, names, origin, ids), origin, names[i])
  {
    if names != [] {
      var last := |names| - 1;
      var before := checks + NewChecks(checks, names[..last], origin, ids);
      var after := checks + NewChecks(checks, names, origin, ids);
      FreezeHolds(checks, names[..last], origin, ids);
      assert forall k | 0 <= k < |before| :: after[k] == before[k];
      forall i | 0 <= i < |names| ensures Named(after, origin, names[i]) {
        if i < last {
          assert names[i] == names[..last][i];
        } else if Named(checks, origin, names[last]) {
          assert forall k | 0 <= k < |checks| :: after[k] == checks[k];
        } else {
          assert after[|after| - 1].origin == origin;
        }
      }
    }
  }

  lemma {:induction false} HeldAddsNothing(checks: seq<Check>, names: seq<string>, origin: Sha, ids: seq<string>)
    requires |ids| >= |names|
    requires forall i | 0 <= i < |names| :: Named(checks, origin, names[i])
    ensures NewChecks(checks, names, origin, ids) == []
  {
    if names != [] {
      assert forall i | 0 <= i < |names| - 1 :: names[..|names| - 1][i] == names[i];
      HeldAddsNothing(checks, names[..|names| - 1], origin, ids);
    }
  }

  /** New checks are active and belong to the promoted version. */
  lemma {:induction false} NewChecksBelong(checks: seq<Check>, names: seq<string>, origin: Sha, ids: seq<string>)
    requires |ids| >= |names|
    ensures forall c | c in NewChecks(checks, names, origin, ids) :: c.active && c.origin == origin
  {
    if names != [] {
      NewChecksBelong(checks, names[..|names| - 1], origin, ids);
    }
  }

  /** The switch changes one check with the given id and nothing else. */
  lemma {:induction false} ToggleChangesOne(checks: seq<Check>, id: string, enabled: bool)
    ensures var r := Toggled(checks, id, enabled);
            && |r| == |checks|
            && (forall i | 0 <= i < |checks| ::
                  r[i] == checks[i].(active := r[i].active, disabledBy := r[i].disabledBy))
            && (forall i | 0 <= i < |checks| && checks[i].id != id :: r[i] == checks[i])
            && (forall i | 0 <= i < |checks| :: r[i] == checks[i] || r[i].active == enabled)
            && (forall i | 0 <= i < |checks| && r[i] != checks[i] && !enabled :: OperatorDisabled(r[i]))
            && (forall i | 0 <= i < |checks| && r[i] != checks[i] && enabled :: r[i].active && r[i].disabledBy == None)
  {
    if checks != [] && checks[0].id != id {
      ToggleChangesOne(checks[1..], id, enabled);
    }
  }
}
