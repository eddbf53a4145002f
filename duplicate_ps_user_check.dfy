/** `duplicatePSUserCheck` (src/compareRules/duplicatePSUserCheck.js): the one-time pass
    over every pair of PowerSchool staff entries that puts name-sharing entries with
    different DCIDs on the exclude list. */
module DuplicatePSUserCheckRule {
  import opened Js
  import opened Validate
  import opened State

  /** Every staff entry of every school, school by school and within a school in order. */
  function Flatten(ps: seq<seq<Staff>>): (all: seq<Staff>)
    ensures |ps| == 0 ==> all == []
  {
    if |ps| == 0 then [] else Flatten(ps[..|ps| - 1]) + ps[|ps| - 1]
  }

  /** Two entries collide when first and last names are exactly equal (case included) and
      the DCIDs differ; an entry never collides with itself. */
  predicate Collides(u: Staff, v: Staff) {
    FirstName(u) == FirstName(v) && LastName(u) == LastName(v) && !StrictEq(Dcid(u), Dcid(v))
  }

  /** What the two inner loops push for the entry u while they scan vs: u once per collision. */
  function Pushes(u: Staff, vs: seq<Staff>): seq<Staff> {
    if |vs| == 0 then [] else Pushes(u, vs[..|vs| - 1]) + (if Collides(u, vs[|vs| - 1]) then [u] else [])
  }

  /** What the whole pass pushes when the outer loops visit us and the inner loops scan all. */
  function Additions(us: seq<Staff>, all: seq<Staff>): seq<Staff> {
    if |us| == 0 then [] else Additions(us[..|us| - 1], all) + Pushes(us[|us| - 1], all)
  }

  /** The indices of vs whose entry collides with u. */
  function CollisionIndices(u: Staff, vs: seq<Staff>): set<nat> {
    set i: nat | i < |vs| && Collides(u, vs[i])
  }

  lemma FlattenStep(ps: seq<seq<Staff>>, k: nat)
    requires k < |ps|
    ensures Flatten(ps[..k + 1]) == Flatten(ps[..k]) + ps[k]
  {
    assert ps[..k + 1][..k] == ps[..k];
  }

  lemma NothingVisited(all: seq<Staff>)
    ensures Additions([], all) == []
  {
  }

  lemma NothingScanned(u: Staff)
    ensures Pushes(u, []) == []
  {
  }

  lemma PushesStep(u: Staff, vs: seq<Staff>, v: Staff)
    ensures Pushes(u, vs + [v]) == Pushes(u, vs) + (if Collides(u, v) then [u] else [])
  {
    assert (vs + [v])[..|vs|] == vs;
  }

  lemma AdditionsStep(us: seq<Staff>, u: Staff, all: seq<Staff>)
    ensures Additions(us + [u], all) == Additions(us, all) + Pushes(u, all)
  {
    assert (us + [u])[..|us|] == us;
  }

  /** The pass pushes every entry u once for every entry v, in any school, that collides
      with it; entries already on the list stay, and new ones follow the outer loops'
      order (school, then staff). Nothing else in the state changes. */
  method DuplicatePSUserCheck(st: RunState)
    modifies st
    ensures st.excludeList == old(st.excludeList) + Additions(Flatten(st.psData), Flatten(st.psData))
    ensures st.Snapshot() == old(st.Snapshot()).(excludeList := st.excludeList)
  {
    hide Pushes, Additions, Flatten;
    ghost var all := Flatten(st.psData);
    NothingVisited(all);
    var schoolIdx := 0;
    while schoolIdx < |st.psData|
      invariant schoolIdx <= |st.psData|
      invariant st.excludeList == old(st.excludeList) + Additions(Flatten(st.psData[..schoolIdx]), all)
      invariant st.Snapshot() == old(st.Snapshot()).(excludeList := st.excludeList)
    {
      var school := st.psData[schoolIdx];
      ghost var done := Flatten(st.psData[..schoolIdx]);
      var usrIdx := 0;
      assert done + school[..usrIdx] == done;
      while usrIdx < |school|
        invariant usrIdx <= |school|
        invariant st.excludeList == old(st.excludeList) + Additions(done + school[..usrIdx], all)
        invariant st.Snapshot() == old(st.Snapshot()).(excludeList := st.excludeList)
      {
        var user := school[usrIdx];
        PushCollisions(st, user);
        AdditionsStep(done + school[..usrIdx], user, all);
        assert done + school[..usrIdx + 1] == (done + school[..usrIdx]) + [user];
        usrIdx := usrIdx + 1;
      }
      assert school[..usrIdx] == school;
      FlattenStep(st.psData, schoolIdx);
      schoolIdx := schoolIdx + 1;
    }
    assert st.psData[..schoolIdx] == st.psData;
  }

  /** The two inner loops for one entry: scan every entry of every school and push the
      entry once per collision. */
  method PushCollisions(st: RunState, user: Staff)
    modifies st
    ensures st.excludeList == old(st.excludeList) + Pushes(user, Flatten(st.psData))
    ensures st.Snapshot() == old(st.Snapshot()).(excludeList := st.excludeList)
  {
    hide Pushes, Additions, Flatten;
    NothingScanned(user);
    var schoolColIdx := 0;
    while schoolColIdx < |st.psData|
      invariant schoolColIdx <= |st.psData|
      invariant st.excludeList == old(st.excludeList) + Pushes(user, Flatten(st.psData[..schoolColIdx]))
      invariant st.Snapshot() == old(st.Snapshot()).(excludeList := st.excludeList)
    {
      var schoolCol := st.psData[schoolColIdx];
      ghost var scanned := Flatten(st.psData[..schoolColIdx]);
      var usrColIdx := 0;
      assert scanned + schoolCol[..usrColIdx] == scanned;
      while usrColIdx < |schoolCol|
        invariant usrColIdx <= |schoolCol|
        invariant st.excludeList == old(st.excludeList) + Pushes(user, scanned + schoolCol[..usrColIdx])
        invariant st.Snapshot() == old(st.Snapshot()).(excludeList := st.excludeList)
      {
        var userCol := schoolCol[usrColIdx];
        PushesStep(user, scanned + schoolCol[..usrColIdx], userCol);
        assert scanned + schoolCol[..usrColIdx + 1] == (scanned + schoolCol[..usrColIdx]) + [userCol];
        if Collides(user, userCol) {
          st.excludeList := st.excludeList + [user];
        }
        usrColIdx := usrColIdx + 1;
      }
      assert schoolCol[..usrColIdx] == schoolCol;
      FlattenStep(st.psData, schoolColIdx);
      schoolColIdx := schoolColIdx + 1;
    }
    assert st.psData[..schoolColIdx] == st.psData;
  }

  // ---------------------------------------------------------------------------
  // Properties of the pass
  // ---------------------------------------------------------------------------

  lemma CollisionIndicesStep(u: Staff, vs: seq<Staff>, v: Staff)
    ensures CollisionIndices(u, vs + [v]) ==
      CollisionIndices(u, vs) + (if Collides(u, v) then {|vs|} else {})
  {
    var w := vs + [v];
    forall i | i in CollisionIndices(u, w)
      ensures i in CollisionIndices(u, vs) + (if Collides(u, v) then {|vs|} else {})
    {
      if i < |vs| {
        assert w[i] == vs[i];
      }
    }
    forall i | i in CollisionIndices(u, vs) ensures i in CollisionIndices(u, w) {
      assert w[i] == vs[i];
    }
  }

  /** For one entry u, the pass pushes only u, and pushes it exactly as many times as
      there are entries it collides with. */
  lemma {:induction false} PushesCount(u: Staff, vs: seq<Staff>)
    ensures forall x :: x in Pushes(u, vs) ==> x == u
    ensures |Pushes(u, vs)| == |CollisionIndices(u, vs)|
    decreases |vs|
  {
    if |vs| > 0 {
      var n := |vs| - 1;
      var front := vs[..n];
      assert vs == front + [vs[n]];
      PushesCount(u, front);
      PushesStep(u, front, vs[n]);
      CollisionIndicesStep(u, front, vs[n]);
      assert n !in CollisionIndices(u, front);
    }
  }

  /** u is pushed while scanning vs exactly when some entry of vs collides with it. */
  lemma {:induction false} PushesMembership(u: Staff, vs: seq<Staff>)
    ensures u in Pushes(u, vs) <==> exists v :: v in vs && Collides(u, v)
    decreases |vs|
  {
    hide *;
    if |vs| == 0 {
      NothingScanned(u);
    } else {
      var n := |vs| - 1;
      var front, last := vs[..n], vs[n];
      assert vs == front + [last];
      PushesMembership(u, front);
      PushesStep(u, front, last);
      if exists v :: v in vs && Collides(u, v) {
        var v :| v in vs && Collides(u, v);
        assert v in front || v == last;
      }
      if exists v :: v in front && Collides(u, v) {
        var v :| v in front && Collides(u, v);
        assert v in vs;
      }
    }
  }

  /** An entry ends up among the pushed entries exactly when the outer loops visit it and
      some entry anywhere collides with it. */
  lemma {:induction false} AddedIff(us: seq<Staff>, all: seq<Staff>, x: Staff)
    ensures x in Additions(us, all) <==> x in us && exists v :: v in all && Collides(x, v)
    decreases |us|
  {
    hide Pushes, Additions;
    if |us| == 0 {
      NothingVisited(all);
    } else {
      var n := |us| - 1;
      var front, u := us[..n], us[n];
      assert us == front + [u];
      AddedIff(front, all, x);
      AdditionsStep(front, u, all);
      PushesCount(u, all);
      PushesMembership(u, all);
      assert x in us <==> x in front || x == u;
    }
  }

  /** Collisions are symmetric: when u is pushed because of v, v is pushed because of u. */
  lemma CollisionsSymmetric(all: seq<Staff>, u: Staff, v: Staff)
    requires u in all && v in all && Collides(u, v)
    ensures u in Additions(all, all) && v in Additions(all, all)
  {
    AddedIff(all, all, u);
    assert Collides(v, u);
    AddedIff(all, all, v);
  }

  /** An entry whose first and last name no other entry with a different DCID shares is
      never pushed; in particular a lone entry is never pushed because of itself. */
  lemma UniqueNameNeverAdded(all: seq<Staff>, u: Staff)
    requires forall v :: v in all && FirstName(v) == FirstName(u) && LastName(v) == LastName(u) ==> Dcid(v) == Dcid(u)
    ensures u !in Additions(all, all)
  {
    AddedIff(all, all, u);
  }
}
