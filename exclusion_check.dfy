/** `exclusionCheck` (src/compareRules/exclusionCheck.js): a staff entry found on the
    exclude list is skipped. */
module ExclusionCheckRule {
  import opened Js
  import opened Validate
  import opened State
  import opened DuplicatePSUserCheckRule

  /** The test the loop applies to one list entry: first name, last name and DCID all `===`. */
  predicate SameEntry(u: Staff, e: Staff) {
    FirstName(u) == FirstName(e) && LastName(u) == LastName(e) && StrictEq(Dcid(u), Dcid(e))
  }

  /** Some entry of the list is the same entry as u. */
  predicate Excluded(u: Staff, list: seq<Staff>) {
    exists i :: 0 <= i < |list| && SameEntry(u, list[i])
  }

  /** The rule as a step on the state: it changes nothing and ends the entry's processing
      when the entry is excluded. */
  function ExclusionCheckStep(u: Staff, s: Snap): StepResult {
    StepResult(if Excluded(u, s.excludeList) then Claim else Pass, s)
  }

  /** The loop scans the whole list (it does not stop at the first hit) and answers
      whether any entry is the same as the user. */
  method ExclusionCheck(user: Staff, st: RunState) returns (shouldContinue: bool)
    ensures shouldContinue <==> Excluded(user, st.excludeList)
  {
    shouldContinue := false;
    for i := 0 to |st.excludeList|
      invariant shouldContinue <==> exists k :: 0 <= k < i && SameEntry(user, st.excludeList[k])
    {
      var e := st.excludeList[i];
      if FirstName(user) == FirstName(e) && LastName(user) == LastName(e) && StrictEq(Dcid(user), Dcid(e)) {
        shouldContinue := true;
      }
    }
  }

  /** After the duplicate pass over an empty list, an entry of the data is excluded exactly
      when another entry shares its first and last name with a different DCID. */
  lemma ExcludedAfterDuplicatePass(all: seq<Staff>, u: Staff)
    requires u in all
    ensures Excluded(u, Additions(all, all)) <==> exists v :: v in all && Collides(u, v)
  {
    hide *;
    if Excluded(u, Additions(all, all)) {
      ExcludedOnlyIfColliding(all, u);
    }
    if exists v :: v in all && Collides(u, v) {
      AddedIff(all, all, u);
      PassAddsAreExcluded([], all, u);
      assert [] + Additions(all, all) == Additions(all, all);
    }
  }

  lemma ExcludedOnlyIfColliding(all: seq<Staff>, u: Staff)
    requires Excluded(u, Additions(all, all))
    ensures exists v :: v in all && Collides(u, v)
  {
    hide Additions, Pushes;
    var list := Additions(all, all);
    var i :| 0 <= i < |list| && SameEntry(u, list[i]);
    var x := list[i];
    AddedIff(all, all, x);
    var v :| v in all && Collides(x, v);
    assert Collides(u, v);
  }

  /** An entry the duplicate pass puts on the list is excluded from then on, whatever was
      on the list before. */
  lemma PassAddsAreExcluded(before: seq<Staff>, all: seq<Staff>, u: Staff)
    requires u in Additions(all, all)
    ensures Excluded(u, before + Additions(all, all))
  {
    hide Additions, Pushes;
    var list := before + Additions(all, all);
    var i :| 0 <= i < |Additions(all, all)| && Additions(all, all)[i] == u;
    assert list[|before| + i] == u;
    assert SameEntry(u, list[|before| + i]);
  }
}
