/** `serviceAccountCheck` (src/compareRules/serviceAccountCheck.js): staff entries whose
    `local_id` marks a service account are skipped. */
module ServiceAccountCheckRule {
  import opened Js
  import opened Validate
  import opened State

  /** `local_id` is a string beginning with "SVC-" (case-sensitive); any other type is not
      a service account. */
  function ServiceAccountCheck(user: Staff): (isService: bool)
    ensures isService <==> exists rest :: LocalId(user) == Str("SVC-" + rest)
  {
    var id := LocalId(user);
    if id.Str? && StartsWith(id.s, "SVC-") then
      assert id == Str("SVC-" + id.s[4..]);
      true
    else
      assert forall rest :: id != Str("SVC-" + rest) by {
        forall rest ensures id != Str("SVC-" + rest) {
          assert ("SVC-" + rest)[..4] == "SVC-";
        }
      }
      false
  }

  function ServiceAccountCheckStep(u: Staff, s: Snap): StepResult {
    StepResult(if ServiceAccountCheck(u) then Claim else Pass, s)
  }

  /** The prefix is matched exactly: lower case, a missing dash or a number is not a
      service account, while anything may follow the dash. */
  lemma ServiceAccountPrefixIsExact(u: Staff)
    requires LocalId(u) in {Str("svc-1"), Str("SVC"), Str("SVC1"), Num(4), Null}
    ensures !ServiceAccountCheck(u)
  {
    if LocalId(u).Str? {
      var s := LocalId(u).s;
      assert |s| < 4 || s[..4] != "SVC-" by {
        if |s| >= 4 { assert s[3] != '-' || s[0] != 'S'; }
      }
    }
  }

  lemma ServiceAccountAnySuffix(u: Staff)
    requires LocalId(u) in {Str("SVC-"), Str("SVC-000"), Str("SVC-svc")}
    ensures ServiceAccountCheck(u)
  {
    assert StartsWith(LocalId(u).s, "SVC-");
  }
}
