/** `foundSAMsCheck` (src/compareRules/foundSAMsCheck.js): an Active Directory account
    already matched during the PowerSchool pass needs nothing more. */
module FoundSAMsCheckRule {
  import opened Js
  import opened Validate
  import opened State
  import opened Helpers
  import DcidMatchRule
  import DcidMatchEmployeeIDRule
  import NameMatchCheckRule

  /** `foundSAMs.includes(SamAccountName)`: exact, case-sensitive string equality. */
  function FoundSAMsCheck(rec: AdRecord, foundSAMs: seq<string>): (found: bool)
    ensures found <==> exists i :: 0 <= i < |foundSAMs| && foundSAMs[i] == Sam(rec)
  {
    Sam(rec) in foundSAMs
  }

  function FoundSAMsCheckStep(rec: AdRecord, s: Snap): StepResult {
    StepResult(if FoundSAMsCheck(rec, s.foundSAMs) then Claim else Pass, s)
  }

  /** Accounts are matched by exact name: a name recorded in another case does not count. */
  lemma FoundSAMsIsCaseSensitive(rec: AdRecord)
    requires Sam(rec) == "thDeveloper"
    ensures !FoundSAMsCheck(rec, ["THDEVELOPER", "thdeveloper"])
    ensures FoundSAMsCheck(rec, ["THDEVELOPER", "thDeveloper"])
  {
    assert "thDeveloper"[0] != "THDEVELOPER"[0];
    assert "thDeveloper"[2] != "thdeveloper"[2];
  }

  /** An account that a PowerSchool rule claims is one this rule then recognises, however
      many names are recorded after it: a DCID match, an employee-ID match, and a name
      match that is logged or written back all record the account's name. */
  lemma ClaimedAccountsAreFound(env: Env, u: Staff, s: Snap, j: int, later: seq<string>)
    requires 0 <= j < |env.adData|
    ensures FirstByAttribute(env.adData, Dcid(u), SyncAttribute(env), j) ==>
      FoundSAMsCheck(env.adData[j], DcidMatchRule.DcidMatchStep(env, u, s).snap.foundSAMs + later)
    ensures (Truthy(AppOption(env, "checkEmployeeID")) &&
             FirstByAttribute(env.adData, Dcid(u), DcidMatchEmployeeIDRule.EmployeeIDAttribute, j)) ==>
      FoundSAMsCheck(env.adData[j], DcidMatchEmployeeIDRule.DcidMatchEmployeeIDStep(env, u, s).snap.foundSAMs + later)
    ensures (FirstByName(env.adData, FirstName(u), LastName(u), j) &&
             NameMatchCheckRule.NameMatchCheckStep(env, u, s).verdict == Claim) ==>
      FoundSAMsCheck(env.adData[j], NameMatchCheckRule.NameMatchCheckStep(env, u, s).snap.foundSAMs + later)
  {
    var rec := env.adData[j];
    if FirstByAttribute(env.adData, Dcid(u), SyncAttribute(env), j) {
      DcidMatchRule.DcidMatchClaimsFirstMatch(env, u, s, j);
      RecordedIsFound(rec, s.foundSAMs, later);
    }
    if Truthy(AppOption(env, "checkEmployeeID")) &&
       FirstByAttribute(env.adData, Dcid(u), DcidMatchEmployeeIDRule.EmployeeIDAttribute, j) {
      DcidMatchEmployeeIDRule.EmployeeIDClaimsFirstMatch(env, u, s, j);
      RecordedIsFound(rec, s.foundSAMs, later);
    }
    if FirstByName(env.adData, FirstName(u), LastName(u), j) &&
       NameMatchCheckRule.NameMatchCheckStep(env, u, s).verdict == Claim {
      if Truthy(AppOption(env, "noWrite")) {
        NameMatchCheckRule.NoWriteOnlyLogs(env, u, s, j);
        RecordedIsFound(rec, s.foundSAMs, later);
      } else if Sam(rec) !in env.rejects {
        NameMatchCheckRule.WriteBackAccepted(env, u, s, j);
        RecordedIsFound(rec, s.foundSAMs, later);
      } else {
        NameMatchCheckRule.WriteBackRefused(env, u, s, j);
        assert false;
      }
    }
  }

  /** A name appended to the found list is found, whatever is appended after it. */
  lemma RecordedIsFound(rec: AdRecord, before: seq<string>, later: seq<string>)
    ensures FoundSAMsCheck(rec, before + [Sam(rec)] + later)
  {
    assert (before + [Sam(rec)] + later)[|before|] == Sam(rec);
  }
}
