/** `dcidMatchEmployeeID` (src/compareRules/dcidMatchEmployeeID.js): when
    `checkEmployeeID` is set, a staff entry whose DCID is stored in the `EmployeeID`
    attribute is in sync. */
module DcidMatchEmployeeIDRule {
  import opened Js
  import opened Validate
  import opened State
  import opened Helpers

  /** The attribute searched, fixed by the rule. */
  const EmployeeIDAttribute: string := "EmployeeID"

  /** The error the logging line raises as written: it reads the undeclared `users`
      (optional chaining does not guard an undeclared name). */
  const UsersNotDefined: string := "ReferenceError: users is not defined"

  /** The line the logging statement evidently means to log. */
  function EmployeeIDLine(u: Staff, r: AdRecord): string {
    "DCID Matched (employeeID): " + ToStr(Dcid(u)) + " to " + Sam(r) + "; User OK!"
  }

  /** The rule as written: with `outputMatched` set, a match raises after the counter
      has already been incremented, and the account is never recorded as found. */
  function DcidMatchEmployeeIDAsWritten(env: Env, u: Staff, s: Snap): StepResult {
    if !Truthy(AppOption(env, "checkEmployeeID")) then StepResult(Pass, s)
    else
      match FindByAttribute(env.adData, Dcid(u), EmployeeIDAttribute)
      case None => StepResult(Pass, s)
      case Some(r) =>
        var counted := s.(successMatchesSecondaryPS := s.successMatchesSecondaryPS + 1);
        if Truthy(AppOption(env, "outputMatched")) then StepResult(Throw(UsersNotDefined), counted)
        else StepResult(Claim, counted.(foundSAMs := s.foundSAMs + [Sam(r)]))
  }

  /** The rule as intended: the line names the entry's DCID and the matched account. */
  function DcidMatchEmployeeIDStep(env: Env, u: Staff, s: Snap): StepResult {
    if !Truthy(AppOption(env, "checkEmployeeID")) then StepResult(Pass, s)
    else
      match FindByAttribute(env.adData, Dcid(u), EmployeeIDAttribute)
      case None => StepResult(Pass, s)
      case Some(r) =>
        StepResult(Claim, s.(successMatchesSecondaryPS := s.successMatchesSecondaryPS + 1,
                             changeTable := LogIf(AppOption(env, "outputMatched"), s.changeTable, EmployeeIDLine(u, r)),
                             foundSAMs := s.foundSAMs + [Sam(r)]))
  }

  method DcidMatchEmployeeID(user: Staff, st: RunState) returns (matched: bool)
    modifies st
    ensures StepResult(if matched then Claim else Pass, st.Snapshot()) ==
            DcidMatchEmployeeIDStep(st.Inputs(), user, old(st.Snapshot()))
  {
    hide FindByAttribute, ParseIntVal, ToStr, EmployeeIDLine;
    if !Truthy(Field(st.app, "checkEmployeeID")) {
      return false;
    }
    var extMatch := AdFindByAttribute(st.adData, Dcid(user), EmployeeIDAttribute);
    if extMatch.None? {
      return false;
    }
    st.successMatchesSecondaryPS := st.successMatchesSecondaryPS + 1;
    if Truthy(Field(st.app, "outputMatched")) {
      st.changeTable := st.changeTable + [EmployeeIDLine(user, extMatch.value)];
    }
    st.foundSAMs := st.foundSAMs + [Sam(extMatch.value)];
    return true;
  }

  /** With the option set and record j the first whose `EmployeeID` parses to the entry's
      DCID, the rule claims the entry, counts a secondary match, records j's account as
      found, logs only under `outputMatched`, and changes nothing else. */
  lemma EmployeeIDClaimsFirstMatch(env: Env, u: Staff, s: Snap, j: int)
    requires Truthy(AppOption(env, "checkEmployeeID"))
    requires FirstByAttribute(env.adData, Dcid(u), EmployeeIDAttribute, j)
    ensures DcidMatchEmployeeIDStep(env, u, s).verdict == Claim
    ensures DcidMatchEmployeeIDStep(env, u, s).snap.foundSAMs == s.foundSAMs + [Sam(env.adData[j])]
    ensures DcidMatchEmployeeIDStep(env, u, s).snap.successMatchesSecondaryPS == s.successMatchesSecondaryPS + 1
    ensures Truthy(AppOption(env, "outputMatched")) ==>
      DcidMatchEmployeeIDStep(env, u, s).snap.changeTable == s.changeTable + [EmployeeIDLine(u, env.adData[j])]
    ensures !Truthy(AppOption(env, "outputMatched")) ==>
      DcidMatchEmployeeIDStep(env, u, s).snap.changeTable == s.changeTable
    ensures DcidMatchEmployeeIDStep(env, u, s).snap.(changeTable := s.changeTable, foundSAMs := s.foundSAMs,
      successMatchesSecondaryPS := s.successMatchesSecondaryPS) == s
  {
    hide ParseIntVal, AttributeMatches, ToStr;
    FindByAttributeFirst(env.adData, Dcid(u), EmployeeIDAttribute, j);
  }

  /** The rule passes, leaving the state alone, exactly when the option is off or no
      record's `EmployeeID` parses to the entry's DCID. */
  lemma EmployeeIDPassIff(env: Env, u: Staff, s: Snap)
    ensures DcidMatchEmployeeIDStep(env, u, s).verdict == Pass <==>
      !Truthy(AppOption(env, "checkEmployeeID")) ||
      forall j :: 0 <= j < |env.adData| ==> !AttributeMatches(env.adData[j], Dcid(u), EmployeeIDAttribute)
    ensures DcidMatchEmployeeIDStep(env, u, s).verdict == Pass ==> DcidMatchEmployeeIDStep(env, u, s).snap == s
  {
    hide ParseIntVal, AttributeMatches, ToStr;
    FindByAttributeNone(env.adData, Dcid(u), EmployeeIDAttribute);
  }

  /** As written, a match with `outputMatched` set raises a ReferenceError after counting
      the match and without recording the account, where the intended rule claims it. */
  lemma EmployeeIDLogRaises(env: Env, u: Staff, s: Snap, j: int)
    requires Truthy(AppOption(env, "checkEmployeeID")) && Truthy(AppOption(env, "outputMatched"))
    requires FirstByAttribute(env.adData, Dcid(u), EmployeeIDAttribute, j)
    ensures DcidMatchEmployeeIDAsWritten(env, u, s) ==
      StepResult(Throw(UsersNotDefined), s.(successMatchesSecondaryPS := s.successMatchesSecondaryPS + 1))
    ensures DcidMatchEmployeeIDStep(env, u, s).verdict == Claim
  {
    hide ParseIntVal, AttributeMatches, ToStr;
    FindByAttributeFirst(env.adData, Dcid(u), EmployeeIDAttribute, j);
  }

  /** Without `outputMatched` the code as written and the intended rule agree. */
  lemma EmployeeIDAgreesWithoutLogging(env: Env, u: Staff, s: Snap)
    requires !Truthy(AppOption(env, "outputMatched"))
    ensures DcidMatchEmployeeIDAsWritten(env, u, s) == DcidMatchEmployeeIDStep(env, u, s)
  {
    hide ParseIntVal, AttributeMatches, ToStr;
  }
}
