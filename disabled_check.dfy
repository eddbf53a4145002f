/** `disabledCheck` (src/compareRules/disabledCheck.js): a disabled Active Directory
    account is counted and left alone. */
module DisabledCheckRule {
  import opened Js
  import opened Validate
  import opened State

  function DisabledCheckStep(rec: AdRecord, s: Snap): StepResult {
    if !Truthy(Field(rec, "Enabled")) then StepResult(Claim, s.(disabledUserAD := s.disabledUserAD + 1))
    else StepResult(Pass, s)
  }

  /** Returns `true` for a disabled account and `undefined` (treated as false) otherwise. */
  method DisabledCheck(user: AdRecord, st: RunState) returns (disabled: bool)
    modifies st
    ensures StepResult(if disabled then Claim else Pass, st.Snapshot()) ==
            DisabledCheckStep(user, old(st.Snapshot()))
  {
    if !Truthy(Field(user, "Enabled")) {
      st.disabledUserAD := st.disabledUserAD + 1;
      return true;
    }
    return false;
  }

  /** `Enabled` is a boolean on every valid record, so the rule fires exactly on
      `Enabled: false`, counting one disabled account and changing nothing else. */
  lemma DisabledIffNotEnabled(rec: AdRecord, s: Snap)
    ensures DisabledCheckStep(rec, s).verdict == Claim <==> Field(rec, "Enabled") == Bool(false)
    ensures DisabledCheckStep(rec, s).verdict == Claim ==>
      DisabledCheckStep(rec, s).snap == s.(disabledUserAD := s.disabledUserAD + 1)
    ensures DisabledCheckStep(rec, s).verdict != Claim ==> DisabledCheckStep(rec, s) == StepResult(Pass, s)
  {
    assert Field(rec, "Enabled").Bool?;
  }
}
