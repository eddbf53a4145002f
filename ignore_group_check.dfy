/** `ignoreGroupCheck` (src/compareRules/ignoreGroupCheck.js): an Active Directory account
    in the configured ignore group is left alone. */
module IgnoreGroupCheckRule {
  import opened Js
  import opened Validate
  import opened State

  /** `Array.isArray(MemberOf) && MemberOf.includes(group)`. */
  predicate InIgnoreGroup(env: Env, rec: AdRecord) {
    var memberOf := Field(rec, "MemberOf");
    memberOf.Arr? && exists i :: 0 <= i < |memberOf.items| && StrictEq(memberOf.items[i], AppOption(env, "group"))
  }

  function GroupLine(rec: AdRecord): string {
    "Ignore: Group Membership set on: " + Sam(rec)
  }

  function IgnoreGroupCheckStep(env: Env, rec: AdRecord, s: Snap): StepResult {
    if InIgnoreGroup(env, rec) then
      StepResult(Claim, s.(noSyncAD := s.noSyncAD + 1,
                           changeTable := LogIf(AppOption(env, "outputIgnored"), s.changeTable, GroupLine(rec))))
    else StepResult(Pass, s)
  }

  method IgnoreGroupCheck(user: AdRecord, st: RunState) returns (ignored: bool)
    modifies st
    ensures StepResult(if ignored then Claim else Pass, st.Snapshot()) ==
            IgnoreGroupCheckStep(st.Inputs(), user, old(st.Snapshot()))
  {
    var memberOf := Field(user, "MemberOf");
    if !memberOf.Arr? {
      return false;
    }
    var group := Field(st.app, "group");
    if exists i :: 0 <= i < |memberOf.items| && StrictEq(memberOf.items[i], group) {
      st.noSyncAD := st.noSyncAD + 1;
      if Truthy(Field(st.app, "outputIgnored")) {
        st.changeTable := st.changeTable + [GroupLine(user)];
      }
      return true;
    }
    return false;
  }

  /** With no `group` option the rule only fires on a `MemberOf` array that holds an
      `undefined` item; a list of group names never matches it. */
  lemma UnsetGroupMatchesNoNames(env: Env, rec: AdRecord, s: Snap)
    requires AppOption(env, "group") == Absent
    requires Field(rec, "MemberOf").Arr?
    requires forall i :: 0 <= i < |Field(rec, "MemberOf").items| ==> Field(rec, "MemberOf").items[i].Str?
    ensures IgnoreGroupCheckStep(env, rec, s) == StepResult(Pass, s)
  {
  }

  /** A member of the configured group is counted once and, under `outputIgnored`, logged. */
  lemma GroupMemberIgnored(env: Env, rec: AdRecord, s: Snap, i: int)
    requires Field(rec, "MemberOf").Arr? && 0 <= i < |Field(rec, "MemberOf").items|
    requires AppOption(env, "group").Str? && Field(rec, "MemberOf").items[i] == AppOption(env, "group")
    ensures IgnoreGroupCheckStep(env, rec, s).verdict == Claim
    ensures IgnoreGroupCheckStep(env, rec, s).snap.noSyncAD == s.noSyncAD + 1
    ensures IgnoreGroupCheckStep(env, rec, s).snap.changeTable ==
      (if Truthy(AppOption(env, "outputIgnored")) then s.changeTable + [GroupLine(rec)] else s.changeTable)
  {
    assert StrictEq(Field(rec, "MemberOf").items[i], AppOption(env, "group"));
  }

  /** Conversely, an account is claimed only when its `MemberOf` is an array holding a
      value equal to the group; an account without a `MemberOf` array passes and leaves
      the state alone. */
  lemma IgnoredOnlyInGroup(env: Env, rec: AdRecord, s: Snap)
    ensures IgnoreGroupCheckStep(env, rec, s).verdict == Claim ==>
      Field(rec, "MemberOf").Arr? &&
      exists i :: 0 <= i < |Field(rec, "MemberOf").items| && StrictEq(Field(rec, "MemberOf").items[i], AppOption(env, "group"))
    ensures !Field(rec, "MemberOf").Arr? ==> IgnoreGroupCheckStep(env, rec, s) == StepResult(Pass, s)
  {
  }
}
