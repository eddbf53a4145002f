/** `noSync` (src/compareRules/noSyncCheck.js): an Active Directory account whose sync
    attribute holds the no-sync marker is left alone. */
module NoSyncRule {
  import opened Js
  import opened Validate
  import opened State

  const NoSyncMarker: string := "ps2ad:no-sync"

  function NoSyncLine(rec: AdRecord): string {
    "Ignore: No Sync set on: " + Sam(rec)
  }

  /** What the rule does once its guard holds: count, and log under `outputIgnored`. */
  function Ignored(env: Env, rec: AdRecord, s: Snap): Snap {
    s.(noSync := s.noSync + 1,
       changeTable := LogIf(AppOption(env, "outputIgnored"), s.changeTable, NoSyncLine(rec)))
  }

  /** The guard as written: its type test reads the property named by the misspelt option
      `atribute` (the key "undefined" when that option is unset), its comparison the
      property named by `attribute`. */
  predicate NoSyncGuardAsWritten(env: Env, rec: AdRecord) {
    Field(rec, PropertyKey(AppOption(env, "atribute"))).Str? &&
    StrictEq(Field(rec, SyncAttribute(env)), Str(NoSyncMarker))
  }

  /** The guard as intended: the sync attribute is the string marker. */
  predicate NoSyncGuard(env: Env, rec: AdRecord) {
    Field(rec, SyncAttribute(env)) == Str(NoSyncMarker)
  }

  function NoSyncAsWritten(env: Env, rec: AdRecord, s: Snap): StepResult {
    if NoSyncGuardAsWritten(env, rec) then StepResult(Claim, Ignored(env, rec, s)) else StepResult(Pass, s)
  }

  function NoSyncStep(env: Env, rec: AdRecord, s: Snap): StepResult {
    if NoSyncGuard(env, rec) then StepResult(Claim, Ignored(env, rec, s)) else StepResult(Pass, s)
  }

  method NoSync(user: AdRecord, st: RunState) returns (ignored: bool)
    modifies st
    ensures StepResult(if ignored then Claim else Pass, st.Snapshot()) ==
            NoSyncStep(st.Inputs(), user, old(st.Snapshot()))
  {
    var value := Field(user, PropertyKey(Field(st.app, "attribute")));
    if value.Str? && StrictEq(value, Str(NoSyncMarker)) {
      st.noSync := st.noSync + 1;
      if Truthy(Field(st.app, "outputIgnored")) {
        st.changeTable := st.changeTable + [NoSyncLine(user)];
      }
      return true;
    } else {
      return false;
    }
  }

  /** The rule fires exactly on the marker; it then counts the account and logs it only
      under `outputIgnored`; otherwise it leaves the state alone. */
  lemma NoSyncFiresOnMarker(env: Env, rec: AdRecord, s: Snap)
    ensures NoSyncStep(env, rec, s).verdict == Claim <==> Field(rec, SyncAttribute(env)) == Str(NoSyncMarker)
    ensures NoSyncStep(env, rec, s).verdict != Claim ==> NoSyncStep(env, rec, s) == StepResult(Pass, s)
    ensures NoSyncStep(env, rec, s).verdict == Claim ==>
      NoSyncStep(env, rec, s).snap.noSync == s.noSync + 1 &&
      NoSyncStep(env, rec, s).snap.(noSync := s.noSync, changeTable := s.changeTable) == s &&
      (Truthy(AppOption(env, "outputIgnored")) <==> NoSyncStep(env, rec, s).snap.changeTable == s.changeTable + [NoSyncLine(rec)])
  {
    var line := NoSyncLine(rec);
    assert s.changeTable != s.changeTable + [line] by {
      assert |s.changeTable + [line]| == |s.changeTable| + 1;
    }
  }

  /** As written, whenever the misspelt option is unset (the configuration loader never
      sets it) and the record has no string property named "undefined", the rule never
      fires, even on an account that carries the marker. */
  lemma NoSyncNeverFiresAsWritten(env: Env, rec: AdRecord, s: Snap)
    requires AppOption(env, "atribute") == Absent
    requires !Field(rec, "undefined").Str?
    ensures NoSyncAsWritten(env, rec, s) == StepResult(Pass, s)
  {
    assert PropertyKey(Absent) == "undefined";
  }

  /** A concrete account that carries the marker: ignored by the intended rule, passed on
      by the code as written. */
  lemma MarkedAccountMissedAsWritten(s: Snap)
    ensures var env := Env([], [], map["attribute" := Str("extensionAttribute1")], {});
            var rec: AdRecord := map["GivenName" := Str("The"), "Surname" := Str("Developer"), "Enabled" := Bool(true),
                                     "SamAccountName" := Str("thDeveloper"), "extensionAttribute1" := Str(NoSyncMarker)];
            NoSyncAsWritten(env, rec, s).verdict == Pass && NoSyncStep(env, rec, s).verdict == Claim
  {
    var env := Env([], [], map["attribute" := Str("extensionAttribute1")], {});
    var rec: AdRecord := map["GivenName" := Str("The"), "Surname" := Str("Developer"), "Enabled" := Bool(true),
                             "SamAccountName" := Str("thDeveloper"), "extensionAttribute1" := Str(NoSyncMarker)];
    assert SyncAttribute(env) == "extensionAttribute1";
    NoSyncNeverFiresAsWritten(env, rec, s);
  }
}
