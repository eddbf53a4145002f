/** `dcidMatch` (src/compareRules/dcidMatch.js): a staff entry whose DCID is already stored
    in the configured Active Directory attribute is in sync. */
module DcidMatchRule {
  import opened Js
  import opened Validate
  import opened State
  import opened Helpers

  /** The line logged for a match when `outputMatched` is set. */
  function MatchedLine(u: Staff, r: AdRecord): string {
    "DCID Matched: " + ToStr(Dcid(u)) + " to " + Sam(r) + "; User OK!"
  }

  /** The rule as a step on the state. */
  function DcidMatchStep(env: Env, u: Staff, s: Snap): StepResult {
    match FindByAttribute(env.adData, Dcid(u), SyncAttribute(env))
    case None => StepResult(Pass, s)
    case Some(r) =>
      StepResult(Claim, s.(matchedDCID := s.matchedDCID + 1,
                           changeTable := LogIf(AppOption(env, "outputMatched"), s.changeTable, MatchedLine(u, r)),
                           foundSAMs := s.foundSAMs + [Sam(r)]))
  }

  method DcidMatch(user: Staff, st: RunState) returns (matched: bool)
    modifies st
    ensures StepResult(if matched then Claim else Pass, st.Snapshot()) ==
            DcidMatchStep(st.Inputs(), user, old(st.Snapshot()))
  {
    hide FindByAttribute, ParseIntVal, ToStr, MatchedLine;
    var extMatch := AdFindByAttribute(st.adData, Dcid(user), PropertyKey(Field(st.app, "attribute")));
    if extMatch.Some? {
      st.matchedDCID := st.matchedDCID + 1;
      if Truthy(Field(st.app, "outputMatched")) {
        st.changeTable := st.changeTable + [MatchedLine(user, extMatch.value)];
      }
      st.foundSAMs := st.foundSAMs + [Sam(extMatch.value)];
      return true;
    } else {
      return false;
    }
  }

  /** When record j is the first whose sync attribute parses to the entry's DCID, the rule
      claims the entry, counts the match, records j's account as found, logs the match
      only under `outputMatched`, and changes nothing else. */
  lemma DcidMatchClaimsFirstMatch(env: Env, u: Staff, s: Snap, j: int)
    requires FirstByAttribute(env.adData, Dcid(u), SyncAttribute(env), j)
    ensures DcidMatchStep(env, u, s).verdict == Claim
    ensures DcidMatchStep(env, u, s).snap.foundSAMs == s.foundSAMs + [Sam(env.adData[j])]
    ensures DcidMatchStep(env, u, s).snap.matchedDCID == s.matchedDCID + 1
    ensures Truthy(AppOption(env, "outputMatched")) ==>
      DcidMatchStep(env, u, s).snap.changeTable == s.changeTable + [MatchedLine(u, env.adData[j])]
    ensures !Truthy(AppOption(env, "outputMatched")) ==> DcidMatchStep(env, u, s).snap.changeTable == s.changeTable
    ensures DcidMatchStep(env, u, s).snap.(changeTable := s.changeTable, foundSAMs := s.foundSAMs,
                                            matchedDCID := s.matchedDCID) == s
  {
    hide ParseIntVal, AttributeMatches, ToStr;
    FindByAttributeFirst(env.adData, Dcid(u), SyncAttribute(env), j);
  }

  /** The rule passes, leaving the state alone, exactly when no record's sync attribute
      parses to the entry's DCID. */
  lemma DcidMatchPassIff(env: Env, u: Staff, s: Snap)
    ensures DcidMatchStep(env, u, s).verdict == Pass <==>
      forall j :: 0 <= j < |env.adData| ==> !AttributeMatches(env.adData[j], Dcid(u), SyncAttribute(env))
    ensures DcidMatchStep(env, u, s).verdict == Pass ==> DcidMatchStep(env, u, s).snap == s
  {
    hide ParseIntVal, AttributeMatches, ToStr;
    FindByAttributeNone(env.adData, Dcid(u), SyncAttribute(env));
  }

  /** A DCID written as a decimal string in the sync attribute is found, whichever
      record holds it first. */
  lemma {:induction false} StoredDcidIsMatched(env: Env, u: Staff, s: Snap, j: int)
    requires 0 <= j < |env.adData|
    requires Field(env.adData[j], SyncAttribute(env)) == Str(IntToString(Dcid(u).n))
    ensures DcidMatchStep(env, u, s).verdict == Claim
  {
    hide ParseIntVal, AttributeMatches, ToStr;
    DecimalAttributeMatches(env.adData[j], Dcid(u).n, SyncAttribute(env));
    FindByAttributeNone(env.adData, Dcid(u), SyncAttribute(env));
  }
}
