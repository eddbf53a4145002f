/** The rule registry of src/compareRules/rules.js and the contract it documents: rules run
    one after another on a record and the first to return true ends that record's
    processing. The driver that chains the rules is not part of this model; the runner
    here takes the rule order as a parameter, and the facts proved hold for any order.
    The steps dispatched to are the corrected `dcidMatchEmployeeID`, `nameMatchCheck` and
    `noSync` (see the Findings of the README), so every fact here is about the repaired
    rules; the rules as written are modelled beside them in their own modules. */
module Pipeline {
  import opened Js
  import opened Validate
  import opened State
  import opened Helpers
  import ExclusionCheckRule
  import ServiceAccountCheckRule
  import DcidMatchRule
  import DcidMatchEmployeeIDRule
  import NameMatchCheckRule
  import NoSyncRule
  import DisabledCheckRule
  import FoundSAMsCheckRule
  import IgnoreGroupCheckRule

  /** The per-entry PowerSchool rules (the one-time duplicate pass runs before them). */
  datatype PsRule = ExclusionCheck | ServiceAccountCheck | DcidMatch | DcidMatchEmployeeID | NameMatchCheck

  /** The per-account Active Directory rules. */
  datatype AdRule = NoSync | DisabledCheck | FoundSAMsCheck | IgnoreGroupCheck

  /** The order the registry lists the PowerSchool rules in. */
  const PsRegistryOrder: seq<PsRule> :=
    [ExclusionCheck, ServiceAccountCheck, DcidMatch, DcidMatchEmployeeID, NameMatchCheck]

  /** The order the registry lists the Active Directory rules in. */
  const AdRegistryOrder: seq<AdRule> := [NoSync, DisabledCheck, FoundSAMsCheck, IgnoreGroupCheck]

  /** The order in which compare.js applies the same tests: found accounts before disabled ones. */
  const AdCompareOrder: seq<AdRule> := [NoSync, FoundSAMsCheck, DisabledCheck, IgnoreGroupCheck]

  function PsStep(rule: PsRule, env: Env, u: Staff, s: Snap): StepResult {
    match rule
    case ExclusionCheck => ExclusionCheckRule.ExclusionCheckStep(u, s)
    case ServiceAccountCheck => ServiceAccountCheckRule.ServiceAccountCheckStep(u, s)
    case DcidMatch => DcidMatchRule.DcidMatchStep(env, u, s)
    case DcidMatchEmployeeID => DcidMatchEmployeeIDRule.DcidMatchEmployeeIDStep(env, u, s)
    case NameMatchCheck => NameMatchCheckRule.NameMatchCheckStep(env, u, s)
  }

  function AdStep(rule: AdRule, env: Env, rec: AdRecord, s: Snap): StepResult {
    match rule
    case NoSync => NoSyncRule.NoSyncStep(env, rec, s)
    case DisabledCheck => DisabledCheckRule.DisabledCheckStep(rec, s)
    case FoundSAMsCheck => FoundSAMsCheckRule.FoundSAMsCheckStep(rec, s)
    case IgnoreGroupCheck => IgnoreGroupCheckRule.IgnoreGroupCheckStep(env, rec, s)
  }

  /** First-true-wins: run the rules in order on one record; a rule that passes hands its
      state to the next, the first that claims the record or throws ends the run. */
  function Run<R, X>(order: seq<R>, step: (R, Env, X, Snap) -> StepResult, env: Env, x: X, s: Snap): StepResult
    decreases |order|
  {
    if |order| == 0 then StepResult(Pass, s)
    else
      var r := step(order[0], env, x, s);
      if r.verdict.Pass? then Run(order[1..], step, env, x, r.snap) else r
  }

  // ---------------------------------------------------------------------------
  // The runner as the driver would call it
  // ---------------------------------------------------------------------------

  method RunPsRule(rule: PsRule, user: Staff, st: RunState) returns (v: Verdict)
    modifies st, st.directory
    ensures StepResult(v, st.Snapshot()) == PsStep(rule, st.Inputs(), user, old(st.Snapshot()))
  {
    match rule
    case ExclusionCheck =>
      var excluded := ExclusionCheckRule.ExclusionCheck(user, st);
      v := if excluded then Claim else Pass;
    case ServiceAccountCheck =>
      v := if ServiceAccountCheckRule.ServiceAccountCheck(user) then Claim else Pass;
    case DcidMatch =>
      var matched := DcidMatchRule.DcidMatch(user, st);
      v := if matched then Claim else Pass;
    case DcidMatchEmployeeID =>
      var matched := DcidMatchEmployeeIDRule.DcidMatchEmployeeID(user, st);
      v := if matched then Claim else Pass;
    case NameMatchCheck =>
      v := NameMatchCheckRule.NameMatchCheck(user, st);
  }

  method RunAdRule(rule: AdRule, user: AdRecord, st: RunState) returns (v: Verdict)
    modifies st
    ensures StepResult(v, st.Snapshot()) == AdStep(rule, st.Inputs(), user, old(st.Snapshot()))
  {
    match rule
    case NoSync =>
      var ignored := NoSyncRule.NoSync(user, st);
      v := if ignored then Claim else Pass;
    case DisabledCheck =>
      var disabled := DisabledCheckRule.DisabledCheck(user, st);
      v := if disabled then Claim else Pass;
    case FoundSAMsCheck =>
      v := if FoundSAMsCheckRule.FoundSAMsCheck(user, st.foundSAMs) then Claim else Pass;
    case IgnoreGroupCheck =>
      var ignored := IgnoreGroupCheckRule.IgnoreGroupCheck(user, st);
      v := if ignored then Claim else Pass;
  }

  lemma RunUnfold<R, X>(order: seq<R>, i: nat, step: (R, Env, X, Snap) -> StepResult, env: Env, x: X, s: Snap)
    requires i < |order|
    ensures Run(order[i..], step, env, x, s) ==
      (var r := step(order[i], env, x, s); if r.verdict.Pass? then Run(order[i + 1..], step, env, x, r.snap) else r)
  {
    assert order[i..][0] == order[i];
    assert order[i..][1..] == order[i + 1..];
  }

  /** Runs the PowerSchool rules in the given order on one staff entry. */
  method RunPsRules(order: seq<PsRule>, user: Staff, st: RunState) returns (v: Verdict)
    modifies st, st.directory
    ensures StepResult(v, st.Snapshot()) == Run(order, PsStep, st.Inputs(), user, old(st.Snapshot()))
  {
    hide PsStep;
    var i := 0;
    while i < |order|
      invariant 0 <= i <= |order|
      invariant Run(order, PsStep, st.Inputs(), user, old(st.Snapshot())) ==
                Run(order[i..], PsStep, st.Inputs(), user, st.Snapshot())
    {
      RunUnfold(order, i, PsStep, st.Inputs(), user, st.Snapshot());
      v := RunPsRule(order[i], user, st);
      if !v.Pass? {
        return;
      }
      i := i + 1;
    }
    return Pass;
  }

  /** Runs the Active Directory rules in the given order on one account. */
  method RunAdRules(order: seq<AdRule>, user: AdRecord, st: RunState) returns (v: Verdict)
    modifies st
    ensures StepResult(v, st.Snapshot()) == Run(order, AdStep, st.Inputs(), user, old(st.Snapshot()))
  {
    hide AdStep;
    var i := 0;
    while i < |order|
      invariant 0 <= i <= |order|
      invariant Run(order, AdStep, st.Inputs(), user, old(st.Snapshot())) ==
                Run(order[i..], AdStep, st.Inputs(), user, st.Snapshot())
    {
      RunUnfold(order, i, AdStep, st.Inputs(), user, st.Snapshot());
      v := RunAdRule(order[i], user, st);
      if !v.Pass? {
        return;
      }
      i := i + 1;
    }
    return Pass;
  }

  // ---------------------------------------------------------------------------
  // The contract, for any rules and any order
  // ---------------------------------------------------------------------------

  /** A rule that claims the record or throws ends the run: rules after it are not run. */
  lemma {:induction false} ClaimEndsRun<R, X>(order: seq<R>, more: seq<R>, step: (R, Env, X, Snap) -> StepResult,
                                              env: Env, x: X, s: Snap)
    requires !Run(order, step, env, x, s).verdict.Pass?
    ensures Run(order + more, step, env, x, s) == Run(order, step, env, x, s)
    decreases |order|
  {
    assert |order| > 0;
    assert (order + more)[0] == order[0];
    assert (order + more)[1..] == order[1..] + more;
    var r := step(order[0], env, x, s);
    if r.verdict.Pass? {
      ClaimEndsRun(order[1..], more, step, env, x, r.snap);
    }
  }

  /** When every rule of a prefix passes, the rest runs from the state the prefix left. */
  lemma {:induction false} PassContinues<R, X>(order: seq<R>, more: seq<R>, step: (R, Env, X, Snap) -> StepResult,
                                               env: Env, x: X, s: Snap)
    requires Run(order, step, env, x, s).verdict.Pass?
    ensures Run(order + more, step, env, x, s) == Run(more, step, env, x, Run(order, step, env, x, s).snap)
    decreases |order|
  {
    if |order| == 0 {
      assert order + more == more;
    } else {
      assert (order + more)[0] == order[0];
      assert (order + more)[1..] == order[1..] + more;
      PassContinues(order[1..], more, step, env, x, step(order[0], env, x, s).snap);
    }
  }

  /** Every rule leaves the state alone when it passes (true of all nine rules). */
  ghost predicate PassKeepsState<R(!new), X(!new)>(step: (R, Env, X, Snap) -> StepResult) {
    forall rule, env, x, s :: step(rule, env, x, s).verdict.Pass? ==> step(rule, env, x, s).snap == s
  }

  /** A record falls through to the driver exactly when every rule passes on it, and it
      then does so with the state unchanged. */
  lemma {:induction false} FallThroughIff<R(!new), X(!new)>(order: seq<R>, step: (R, Env, X, Snap) -> StepResult, env: Env, x: X, s: Snap)
    requires PassKeepsState(step)
    ensures Run(order, step, env, x, s).verdict.Pass? <==>
      forall i :: 0 <= i < |order| ==> step(order[i], env, x, s).verdict.Pass?
    ensures Run(order, step, env, x, s).verdict.Pass? ==> Run(order, step, env, x, s).snap == s
    decreases |order|
  {
    if |order| > 0 {
      FallThroughIff(order[1..], step, env, x, s);
      forall i | 1 <= i < |order| ensures order[i] == order[1..][i - 1] { }
    }
  }

  /** The run's outcome is that of the first rule, in the given order, that does not pass. */
  lemma {:induction false} FirstNonPassDecides<R(!new), X(!new)>(order: seq<R>, k: int, step: (R, Env, X, Snap) -> StepResult,
                                                     env: Env, x: X, s: Snap)
    requires PassKeepsState(step)
    requires 0 <= k < |order| && !step(order[k], env, x, s).verdict.Pass?
    requires forall i :: 0 <= i < k ==> step(order[i], env, x, s).verdict.Pass?
    ensures Run(order, step, env, x, s) == step(order[k], env, x, s)
    decreases k
  {
    if k > 0 {
      forall i | 0 <= i < k - 1 ensures step(order[1..][i], env, x, s).verdict.Pass? {
        assert order[1..][i] == order[i + 1];
      }
      FirstNonPassDecides(order[1..], k - 1, step, env, x, s);
    }
  }

  /** Whether a record is handled at all does not depend on the order of the rules, only
      on which rules run. */
  lemma HandledRegardlessOfOrder<R(!new), X(!new)>(o1: seq<R>, o2: seq<R>, step: (R, Env, X, Snap) -> StepResult, env: Env, x: X, s: Snap)
    requires PassKeepsState(step)
    requires forall rule :: rule in o1 <==> rule in o2
    ensures Run(o1, step, env, x, s).verdict.Pass? <==> Run(o2, step, env, x, s).verdict.Pass?
  {
    FallThroughIff(o1, step, env, x, s);
    FallThroughIff(o2, step, env, x, s);
    if !Run(o1, step, env, x, s).verdict.Pass? {
      var i :| 0 <= i < |o1| && !step(o1[i], env, x, s).verdict.Pass?;
      assert o1[i] in o2;
    }
    if !Run(o2, step, env, x, s).verdict.Pass? {
      var i :| 0 <= i < |o2| && !step(o2[i], env, x, s).verdict.Pass?;
      assert o2[i] in o1;
    }
  }

  /** t is s with entries only appended to the change table, the found accounts and the
      directory writes, no counter decreased, and the exclude list untouched. */
  predicate Extends(s: Snap, t: Snap) {
    s.changeTable <= t.changeTable && s.foundSAMs <= t.foundSAMs && s.writes <= t.writes &&
    t.excludeList == s.excludeList &&
    s.matchedDCID <= t.matchedDCID && s.successMatchesSecondaryPS <= t.successMatchesSecondaryPS &&
    s.nameMatchPS <= t.nameMatchPS && s.addedDCIDPS <= t.addedDCIDPS &&
    s.noSync <= t.noSync && s.noSyncAD <= t.noSyncAD && s.disabledUserAD <= t.disabledUserAD
  }

  ghost predicate StepsExtend<R(!new), X(!new)>(step: (R, Env, X, Snap) -> StepResult) {
    forall rule, env, x, s :: Extends(s, step(rule, env, x, s).snap)
  }

  lemma ExtendsTransitive(a: Snap, b: Snap, c: Snap)
    requires Extends(a, b) && Extends(b, c)
    ensures Extends(a, c)
  {
    assert a.changeTable == b.changeTable[..|a.changeTable|] && b.changeTable == c.changeTable[..|b.changeTable|];
    assert a.foundSAMs == b.foundSAMs[..|a.foundSAMs|] && b.foundSAMs == c.foundSAMs[..|b.foundSAMs|];
    assert a.writes == b.writes[..|a.writes|] && b.writes == c.writes[..|b.writes|];
  }

  /** Rules only append to the shared log and lists: a run keeps every earlier entry. */
  lemma {:induction false} RunExtends<R(!new), X(!new)>(order: seq<R>, step: (R, Env, X, Snap) -> StepResult, env: Env, x: X, s: Snap)
    requires StepsExtend(step)
    ensures Extends(s, Run(order, step, env, x, s).snap)
    decreases |order|
  {
    if |order| > 0 {
      var r := step(order[0], env, x, s);
      if r.verdict.Pass? {
        RunExtends(order[1..], step, env, x, r.snap);
        ExtendsTransitive(s, r.snap, Run(order[1..], step, env, x, r.snap).snap);
      }
    }
  }

  // ---------------------------------------------------------------------------
  // The nine rules meet the contract
  // ---------------------------------------------------------------------------

  lemma PsRulesPassKeepState()
    ensures PassKeepsState(PsStep)
  {
    forall rule, env, u, s | PsStep(rule, env, u, s).verdict.Pass? ensures PsStep(rule, env, u, s).snap == s {
      match rule
      case DcidMatch => DcidMatchRule.DcidMatchPassIff(env, u, s);
      case DcidMatchEmployeeID => DcidMatchEmployeeIDRule.EmployeeIDPassIff(env, u, s);
      case NameMatchCheck => NameMatchCheckRule.NameMatchPassIff(env, u, s);
      case _ =>
    }
  }

  lemma AdRulesPassKeepState()
    ensures PassKeepsState(AdStep)
  {
    forall rule, env, rec, s | AdStep(rule, env, rec, s).verdict.Pass? ensures AdStep(rule, env, rec, s).snap == s {
      match rule
      case NoSync => NoSyncRule.NoSyncFiresOnMarker(env, rec, s);
      case _ =>
    }
  }

  lemma PsRulesExtend()
    ensures StepsExtend(PsStep)
  {
    forall rule, env, u, s ensures Extends(s, PsStep(rule, env, u, s).snap) {
      match rule
      case DcidMatch => DcidMatchExtends(env, u, s);
      case DcidMatchEmployeeID => EmployeeIDExtends(env, u, s);
      case NameMatchCheck => NameMatchExtends(env, u, s);
      case _ =>
    }
  }

  lemma DcidMatchExtends(env: Env, u: Staff, s: Snap)
    ensures Extends(s, DcidMatchRule.DcidMatchStep(env, u, s).snap)
  {
    hide ParseIntVal, AttributeMatches, ToStr, FindByAttribute;
  }

  lemma EmployeeIDExtends(env: Env, u: Staff, s: Snap)
    ensures Extends(s, DcidMatchEmployeeIDRule.DcidMatchEmployeeIDStep(env, u, s).snap)
  {
    hide ParseIntVal, AttributeMatches, ToStr, FindByAttribute;
  }

  lemma NameMatchExtends(env: Env, u: Staff, s: Snap)
    ensures Extends(s, NameMatchCheckRule.NameMatchCheckStep(env, u, s).snap)
  {
    hide Lower, NameMatches, ToStr, FindByFirstLast;
  }

  lemma AdRulesExtend()
    ensures StepsExtend(AdStep)
  {
  }

  /** The Active Directory rules never throw. */
  lemma {:induction false} AdRunNeverThrows(order: seq<AdRule>, env: Env, rec: AdRecord, s: Snap)
    ensures !Run(order, AdStep, env, rec, s).verdict.Throw?
    decreases |order|
  {
    if |order| > 0 {
      AdRunNeverThrows(order[1..], env, rec, AdStep(order[0], env, rec, s).snap);
    }
  }

  // ---------------------------------------------------------------------------
  // Consequences for the reconciliation
  // ---------------------------------------------------------------------------

  /** An account claimed during the PowerSchool pass never falls through the Active
      Directory rules as unmatched, whatever their order, provided the found-accounts
      rule is among them. */
  lemma ClaimedAccountNeverUnmatched(order: seq<AdRule>, env: Env, rec: AdRecord, s: Snap)
    requires FoundSAMsCheck in order
    requires Sam(rec) in s.foundSAMs
    ensures Run(order, AdStep, env, rec, s).verdict == Claim
  {
    AdRulesPassKeepState();
    FallThroughIff(order, AdStep, env, rec, s);
    AdRunNeverThrows(order, env, rec, s);
    var i :| 0 <= i < |order| && order[i] == FoundSAMsCheck;
    assert !AdStep(order[i], env, rec, s).verdict.Pass?;
  }

  /** The registry order and the order of compare.js handle the same accounts. */
  lemma AdOrdersHandleSameAccounts(env: Env, rec: AdRecord, s: Snap)
    ensures Run(AdRegistryOrder, AdStep, env, rec, s).verdict == Run(AdCompareOrder, AdStep, env, rec, s).verdict
  {
    AdRulesPassKeepState();
    HandledRegardlessOfOrder(AdRegistryOrder, AdCompareOrder, AdStep, env, rec, s);
    AdRunNeverThrows(AdRegistryOrder, env, rec, s);
    AdRunNeverThrows(AdCompareOrder, env, rec, s);
  }

  /** ... but not with the same counts: a disabled account that was already claimed is
      counted as disabled in registry order and not in the order of compare.js. */
  lemma AdOrderDecidesDisabledCount(env: Env, rec: AdRecord, s: Snap)
    requires !NoSyncRule.NoSyncGuard(env, rec)
    requires Field(rec, "Enabled") == Bool(false) && Sam(rec) in s.foundSAMs
    ensures Run(AdRegistryOrder, AdStep, env, rec, s).snap.disabledUserAD == s.disabledUserAD + 1
    ensures Run(AdCompareOrder, AdStep, env, rec, s).snap.disabledUserAD == s.disabledUserAD
  {
    AdRulesPassKeepState();
    FirstNonPassDecides(AdRegistryOrder, 1, AdStep, env, rec, s);
    FirstNonPassDecides(AdCompareOrder, 1, AdStep, env, rec, s);
  }

  /** Every account name recorded during a run is appended after the ones already there,
      and nothing is ever taken off the change table or the exclude list changed. */
  lemma RunsOnlyAppend(psOrder: seq<PsRule>, adOrder: seq<AdRule>, env: Env, u: Staff, rec: AdRecord, s: Snap)
    ensures Extends(s, Run(psOrder, PsStep, env, u, s).snap)
    ensures Extends(s, Run(adOrder, AdStep, env, rec, s).snap)
  {
    PsRulesExtend();
    AdRulesExtend();
    RunExtends(psOrder, PsStep, env, u, s);
    RunExtends(adOrder, AdStep, env, rec, s);
  }

  /** In registry order, an entry that is excluded or is a service account is never
      written to the directory and changes nothing. */
  lemma SkippedEntriesChangeNothing(env: Env, u: Staff, s: Snap)
    requires ExclusionCheckRule.Excluded(u, s.excludeList) || ServiceAccountCheckRule.ServiceAccountCheck(u)
    ensures Run(PsRegistryOrder, PsStep, env, u, s) == StepResult(Claim, s)
  {
    PsRulesPassKeepState();
    if ExclusionCheckRule.Excluded(u, s.excludeList) {
      FirstNonPassDecides(PsRegistryOrder, 0, PsStep, env, u, s);
    } else {
      FirstNonPassDecides(PsRegistryOrder, 1, PsStep, env, u, s);
    }
  }

  /** In registry order the directory is written only for an entry whose DCID no account
      holds yet, in either the sync attribute or (when checked) `EmployeeID`. */
  lemma WriteOnlyWithoutDcidMatch(env: Env, u: Staff, s: Snap)
    requires Run(PsRegistryOrder, PsStep, env, u, s).snap.writes != s.writes
    ensures forall j :: 0 <= j < |env.adData| ==> !AttributeMatches(env.adData[j], Dcid(u), SyncAttribute(env))
    ensures Truthy(AppOption(env, "checkEmployeeID")) ==>
      forall j :: 0 <= j < |env.adData| ==> !AttributeMatches(env.adData[j], Dcid(u), DcidMatchEmployeeIDRule.EmployeeIDAttribute)
    ensures !ExclusionCheckRule.Excluded(u, s.excludeList) && !ServiceAccountCheckRule.ServiceAccountCheck(u)
  {
    PsRulesPassKeepState();
    FallThroughIff(PsRegistryOrder[..4], PsStep, env, u, s);
    assert PsRegistryOrder == PsRegistryOrder[..4] + [NameMatchCheck];
    if !Run(PsRegistryOrder[..4], PsStep, env, u, s).verdict.Pass? {
      assert false;
    }
    assert PsStep(DcidMatch, env, u, s).verdict.Pass?;
    assert PsStep(DcidMatchEmployeeID, env, u, s).verdict.Pass?;
    DcidMatchRule.DcidMatchPassIff(env, u, s);
    DcidMatchEmployeeIDRule.EmployeeIDPassIff(env, u, s);
  }
}
