/** `compare` (src/integrations/compare.js): the two-pass reconciliation that returns the
    change table. The PowerSchool pass gives every staff entry exactly one line and
    collects the accounts it matched; the Active Directory pass then reports the accounts
    nobody matched. */
module Compare {
  import opened Js
  import opened Validate
  import opened State
  import opened Helpers
  import opened DuplicatePSUserCheckRule
  import DcidMatchRule
  import NameMatchCheckRule
  import NoSyncRule
  import Pipeline

  /** What the PowerSchool pass decides for one staff entry: its line, and the account it
      claims, if any. */
  datatype Outcome = Outcome(line: string, claimed: Option<string>)

  const PsNotFoundPrefix: string := "Not Found: (PowerSchool -> Active Directory) "
  const AdNotFoundPrefix: string := "Not Found: (Active Directory -> PowerSchool) "

  function PsNotFoundLine(u: Staff): string {
    PsNotFoundPrefix + FirstName(u) + ", " + LastName(u) + "; DCID: " + ToStr(Dcid(u)) +
    "; Teacher Number: " + ToStr(LocalId(u))
  }

  function AdNotFoundLine(rec: AdRecord): string {
    AdNotFoundPrefix + GivenName(rec) + ", " + Surname(rec) + "; " + Sam(rec)
  }

  /** One staff entry: an account whose sync attribute is `===` the DCID, else the first
      account with the same name, else not found. */
  function PsOutcome(ad: seq<AdRecord>, key: string, u: Staff): Outcome {
    match FindByStrictAttribute(ad, Dcid(u), key)
    case Some(r) => Outcome(DcidMatchRule.MatchedLine(u, r), Some(Sam(r)))
    case None =>
      match FindByFirstLast(ad, FirstName(u), LastName(u))
      case Some(r) => Outcome(NameMatchCheckRule.AddLine(u, r), Some(Sam(r)))
      case None => Outcome(PsNotFoundLine(u), None)
  }

  /** The lines of the PowerSchool pass over the entries us, in order. */
  function PsEntries(ad: seq<AdRecord>, key: string, us: seq<Staff>): seq<string> {
    if |us| == 0 then [] else PsEntries(ad, key, us[..|us| - 1]) + [PsOutcome(ad, key, us[|us| - 1]).line]
  }

  /** The accounts the PowerSchool pass claims over the entries us, in order. */
  function PsFound(ad: seq<AdRecord>, key: string, us: seq<Staff>): seq<string> {
    if |us| == 0 then []
    else
      var o := PsOutcome(ad, key, us[|us| - 1]);
      PsFound(ad, key, us[..|us| - 1]) + (if o.claimed.Some? then [o.claimed.value] else [])
  }

  /** The string marker in the sync attribute. */
  predicate MarkedNoSync(rec: AdRecord, key: string) {
    Field(rec, key) == Str(NoSyncRule.NoSyncMarker)
  }

  /** One account of the Active Directory pass: the marker is reported first; a claimed or
      disabled account gives nothing; any other is reported as not found. */
  function AdEntry(rec: AdRecord, found: seq<string>, key: string): seq<string> {
    if MarkedNoSync(rec, key) then [NoSyncRule.NoSyncLine(rec)]
    else if Sam(rec) in found then []
    else if !Truthy(Field(rec, "Enabled")) then []
    else [AdNotFoundLine(rec)]
  }

  function AdEntries(recs: seq<AdRecord>, found: seq<string>, key: string): seq<string> {
    if |recs| == 0 then [] else AdEntries(recs[..|recs| - 1], found, key) + AdEntry(recs[|recs| - 1], found, key)
  }

  /** The property name `config.app.attribute` denotes. */
  function SyncKey(app: Record): string {
    PropertyKey(Field(app, "attribute"))
  }

  /** The whole table: every PowerSchool line, then every Active Directory line. */
  function CompareTable(ps: seq<seq<Staff>>, ad: seq<AdRecord>, app: Record): seq<string> {
    var us := Flatten(ps);
    PsEntries(ad, SyncKey(app), us) + AdEntries(ad, PsFound(ad, SyncKey(app), us), SyncKey(app))
  }

  lemma PsStepLemma(ad: seq<AdRecord>, key: string, us: seq<Staff>, u: Staff)
    ensures PsEntries(ad, key, us + [u]) == PsEntries(ad, key, us) + [PsOutcome(ad, key, u).line]
    ensures PsFound(ad, key, us + [u]) == PsFound(ad, key, us) +
      (if PsOutcome(ad, key, u).claimed.Some? then [PsOutcome(ad, key, u).claimed.value] else [])
  {
    assert (us + [u])[..|us|] == us;
  }

  lemma AdStepLemma(recs: seq<AdRecord>, rec: AdRecord, found: seq<string>, key: string)
    ensures AdEntries(recs + [rec], found, key) == AdEntries(recs, found, key) + AdEntry(rec, found, key)
  {
    assert (recs + [rec])[..|recs|] == recs;
  }

  lemma NothingYet(ad: seq<AdRecord>, key: string, found: seq<string>)
    ensures PsEntries(ad, key, []) == [] && PsFound(ad, key, []) == [] && AdEntries([], found, key) == []
  {
  }

  /** `compare`: the staff entries school by school, then the accounts in order. */
  method Compare(psData: seq<seq<Staff>>, adData: seq<AdRecord>, app: Record) returns (changeTable: seq<string>)
    ensures changeTable == CompareTable(psData, adData, app)
  {
    hide PsEntries, PsFound, AdEntries, Flatten, FindByStrictAttribute, FindByFirstLast;
    hide ToStr, Lower, DcidMatchRule.MatchedLine, NameMatchCheckRule.AddLine, NoSyncRule.NoSyncLine, PsNotFoundLine, AdNotFoundLine;
    hide Sam, FirstName, LastName, Dcid, GivenName, Surname, Truthy;
    var key := PropertyKey(Field(app, "attribute"));
    changeTable := [];
    var foundSAMs := [];
    NothingYet(adData, key, []);
    var schoolIdx := 0;
    while schoolIdx < |psData|
      invariant schoolIdx <= |psData|
      invariant changeTable == PsEntries(adData, key, Flatten(psData[..schoolIdx]))
      invariant foundSAMs == PsFound(adData, key, Flatten(psData[..schoolIdx]))
    {
      var school := psData[schoolIdx];
      ghost var done := Flatten(psData[..schoolIdx]);
      var usrIdx := 0;
      assert done + school[..usrIdx] == done;
      while usrIdx < |school|
        invariant usrIdx <= |school|
        invariant changeTable == PsEntries(adData, key, done + school[..usrIdx])
        invariant foundSAMs == PsFound(adData, key, done + school[..usrIdx])
      {
        var user := school[usrIdx];
        PsStepLemma(adData, key, done + school[..usrIdx], user);
        assert done + school[..usrIdx + 1] == (done + school[..usrIdx]) + [user];
        usrIdx := usrIdx + 1;
        var extMatch := AdFindByStrictAttribute(adData, Dcid(user), key);
        if extMatch.Some? {
          changeTable := changeTable + [DcidMatchRule.MatchedLine(user, extMatch.value)];
          foundSAMs := foundSAMs + [Sam(extMatch.value)];
          continue;
        }
        var nameMatch := AdFindByFirstLast(adData, FirstName(user), LastName(user));
        if nameMatch.Some? {
          changeTable := changeTable + [NameMatchCheckRule.AddLine(user, nameMatch.value)];
          foundSAMs := foundSAMs + [Sam(nameMatch.value)];
          continue;
        }
        changeTable := changeTable + [PsNotFoundLine(user)];
      }
      assert school[..usrIdx] == school;
      FlattenStep(psData, schoolIdx);
      schoolIdx := schoolIdx + 1;
    }
    assert psData[..schoolIdx] == psData;
    ghost var psTable := changeTable;
    NothingYet(adData, key, foundSAMs);
    assert adData[..0] == [];
    var usrIdx := 0;
    while usrIdx < |adData|
      invariant usrIdx <= |adData|
      invariant changeTable == psTable + AdEntries(adData[..usrIdx], foundSAMs, key)
    {
      var user := adData[usrIdx];
      AdStepLemma(adData[..usrIdx], user, foundSAMs, key);
      assert adData[..usrIdx + 1] == adData[..usrIdx] + [user];
      usrIdx := usrIdx + 1;
      var value := Field(user, key);
      if value.Str? && StrictEq(value, Str(NoSyncRule.NoSyncMarker)) {
        changeTable := changeTable + [NoSyncRule.NoSyncLine(user)];
        continue;
      }
      if Sam(user) in foundSAMs {
        continue;
      }
      if !Truthy(Field(user, "Enabled")) {
        continue;
      }
      changeTable := changeTable + [AdNotFoundLine(user)];
    }
    assert adData[..usrIdx] == adData;
  }

  // ---------------------------------------------------------------------------
  // Properties of the PowerSchool pass
  // ---------------------------------------------------------------------------

  /** Each staff entry contributes exactly one line, in school order then staff order. */
  lemma {:induction false} OneLinePerEntry(ad: seq<AdRecord>, key: string, us: seq<Staff>)
    ensures |PsEntries(ad, key, us)| == |us|
    ensures forall i :: 0 <= i < |us| ==> PsEntries(ad, key, us)[i] == PsOutcome(ad, key, us[i]).line
    decreases |us|
  {
    hide PsOutcome;
    if |us| > 0 {
      var n := |us| - 1;
      OneLinePerEntry(ad, key, us[..n]);
      assert us == us[..n] + [us[n]];
      PsStepLemma(ad, key, us[..n], us[n]);
    }
  }

  /** A `===` match on the sync attribute takes precedence: the entry gets the matched
      line for the first such account and claims it. */
  lemma StrictMatchWins(ad: seq<AdRecord>, key: string, u: Staff, j: int)
    requires FirstByStrictAttribute(ad, Dcid(u), key, j)
    ensures PsOutcome(ad, key, u) == Outcome(DcidMatchRule.MatchedLine(u, ad[j]), Some(Sam(ad[j])))
  {
    hide ToStr, Lower;
    FindByStrictAttributeFirst(ad, Dcid(u), key, j);
  }

  /** Without such a match, the first account with the same name (ignoring ASCII case)
      gets an "Add DCID" line and is claimed. */
  lemma NameMatchSecond(ad: seq<AdRecord>, key: string, u: Staff, j: int)
    requires forall k :: 0 <= k < |ad| ==> !StrictAttributeMatches(ad[k], Dcid(u), key)
    requires FirstByName(ad, FirstName(u), LastName(u), j)
    ensures PsOutcome(ad, key, u) == Outcome(NameMatchCheckRule.AddLine(u, ad[j]), Some(Sam(ad[j])))
  {
    hide ToStr, Lower;
    FindByStrictAttributeNone(ad, Dcid(u), key);
    FindByFirstLastFirst(ad, FirstName(u), LastName(u), j);
  }

  /** With neither, the entry is reported as not found and claims nothing. */
  lemma NotFoundLast(ad: seq<AdRecord>, key: string, u: Staff)
    requires forall k :: 0 <= k < |ad| ==> !StrictAttributeMatches(ad[k], Dcid(u), key)
    requires forall k :: 0 <= k < |ad| ==> !NameMatches(ad[k], FirstName(u), LastName(u))
    ensures PsOutcome(ad, key, u) == Outcome(PsNotFoundLine(u), None)
  {
    hide ToStr, Lower;
    FindByStrictAttributeNone(ad, Dcid(u), key);
    FindByFirstLastNone(ad, FirstName(u), LastName(u));
  }

  /** A line starting with the word p starts with p and with no word whose first letter
      differs from p's. */
  lemma FirstWord(line: string, p: string, rest: string, q1: string, q2: string)
    requires line == p + rest && |p| > 0 && |q1| > 0 && |q2| > 0 && q1[0] != p[0] && q2[0] != p[0]
    ensures StartsWith(line, p) && !StartsWith(line, q1) && !StartsWith(line, q2)
  {
    assert line[..|p|] == p;
    assert line[0] == p[0];
  }

  /** The word each kind of line of the PowerSchool pass starts with. */
  const MatchedWord: string := "DCID Matched: "
  const AddWord: string := "Add DCID: "

  lemma Initials()
    ensures MatchedWord[0] == 'D' && AddWord[0] == 'A' && PsNotFoundPrefix[0] == 'N' && AdNotFoundPrefix[0] == 'N'
    ensures "Ignore: No Sync set on: "[0] == 'I'
  {
    assert PsNotFoundPrefix == "N" + PsNotFoundPrefix[1..];
    assert AdNotFoundPrefix == "N" + AdNotFoundPrefix[1..];
  }

  /** An entry whose DCID is `===` held by some account gets the matched line and claims. */
  lemma MatchedKind(ad: seq<AdRecord>, key: string, u: Staff)
    requires FindByStrictAttribute(ad, Dcid(u), key).Some?
    ensures StartsWith(PsOutcome(ad, key, u).line, MatchedWord)
    ensures !StartsWith(PsOutcome(ad, key, u).line, AddWord)
    ensures !StartsWith(PsOutcome(ad, key, u).line, PsNotFoundPrefix)
    ensures PsOutcome(ad, key, u).claimed.Some?
  {
    hide ToStr, Lower, StrictAttributeMatches, NameMatches, FindByStrictAttribute, FindByFirstLast, Sam;
    var r := FindByStrictAttribute(ad, Dcid(u), key).value;
    Initials();
    FirstWord(PsOutcome(ad, key, u).line, MatchedWord, ToStr(Dcid(u)) + " to " + Sam(r) + "; User OK!", AddWord, PsNotFoundPrefix);
  }

  lemma AddKind(ad: seq<AdRecord>, key: string, u: Staff)
    requires FindByStrictAttribute(ad, Dcid(u), key).None?
    requires FindByFirstLast(ad, FirstName(u), LastName(u)).Some?
    ensures StartsWith(PsOutcome(ad, key, u).line, AddWord)
    ensures !StartsWith(PsOutcome(ad, key, u).line, MatchedWord)
    ensures !StartsWith(PsOutcome(ad, key, u).line, PsNotFoundPrefix)
    ensures PsOutcome(ad, key, u).claimed.Some?
  {
    hide ToStr, Lower, StrictAttributeMatches, NameMatches, FindByStrictAttribute, FindByFirstLast, Sam;
    var r := FindByFirstLast(ad, FirstName(u), LastName(u)).value;
    Initials();
    FirstWord(PsOutcome(ad, key, u).line, AddWord, ToStr(Dcid(u)) + " to " + Sam(r), MatchedWord, PsNotFoundPrefix);
  }

  lemma NotFoundKind(ad: seq<AdRecord>, key: string, u: Staff)
    requires FindByStrictAttribute(ad, Dcid(u), key).None?
    requires FindByFirstLast(ad, FirstName(u), LastName(u)).None?
    ensures StartsWith(PsOutcome(ad, key, u).line, PsNotFoundPrefix)
    ensures !StartsWith(PsOutcome(ad, key, u).line, MatchedWord)
    ensures !StartsWith(PsOutcome(ad, key, u).line, AddWord)
    ensures PsOutcome(ad, key, u).claimed.None?
  {
    hide ToStr, Lower, StrictAttributeMatches, NameMatches, FindByStrictAttribute, FindByFirstLast, Sam;
    Initials();
    FirstWord(PsOutcome(ad, key, u).line, PsNotFoundPrefix,
      FirstName(u) + ", " + LastName(u) + "; DCID: " + ToStr(Dcid(u)) + "; Teacher Number: " + ToStr(LocalId(u)),
      MatchedWord, AddWord);
  }

  /** The three kinds of line are told apart by their first word, and each kind occurs
      exactly in its case: an entry with a `===` match never gets an "Add DCID" line, and
      exactly the entries reported as not found claim no account. */
  lemma LineKinds(ad: seq<AdRecord>, key: string, u: Staff)
    ensures StartsWith(PsOutcome(ad, key, u).line, MatchedWord) <==>
      exists k :: 0 <= k < |ad| && StrictAttributeMatches(ad[k], Dcid(u), key)
    ensures StartsWith(PsOutcome(ad, key, u).line, AddWord) <==>
      (forall k :: 0 <= k < |ad| ==> !StrictAttributeMatches(ad[k], Dcid(u), key)) &&
      exists k :: 0 <= k < |ad| && NameMatches(ad[k], FirstName(u), LastName(u))
    ensures StartsWith(PsOutcome(ad, key, u).line, PsNotFoundPrefix) <==> PsOutcome(ad, key, u).claimed.None?
  {
    hide *;
    FindByStrictAttributeNone(ad, Dcid(u), key);
    FindByFirstLastNone(ad, FirstName(u), LastName(u));
    if FindByStrictAttribute(ad, Dcid(u), key).Some? {
      MatchedKind(ad, key, u);
    } else if FindByFirstLast(ad, FirstName(u), LastName(u)).Some? {
      AddKind(ad, key, u);
    } else {
      NotFoundKind(ad, key, u);
    }
  }

  /** Account j claims staff entry u: by a `===` DCID match or by name. */
  predicate Claims(ad: seq<AdRecord>, key: string, u: Staff, j: int) {
    0 <= j < |ad| && (StrictAttributeMatches(ad[j], Dcid(u), key) || NameMatches(ad[j], FirstName(u), LastName(u)))
  }

  lemma OutcomeClaims(ad: seq<AdRecord>, key: string, u: Staff)
    requires PsOutcome(ad, key, u).claimed.Some?
    ensures exists j :: 0 <= j < |ad| && Claims(ad, key, u, j) && PsOutcome(ad, key, u).claimed.value == Sam(ad[j])
  {
    hide ToStr, Lower, StrictAttributeMatches, NameMatches;
    var p := (r: AdRecord) => StrictAttributeMatches(r, Dcid(u), key);
    var q := (r: AdRecord) => NameMatches(r, FirstName(u), LastName(u));
    if FirstMatch(ad, p).Some? {
      assert Claims(ad, key, u, FirstMatch(ad, p).value);
    } else {
      assert Claims(ad, key, u, FirstMatch(ad, q).value);
    }
  }

  /** Every account the pass claims is the account of an Active Directory record that
      matched one of the entries, by DCID or by name. */
  lemma {:induction false} FoundProvenance(ad: seq<AdRecord>, key: string, us: seq<Staff>)
    ensures forall x :: x in PsFound(ad, key, us) ==>
      exists i, j :: 0 <= i < |us| && 0 <= j < |ad| && Claims(ad, key, us[i], j) && x == Sam(ad[j])
    decreases |us|
  {
    hide PsOutcome, Claims;
    if |us| > 0 {
      var n := |us| - 1;
      var front := us[..n];
      FoundProvenance(ad, key, front);
      assert us == front + [us[n]];
      PsStepLemma(ad, key, front, us[n]);
      forall x | x in PsFound(ad, key, us)
        ensures exists i, j :: 0 <= i < |us| && 0 <= j < |ad| && Claims(ad, key, us[i], j) && x == Sam(ad[j])
      {
        if x in PsFound(ad, key, front) {
          var i, j :| 0 <= i < |front| && 0 <= j < |ad| && Claims(ad, key, front[i], j) && x == Sam(ad[j]);
          assert us[i] == front[i];
        } else {
          OutcomeClaims(ad, key, us[n]);
        }
      }
    }
  }

  /** The found accounts only grow: those of a prefix of the entries come first. */
  lemma {:induction false} FoundGrows(ad: seq<AdRecord>, key: string, us: seq<Staff>, k: nat)
    requires k <= |us|
    ensures PsFound(ad, key, us[..k]) <= PsFound(ad, key, us)
    decreases |us|
  {
    hide PsOutcome;
    if k < |us| {
      var n := |us| - 1;
      assert us == us[..n] + [us[n]];
      PsStepLemma(ad, key, us[..n], us[n]);
      assert us[..n][..k] == us[..k];
      FoundGrows(ad, key, us[..n], k);
    } else {
      assert us[..k] == us;
    }
  }

  // ---------------------------------------------------------------------------
  // Properties of the Active Directory pass
  // ---------------------------------------------------------------------------

  /** The pass over one account agrees with the Active Directory rules run in the order of
      this file (no-sync, found, disabled): the marker gives the no-sync line whatever else
      holds, and an account is reported as not found exactly when all three rules pass. */
  lemma AdEntryAgreesWithRules(env: Env, rec: AdRecord, s: Snap)
    ensures AdEntry(rec, s.foundSAMs, SyncAttribute(env)) == [NoSyncRule.NoSyncLine(rec)] <==> NoSyncRule.NoSyncGuard(env, rec)
    ensures AdEntry(rec, s.foundSAMs, SyncAttribute(env)) == [AdNotFoundLine(rec)] <==>
      Pipeline.Run([Pipeline.NoSync, Pipeline.FoundSAMsCheck, Pipeline.DisabledCheck], Pipeline.AdStep, env, rec, s).verdict.Pass?
  {
    hide Sam, GivenName, Surname, Pipeline.Run, Pipeline.AdStep;
    var order := [Pipeline.NoSync, Pipeline.FoundSAMsCheck, Pipeline.DisabledCheck];
    Pipeline.AdRulesPassKeepState();
    Pipeline.FallThroughIff(order, Pipeline.AdStep, env, rec, s);
    AdRuleVerdicts(env, rec, s);
    assert (forall i :: 0 <= i < |order| ==> Pipeline.AdStep(order[i], env, rec, s).verdict.Pass?) <==>
      Pipeline.AdStep(Pipeline.NoSync, env, rec, s).verdict.Pass? &&
      Pipeline.AdStep(Pipeline.FoundSAMsCheck, env, rec, s).verdict.Pass? &&
      Pipeline.AdStep(Pipeline.DisabledCheck, env, rec, s).verdict.Pass?
    by {
      assert order[0] == Pipeline.NoSync && order[1] == Pipeline.FoundSAMsCheck && order[2] == Pipeline.DisabledCheck;
    }
    Initials();
    FirstWord(AdNotFoundLine(rec), AdNotFoundPrefix, GivenName(rec) + ", " + Surname(rec) + "; " + Sam(rec), "I", "I");
    FirstWord(NoSyncRule.NoSyncLine(rec), "Ignore: No Sync set on: ", Sam(rec), "N", "N");
    assert Field(rec, "Enabled").Bool?;
  }

  lemma AdRuleVerdicts(env: Env, rec: AdRecord, s: Snap)
    ensures Pipeline.AdStep(Pipeline.NoSync, env, rec, s).verdict.Pass? <==> !NoSyncRule.NoSyncGuard(env, rec)
    ensures Pipeline.AdStep(Pipeline.FoundSAMsCheck, env, rec, s).verdict.Pass? <==> Sam(rec) !in s.foundSAMs
    ensures Pipeline.AdStep(Pipeline.DisabledCheck, env, rec, s).verdict.Pass? <==> Truthy(Field(rec, "Enabled"))
  {
    hide Sam;
  }

  /** An account claimed during the PowerSchool pass is never reported as not found; unless
      it carries the no-sync marker it gives no line at all. */
  lemma ClaimedNeverReported(env: Env, rec: AdRecord, s: Snap)
    requires Sam(rec) in s.foundSAMs
    ensures AdEntry(rec, s.foundSAMs, SyncAttribute(env)) != [AdNotFoundLine(rec)]
    ensures !MarkedNoSync(rec, SyncAttribute(env)) ==> AdEntry(rec, s.foundSAMs, SyncAttribute(env)) == []
  {
    hide AdEntry, Sam;
    AdEntryAgreesWithRules(env, rec, s);
    Pipeline.ClaimedAccountNeverUnmatched([Pipeline.NoSync, Pipeline.FoundSAMsCheck, Pipeline.DisabledCheck], env, rec, s);
    AdEntryAtMostOneLine(rec, s.foundSAMs, SyncAttribute(env));
  }

  /** Each account gives at most one line. An unmarked account that was claimed, or that
      is not enabled, gives none; an unmarked, unclaimed, enabled one is reported. */
  lemma AdEntryAtMostOneLine(rec: AdRecord, found: seq<string>, key: string)
    ensures |AdEntry(rec, found, key)| <= 1
    ensures !MarkedNoSync(rec, key) && (Sam(rec) in found || !Truthy(Field(rec, "Enabled"))) ==>
      AdEntry(rec, found, key) == []
    ensures !MarkedNoSync(rec, key) && Sam(rec) !in found && Truthy(Field(rec, "Enabled")) ==>
      AdEntry(rec, found, key) == [AdNotFoundLine(rec)]
  {
  }

  // ---------------------------------------------------------------------------
  // The whole table
  // ---------------------------------------------------------------------------

  /** All lines of the PowerSchool pass come first, one per staff entry in school order
      then staff order; the lines of the Active Directory pass follow. */
  lemma TableLayout(ps: seq<seq<Staff>>, ad: seq<AdRecord>, app: Record)
    ensures |CompareTable(ps, ad, app)| >= |Flatten(ps)|
    ensures forall i :: 0 <= i < |Flatten(ps)| ==>
      CompareTable(ps, ad, app)[i] == PsOutcome(ad, SyncKey(app), Flatten(ps)[i]).line
    ensures CompareTable(ps, ad, app)[|Flatten(ps)|..] ==
      AdEntries(ad, PsFound(ad, SyncKey(app), Flatten(ps)), SyncKey(app))
  {
    hide PsOutcome, AdEntries, PsFound, Flatten;
    OneLinePerEntry(ad, SyncKey(app), Flatten(ps));
  }

  /** The configuration the scenarios below share: no writes, the DCID kept in
      `extensionAttribute1`. */
  const ScenarioApp: Record := map["verbose" := Bool(true), "skipPS" := Bool(false), "skipAD" := Bool(false),
                                   "noWrite" := Bool(true), "attribute" := Str("extensionAttribute1")]

  /** The staff entry both scenarios use: The Developer, DCID 4, teacher number 3. */
  const TheDeveloper: Staff := map["local_id" := Num(3), "admin_username" := Str("thedev"),
                                   "name" := Obj(map["first_name" := Str("The"), "last_name" := Str("Developer")]),
                                   "users_dcid" := Num(4)]

  /** The accounts of the scenarios; none carries the sync attribute. */
  const TestDev: AdRecord := map["GivenName" := Str("t"), "Surname" := Str("dev"),
                                 "SamAccountName" := Str("testdev"), "Enabled" := Bool(true)]
  const ThDeveloper: AdRecord := map["GivenName" := Str("The"), "Surname" := Str("Developer"),
                                     "SamAccountName" := Str("thDeveloper"), "Enabled" := Bool(true)]
  const IdExistInPS: AdRecord := map["GivenName" := Str("Idont"), "Surname" := Str("existInPS"),
                                     "SamAccountName" := Str("idexistInPS"), "Enabled" := Bool(true)]

  lemma ScenarioBasics()
    ensures SyncKey(ScenarioApp) == "extensionAttribute1"
    ensures FirstName(TheDeveloper) == "The" && LastName(TheDeveloper) == "Developer"
    ensures ToStr(Dcid(TheDeveloper)) == "4" && ToStr(LocalId(TheDeveloper)) == "3"
    ensures Flatten([[TheDeveloper]]) == [TheDeveloper]
  {
    assert Flatten([[TheDeveloper]][..0]) == [];
  }

  lemma SingleEntry(ad: seq<AdRecord>)
    ensures CompareTable([[TheDeveloper]], ad, ScenarioApp) ==
      [PsOutcome(ad, "extensionAttribute1", TheDeveloper).line] +
      AdEntries(ad, PsFound(ad, "extensionAttribute1", [TheDeveloper]), "extensionAttribute1")
  {
    hide PsOutcome, AdEntries, Flatten, SyncKey;
    ScenarioBasics();
    var us := [TheDeveloper];
    var key := "extensionAttribute1";
    assert us[..0] == [] && us[0] == TheDeveloper;
    assert PsEntries(ad, key, us) == PsEntries(ad, key, []) + [PsOutcome(ad, key, TheDeveloper).line];
  }

  lemma DeveloperNotFoundLine()
    ensures PsNotFoundLine(TheDeveloper) ==
      PsNotFoundPrefix + "The" + ", " + "Developer" + "; DCID: " + "4" + "; Teacher Number: " + "3"
  {
    ScenarioBasics();
  }

  /** An enabled, unmarked, unclaimed account is reported. */
  lemma UnclaimedAccountReported(rec: AdRecord, found: seq<string>, key: string)
    requires Field(rec, key) == Absent && Sam(rec) !in found && Field(rec, "Enabled") == Bool(true)
    ensures AdEntry(rec, found, key) == [AdNotFoundLine(rec)]
  {
  }

  /** A claimed, unmarked account gives no line. */
  lemma ClaimedAccountSilent(rec: AdRecord, found: seq<string>, key: string)
    requires Field(rec, key) == Absent && Sam(rec) in found
    ensures AdEntry(rec, found, key) == []
  {
  }

  lemma TwoAccounts(a0: AdRecord, a1: AdRecord, found: seq<string>, key: string)
    ensures AdEntries([a0], found, key) == AdEntry(a0, found, key)
    ensures AdEntries([a0, a1], found, key) == AdEntry(a0, found, key) + AdEntry(a1, found, key)
  {
    hide AdEntry;
    assert [a0][..0] == [] && [a0, a1][..1] == [a0];
  }

  lemma DeveloperUnmatched()
    ensures PsOutcome([TestDev], "extensionAttribute1", TheDeveloper) == Outcome(PsNotFoundLine(TheDeveloper), None)
  {
    var ad := [TestDev];
    var key := "extensionAttribute1";
    ScenarioBasics();
    hide PsNotFoundLine, ToStr;
    assert !StrictAttributeMatches(ad[0], Dcid(TheDeveloper), key) by {
      assert Field(ad[0], key) == Absent;
    }
    assert !NameMatches(ad[0], "The", "Developer") by {
      assert GivenName(ad[0]) == "t";
      assert Lower("t") != Lower("The") by { assert |Lower("t")| == 1 && |Lower("The")| == 3; }
    }
    NotFoundLast(ad, key, TheDeveloper);
  }

  lemma DeveloperNameMatched()
    ensures PsOutcome([ThDeveloper, IdExistInPS], "extensionAttribute1", TheDeveloper) ==
      Outcome(AddWord + "4" + " to " + "thDeveloper", Some("thDeveloper"))
  {
    var ad := [ThDeveloper, IdExistInPS];
    var key := "extensionAttribute1";
    ScenarioBasics();
    assert NameMatchCheckRule.AddLine(TheDeveloper, ThDeveloper) == AddWord + "4" + " to " + "thDeveloper";
    hide ToStr, NameMatchCheckRule.AddLine;
    assert Field(ad[0], key) == Absent && Field(ad[1], key) == Absent;
    assert forall k :: 0 <= k < |ad| ==> !StrictAttributeMatches(ad[k], Dcid(TheDeveloper), key);
    assert NameMatches(ad[0], "The", "Developer") by { assert GivenName(ad[0]) == "The" && Surname(ad[0]) == "Developer"; }
    assert FirstByName(ad, "The", "Developer", 0);
    NameMatchSecond(ad, key, TheDeveloper, 0);
  }

  lemma ScenarioAccountLines()
    ensures AdNotFoundLine(TestDev) == AdNotFoundPrefix + "t" + ", " + "dev" + "; " + "testdev"
    ensures AdNotFoundLine(IdExistInPS) == AdNotFoundPrefix + "Idont" + ", " + "existInPS" + "; " + "idexistInPS"
  {
  }

  lemma ScenarioFound()
    ensures PsFound([TestDev], "extensionAttribute1", [TheDeveloper]) == []
    ensures PsFound([ThDeveloper, IdExistInPS], "extensionAttribute1", [TheDeveloper]) == ["thDeveloper"]
  {
    DeveloperUnmatched();
    DeveloperNameMatched();
    hide PsOutcome;
    assert [TheDeveloper][..0] == [];
  }

  /** A staff entry with no account of the same name: the first line reports it as not
      found, with its DCID and teacher number; the unclaimed enabled account is reported
      after it. */
  lemma OnlyInPowerSchool()
    ensures CompareTable([[TheDeveloper]], [TestDev], ScenarioApp) ==
      [PsNotFoundPrefix + "The" + ", " + "Developer" + "; DCID: " + "4" + "; Teacher Number: " + "3",
       AdNotFoundPrefix + "t" + ", " + "dev" + "; " + "testdev"]
  {
    hide *;
    var key := "extensionAttribute1";
    SingleEntry([TestDev]);
    DeveloperUnmatched();
    DeveloperNotFoundLine();
    ScenarioFound();
    ScenarioAccountLines();
    AccountFacts();
    UnclaimedAccountReported(TestDev, [], key);
    TwoAccounts(TestDev, TestDev, [], key);
  }

  /** A staff entry whose name matches an account ignoring case: the first line proposes
      writing the DCID to that account, which is then claimed, so the only other line
      reports the second, unclaimed account. */
  lemma OnlyInActiveDirectory()
    ensures CompareTable([[TheDeveloper]], [ThDeveloper, IdExistInPS], ScenarioApp) ==
      [AddWord + "4" + " to " + "thDeveloper",
       AdNotFoundPrefix + "Idont" + ", " + "existInPS" + "; " + "idexistInPS"]
  {
    hide *;
    var key := "extensionAttribute1";
    SingleEntry([ThDeveloper, IdExistInPS]);
    DeveloperNameMatched();
    ScenarioFound();
    ScenarioAccountLines();
    AccountFacts();
    ClaimedAccountSilent(ThDeveloper, ["thDeveloper"], key);
    UnclaimedAccountReported(IdExistInPS, ["thDeveloper"], key);
    TwoAccounts(ThDeveloper, IdExistInPS, ["thDeveloper"], key);
  }

  lemma AccountFacts()
    ensures Field(TestDev, "extensionAttribute1") == Absent && Sam(TestDev) == "testdev"
    ensures Field(TestDev, "Enabled") == Bool(true)
    ensures Field(ThDeveloper, "extensionAttribute1") == Absent && Sam(ThDeveloper) == "thDeveloper"
    ensures Field(IdExistInPS, "extensionAttribute1") == Absent && Sam(IdExistInPS) == "idexistInPS"
    ensures Field(IdExistInPS, "Enabled") == Bool(true)
  {
  }
}
