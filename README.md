# PS-to-AD reconciliation engine, modelled in Dafny

PS-to-AD reconciles the staff list of a PowerSchool server with the user accounts of an
Active Directory domain. This project models the engine at its centre and proves
properties of the model:

- **The rules of `src/compareRules/`** act on one shared, mutable run state. The state
  holds the change table, the SAM account names found so far, the exclude list and the
  counters. The PowerSchool rules are `duplicatePSUserCheck` (a one-time pre-pass),
  `exclusionCheck`, `serviceAccountCheck`, `dcidMatch`, `dcidMatchEmployeeID` and
  `nameMatchCheck`. The Active Directory rules are `noSync`, `disabledCheck`,
  `foundSAMsCheck` and `ignoreGroupCheck`. They are chained so that the first rule to
  return true ends the processing of a record.
- **The two record finders** of `helpers.js`, plus the strict-equality finder of `compare.js`.
- **`compare`**, the two-pass driver. It returns the change table.
- **`normalize`**, the merge of command-line arguments over the configuration file.
- **The Joi schemas** of `validate.js`.

Layout, one module per source file:

- `js.dfy` (module `Js`) holds the JavaScript semantics the engine relies on:
  - values `JsVal`, with records as `map<string, JsVal>`;
  - `??` as `Coalesce`, truthiness, `===` as `StrictEq`;
  - string conversion for template literals;
  - `parseInt`, covering leading white space, sign, `0x`, and the longest digit prefix;
  - ASCII `toLowerCase`.
- `validate.dfy` models the schemas as predicates. Two subset types carry the shapes the
  engine dereferences:
  - `Staff`: a numeric, integral `users_dcid`, a present `local_id`, string first and last names;
  - `AdRecord`: the four required account fields, with a boolean `Enabled`.
  The predicates follow Joi's default `convert` option: a number field also accepts integer
  text, and a boolean field also accepts "true" and "false" in any letter case.
- `state.dfy` holds the run state:
  - `RunState` is a class whose fields the rule methods update in place.
  - `Snapshot()` is that state as a value (`Snap`).
  - `Directory` is the write-back target. It records every `addAttribToUser` call and
    refuses writes for a fixed set of accounts.
- One file per rule. Each rule is a module-level method taking the `RunState` (or, for
  the two pure rules `serviceAccountCheck` and `foundSAMsCheck`, a function). A method's
  postcondition ties its verdict and the new state to a step function (`…Step`) on values. The lemmas state the
  rule's behaviour in terms of that function:
  - a verdict of `Pass` means the rule returned a falsy value;
  - `Claim` means it returned `true`;
  - `Throw` means an exception propagated.
- `pipeline.dfy` runs rules in an order given as a parameter. It states what holds for
  every order. The source has no code that chains the rules; `rules.js` only documents the
  contract. It dispatches to the corrected `dcidMatchEmployeeID`, `nameMatchCheck` and
  `noSync` of the Findings, so every `Pipeline` fact describes the repaired rules.
- `compare.dfy` holds:
  - the `compare` method, proved equal to a table function `CompareTable`;
  - lemmas on that table;
  - the two scenarios of `test/compare.test.js`.
- `config.dfy` holds `normalize`.

The second test scenario expects its second line to end in `; last Logon Timestamp:
undefined`. `compare.js:118-120` emits no such suffix, and `Compare.OnlyInActiveDirectory`
proves the line the code emits.

The registry lists `disabledCheck` before `foundSAMsCheck`; `compare.js` tests found
accounts before disabled ones. Both orders are modelled (`AdRegistryOrder` and
`AdCompareOrder`). They decide every account the same way, but they count disabled
accounts differently.

## Model

| member | source | states |
|---|---|---|
| Js.Lower | src/compareRules/helpers.js:15-16 | `toLowerCase` keeps the length and lowers each character on its own |
| Js.ParseIntOfIntToString | src/compareRules/helpers.js:35 | `parseInt` of the decimal rendering of any integer gives back that integer |
| Js.ParseIntNumericPrefix | src/compareRules/helpers.js:35 | `parseInt("4x")` is 4: only the digit prefix is read |
| Js.ParseIntSignedPrefix | src/compareRules/helpers.js:35 | leading white space and a sign are accepted: `parseInt(" -12a")` is -12 |
| Js.ParseIntHexPrefix | src/compareRules/helpers.js:35 | a `0x` prefix switches to base 16 |
| Js.ParseIntNoDigits | src/compareRules/helpers.js:35 | undefined, null, `true`, `""` and `"0x"` parse to NaN |
| Validate.EmptyArraysValid | src/validate.js:9-38 | empty Active Directory and PowerSchool arrays validate |
| Validate.AdExtraKeysAllowed | src/validate.js:9-16 | adding a key other than the four required ones keeps an account valid |
| Validate.AdRecordShape | src/validate.js:9-16 | an account needs non-empty string GivenName, Surname and SamAccountName and an Enabled that `Joi.boolean()` accepts under its default conversion: "FALSE" is accepted, while "yes", the number 1, a missing Enabled or an empty GivenName is refused |
| Validate.StaffShape | src/validate.js:23-30 | a staff entry needs an integer users_dcid, given either as a number or as integer text that the default conversion accepts (" -4 "), and a present local_id of any type, including null; "4x", "", `true` and a missing local_id are refused |
| Validate.IntegerTextOfIntToString | src/validate.js:25 | the decimal text of every integer is accepted as a number by the schema |
| Validate.IntegerTextIsParsed | src/validate.js:25 | every string the schema converts to an integer is one that `parseInt` reads, never NaN |
| Validate.OptionalPartsValidate | src/validate.js:18-38 | `details` and `name` are optional, `count` is required, a school allows no unknown key; a staff entry without a name validates but is not one the engine can read |
| Validate.EngineStaffIsValid | src/validate.js:18-38 | every entry the engine works on passes the staff schema |
| State.Directory.AddAttribToUser | src/integrations/activedirectory.js:139-160 | the call is appended to the directory's write log, and its outcome is `WriteOutcome` |
| State.RunState.constructor | src/compareRules/rules.js:20-37 | a run starts with an empty change table, found list and exclude list, and all counters at zero |
| Helpers.FirstMatch | src/compareRules/helpers.js:13-21 | the index found satisfies the test and no earlier one does; none is found exactly when no record satisfies it |
| Helpers.AdFindByFirstLast | src/compareRules/helpers.js:12-22 | the loop returns the first record whose given name and surname equal the arguments, ignoring case, or null |
| Helpers.AdFindByAttribute | src/compareRules/helpers.js:33-42 | the loop returns the first record whose attribute parses to `ext`, or null |
| Helpers.AdFindByStrictAttribute | src/integrations/compare.js:163-170 | the loop returns the first record whose attribute is `===` to `ext`, or null |
| Helpers.FirstMatchIsFirst | src/compareRules/helpers.js:13-21 | the lowest-index record satisfying the test is the one returned |
| Helpers.FirstMatchExists | src/compareRules/helpers.js:13-21 | null exactly when no record satisfies the test; otherwise the record returned is the first that does |
| Helpers.FindByFirstLastFirst | src/compareRules/helpers.js:13-19 | the first record with both names equal ignoring case is returned |
| Helpers.FindByFirstLastNone | src/compareRules/helpers.js:13-21 | null exactly when no record has both names equal ignoring case |
| Helpers.FindByAttributeFirst | src/compareRules/helpers.js:34-39 | the first record with `parseInt(record[attr]) === ext` is returned |
| Helpers.FindByAttributeNone | src/compareRules/helpers.js:34-41 | null exactly when no record's attribute parses to `ext` |
| Helpers.FindByStrictAttributeFirst | src/integrations/compare.js:164-167 | the first record with `record[attr] === ext` is returned |
| Helpers.FindByStrictAttributeNone | src/integrations/compare.js:164-169 | null exactly when no record's attribute is `===` to `ext` |
| Helpers.NameSearchIgnoresCase | src/compareRules/helpers.js:15-16 | "tHE"/"DEVELOPER" finds the account The/Developer |
| Helpers.NonNumericNeverMatches | src/compareRules/helpers.js:35-37 | any attribute whose string form has no decimal digit after its white space and optional sign (missing, null, a boolean, "", "x4", " -a1", or an object or array rendering as such text) parses to NaN and matches no DCID |
| Helpers.NumericPrefixMatches | src/compareRules/helpers.js:35-37 | the string "4x" matches DCID 4 under `parseInt`, but not under `===` |
| Helpers.DecimalAttributeMatches | src/compareRules/helpers.js:35-37 | a DCID stored as its decimal string matches under `parseInt`, and never under `===` |
| DuplicatePSUserCheckRule.DuplicatePSUserCheck | src/compareRules/duplicatePSUserCheck.js:9-59 | the exclude list keeps its entries and gains `Additions` of the flattened staff: in school then staff order, each entry once per colliding entry; nothing else in the state changes |
| DuplicatePSUserCheckRule.PushCollisions | src/compareRules/duplicatePSUserCheck.js:26-54 | the inner two loops append the entry once for every entry that collides with it |
| DuplicatePSUserCheckRule.PushesCount | src/compareRules/duplicatePSUserCheck.js:33-48 | only the scanned entry is pushed, once per colliding position |
| DuplicatePSUserCheckRule.PushesMembership | src/compareRules/duplicatePSUserCheck.js:40-48 | the entry is pushed exactly when some entry has the same first and last name and another DCID |
| DuplicatePSUserCheckRule.AddedIff | src/compareRules/duplicatePSUserCheck.js:13-56 | an entry ends up in the additions exactly when it is one of the staff and collides with some entry |
| DuplicatePSUserCheckRule.CollisionsSymmetric | src/compareRules/duplicatePSUserCheck.js:40-48 | when two entries collide, both are added |
| DuplicatePSUserCheckRule.UniqueNameNeverAdded | src/compareRules/duplicatePSUserCheck.js:40-44 | an entry whose name is shared only by entries with its own DCID is never added; in particular no entry collides with itself |
| ExclusionCheckRule.ExclusionCheck | src/compareRules/exclusionCheck.js:1-16 | the result is true exactly when some exclude-list entry has the same first name, last name and DCID; the state is not modified |
| ExclusionCheckRule.ExcludedAfterDuplicatePass | src/compareRules/exclusionCheck.js:6-12 | after the duplicate pass, a staff entry is excluded exactly when it collides with another entry |
| ExclusionCheckRule.ExcludedOnlyIfColliding | src/compareRules/exclusionCheck.js:6-12 | an entry excluded by the additions collides with some entry |
| ExclusionCheckRule.PassAddsAreExcluded | src/compareRules/exclusionCheck.js:6-12 | every entry the duplicate pass adds is excluded, whatever the list already held |
| ServiceAccountCheckRule.ServiceAccountCheck | src/compareRules/serviceAccountCheck.js:1-7 | true exactly when local_id is a string that starts with "SVC-" |
| ServiceAccountCheckRule.ServiceAccountPrefixIsExact | src/compareRules/serviceAccountCheck.js:2 | "svc-1", "SVC", "SVC1", the number 4 and null are not service accounts |
| ServiceAccountCheckRule.ServiceAccountAnySuffix | src/compareRules/serviceAccountCheck.js:2 | "SVC-", "SVC-000" and "SVC-svc" are service accounts |
| DcidMatchRule.DcidMatch | src/compareRules/dcidMatch.js:3-27 | the method's verdict and new state are those of `DcidMatchStep` |
| DcidMatchRule.DcidMatchClaimsFirstMatch | src/compareRules/dcidMatch.js:8-23 | when record j is the first whose attribute parses to the DCID: it returns true, `matchedDCID` rises by 1, j's SAM is appended to the found list, and the "DCID Matched" line is logged exactly when outputMatched is truthy; nothing else changes |
| DcidMatchRule.DcidMatchPassIff | src/compareRules/dcidMatch.js:8-26 | it returns false exactly when no record's attribute parses to the DCID, and then changes nothing |
| DcidMatchRule.StoredDcidIsMatched | src/compareRules/dcidMatch.js:8-14 | an account whose attribute holds the DCID as a decimal string is matched |
| DcidMatchEmployeeIDRule.DcidMatchEmployeeID | src/compareRules/dcidMatchEmployeeID.js:3-27 | the method's verdict and new state are those of the corrected `DcidMatchEmployeeIDStep` |
| DcidMatchEmployeeIDRule.EmployeeIDClaimsFirstMatch | src/compareRules/dcidMatchEmployeeID.js:4-20 | with checkEmployeeID set and record j the first whose EmployeeID parses to the DCID: true, `successMatchesSecondaryPS` +1, j's SAM appended, the line logged exactly when outputMatched is truthy, nothing else changed |
| DcidMatchEmployeeIDRule.EmployeeIDPassIff | src/compareRules/dcidMatchEmployeeID.js:4-26 | false exactly when checkEmployeeID is falsy or no EmployeeID parses to the DCID, and then nothing changes |
| DcidMatchEmployeeIDRule.EmployeeIDLogRaises | src/compareRules/dcidMatchEmployeeID.js:13-17 | as written, a match with outputMatched set raises after counting the match, with no SAM recorded; the corrected rule claims the account |
| DcidMatchEmployeeIDRule.EmployeeIDAgreesWithoutLogging | src/compareRules/dcidMatchEmployeeID.js:12-20 | with outputMatched falsy, the code as written and the corrected rule agree |
| NameMatchCheckRule.NameMatchCheck | src/compareRules/nameMatchCheck.js:4-36 | the method's verdict, new state and directory writes are those of the corrected `NameMatchCheckStep` |
| NameMatchCheckRule.NameMatchPassIff | src/compareRules/nameMatchCheck.js:6-36 | the rule returns a falsy value exactly when no account has the entry's names ignoring case, and then nothing changes |
| NameMatchCheckRule.NoWriteOnlyLogs | src/compareRules/nameMatchCheck.js:13-19 | under noWrite, the first account of the same name is claimed: `nameMatchPS` +1, "Add DCID" logged, SAM appended, nothing written |
| NameMatchCheckRule.WriteBackAccepted | src/compareRules/nameMatchCheck.js:21-33 | otherwise the DCID is written once to that account; on success `nameMatchPS` and `addedDCIDPS` rise by 1, "Successfully Added" is logged and the SAM appended |
| NameMatchCheckRule.WriteBackRefused | src/compareRules/nameMatchCheck.js:22-26 | a refused write propagates: the call is logged and nothing is counted, logged or recorded |
| NameMatchCheckRule.WriteBranchRaises | src/compareRules/nameMatchCheck.js:2-26 | as written, the write branch raises a ReferenceError before writing, for any name match; the corrected rule writes |
| NameMatchCheckRule.NoWriteAgrees | src/compareRules/nameMatchCheck.js:12-19 | under noWrite, the code as written and the corrected rule agree |
| NameMatchCheckRule.AddedCountedWithNameMatch | src/compareRules/nameMatchCheck.js:27-28 | `addedDCIDPS` rises by at most one, and only in a step where `nameMatchPS` also rises by one |
| NoSyncRule.NoSync | src/compareRules/noSyncCheck.js:1-14 | the method's verdict and new state are those of the corrected `NoSyncStep` |
| NoSyncRule.NoSyncFiresOnMarker | src/compareRules/noSyncCheck.js:2-13 | the corrected rule fires exactly when the sync attribute holds "ps2ad:no-sync"; it then raises `noSync` by 1 and logs exactly when outputIgnored is truthy; otherwise nothing changes |
| NoSyncRule.NoSyncNeverFiresAsWritten | src/compareRules/noSyncCheck.js:2-5 | as written, with no `atribute` option and no string under "undefined", the rule never fires |
| NoSyncRule.MarkedAccountMissedAsWritten | src/compareRules/noSyncCheck.js:2-5 | a concrete account marked "ps2ad:no-sync" is passed over by the code as written and ignored by the corrected rule |
| DisabledCheckRule.DisabledCheck | src/compareRules/disabledCheck.js:1-7 | the method's verdict and new state are those of `DisabledCheckStep` |
| DisabledCheckRule.DisabledIffNotEnabled | src/compareRules/disabledCheck.js:2-6 | true exactly when Enabled is false; then `disabledUserAD` rises by 1 and nothing else changes (no log line, no found SAM); otherwise nothing changes |
| FoundSAMsCheckRule.ClaimedAccountsAreFound | src/compareRules/foundSAMsCheck.js:1-10 | an account claimed in the PowerSchool pass is then recognised as found, however many names are recorded after it: by a DCID match, an employee-ID match, or a name match that is logged under noWrite or written back |
| FoundSAMsCheckRule.FoundSAMsIsCaseSensitive | src/compareRules/foundSAMsCheck.js:2 | "thDeveloper" is not found among "THDEVELOPER" and "thdeveloper", and is found when listed exactly |
| IgnoreGroupCheckRule.IgnoreGroupCheck | src/compareRules/ignoreGroupCheck.js:1-12 | the method's verdict and new state are those of `IgnoreGroupCheckStep` |
| IgnoreGroupCheckRule.UnsetGroupMatchesNoNames | src/compareRules/ignoreGroupCheck.js:3 | with no group configured, an account whose MemberOf holds only strings is not ignored, and nothing changes |
| IgnoreGroupCheckRule.IgnoredOnlyInGroup | src/compareRules/ignoreGroupCheck.js:3-11 | an account is claimed only when its MemberOf is an array holding a value equal to the group; without a MemberOf array the rule passes and nothing changes |
| IgnoreGroupCheckRule.GroupMemberIgnored | src/compareRules/ignoreGroupCheck.js:3-8 | an account whose MemberOf array holds the configured group is ignored; the shared `noSyncAD` counter rises by 1, and the line is logged exactly when outputIgnored is truthy |
| Pipeline.RunPsRule | src/compareRules/rules.js:7-12 | dispatching a PowerSchool rule has the effect of that rule's step function |
| Pipeline.RunAdRule | src/compareRules/rules.js:14-17 | dispatching an Active Directory rule has the effect of that rule's step function |
| Pipeline.RunPsRules | src/compareRules/rules.js:38-39 | the loop over PowerSchool rules has the effect of `Run` over the given order |
| Pipeline.RunAdRules | src/compareRules/rules.js:38-39 | the loop over Active Directory rules has the effect of `Run` over the given order |
| Pipeline.ClaimEndsRun | src/compareRules/rules.js:38-39 | once a rule returns true or raises, later rules do not run and change nothing |
| Pipeline.PassContinues | src/compareRules/rules.js:38-39 | after a run that passes, the following rules run on the state it left |
| Pipeline.FallThroughIff | src/compareRules/rules.js:38-39 | a record falls through to the driver exactly when every rule returns false, and it then leaves the state unchanged |
| Pipeline.FirstNonPassDecides | src/compareRules/rules.js:38-39 | the first rule that does not return false decides the outcome and the state |
| Pipeline.HandledRegardlessOfOrder | src/compareRules/rules.js:38-39 | two orders of the same rules agree on whether a record falls through |
| Pipeline.RunExtends | src/compareRules/rules.js:25-27 | when every rule only appends, a run only appends to the table, found list and exclude list and never lowers a counter |
| Pipeline.PsRulesPassKeepState | src/compareRules/rules.js:7-12 | a PowerSchool rule that returns false changes nothing |
| Pipeline.AdRulesPassKeepState | src/compareRules/rules.js:14-17 | an Active Directory rule that returns false changes nothing |
| Pipeline.PsRulesExtend | src/compareRules/rules.js:25-27 | every PowerSchool rule only appends and only raises counters |
| Pipeline.AdRulesExtend | src/compareRules/rules.js:25-27 | every Active Directory rule only appends and only raises counters |
| Pipeline.AdRunNeverThrows | src/compareRules/rules.js:14-17 | no order of Active Directory rules raises |
| Pipeline.ClaimedAccountNeverUnmatched | src/compareRules/rules.js:26-27 | in any order that includes foundSAMsCheck, an account whose SAM was found is claimed and never falls through as unmatched |
| Pipeline.AdOrdersHandleSameAccounts | src/compareRules/rules.js:14-17 | the registry order and the order of compare.js give every account the same verdict |
| Pipeline.AdOrderDecidesDisabledCount | src/compareRules/rules.js:15-16 | for a disabled account already found, the registry order counts it as disabled and the compare.js order does not |
| Pipeline.RunsOnlyAppend | src/compareRules/rules.js:25-27 | any run of either pass only appends and only raises counters |
| Pipeline.SkippedEntriesChangeNothing | src/compareRules/rules.js:8-9 | an excluded entry or a service account is claimed by the registry order and changes nothing |
| Pipeline.WriteOnlyWithoutDcidMatch | src/compareRules/rules.js:8-12 | the directory is written for an entry only if it is neither excluded nor a service account and no account matches its DCID, by the sync attribute or, when enabled, by EmployeeID |
| Compare.Compare | src/integrations/compare.js:15-129 | the returned change table is `CompareTable` of the inputs |
| Compare.OneLinePerEntry | src/integrations/compare.js:33-79 | the PowerSchool pass gives exactly one line per staff entry, in school then staff order |
| Compare.StrictMatchWins | src/integrations/compare.js:47-56 | an entry whose DCID is `===` to the first account's attribute gets "DCID Matched" and claims that account |
| Compare.NameMatchSecond | src/integrations/compare.js:58-72 | with no such account, the first account of the same name (ignoring case) gets "Add DCID" and is claimed |
| Compare.NotFoundLast | src/integrations/compare.js:74-78 | with neither, the entry is reported as not found with its names, DCID and teacher number, and claims nothing |
| Compare.MatchedKind | src/integrations/compare.js:47-56 | an entry with a strict match gets a "DCID Matched" line, never an "Add DCID" or "Not Found" line |
| Compare.AddKind | src/integrations/compare.js:58-72 | an entry with only a name match gets an "Add DCID" line |
| Compare.NotFoundKind | src/integrations/compare.js:74-78 | an entry with no match gets a "Not Found" line and claims nothing |
| Compare.LineKinds | src/integrations/compare.js:47-78 | each kind of line occurs exactly in its case: "DCID Matched" iff a strict match, "Add DCID" iff only a name match, "Not Found" iff nothing is claimed |
| Compare.OutcomeClaims | src/integrations/compare.js:47-72 | a claimed SAM is that of an account that matched the entry |
| Compare.FoundProvenance | src/integrations/compare.js:54-70 | every SAM in the found list is that of an account that matched some staff entry |
| Compare.FoundGrows | src/integrations/compare.js:33-79 | the found list only grows as the pass proceeds |
| Compare.AdEntryAgreesWithRules | src/integrations/compare.js:90-121 | an account gets the no-sync line exactly when the marker is set, before the other tests; it is reported exactly when it is neither marked, nor found, nor disabled; this is the outcome of the first three Active Directory rules in compare.js order |
| Compare.AdRuleVerdicts | src/integrations/compare.js:94-113 | the tests of the second pass are the guards of the noSync, foundSAMsCheck and disabledCheck rules |
| Compare.ClaimedNeverReported | src/integrations/compare.js:103-108 | an account whose SAM was found is never reported as not found, and gives no line at all unless it carries the no-sync marker |
| Compare.AdEntryAtMostOneLine | src/integrations/compare.js:95-121 | each account gives at most one line; an unmarked account that was found or is not enabled gives none, and an unmarked, unfound, enabled one gives the not-found line |
| Compare.TableLayout | src/integrations/compare.js:33-128 | all PowerSchool lines come first, one per entry in order, followed by the Active Directory lines |
| Compare.OnlyInPowerSchool | test/compare.test.js:17-54 | staff The Developer (DCID 4, teacher number 3) beside account t/dev gives the PowerSchool "Not Found" line first, then the account's own "Not Found" line |
| Compare.OnlyInActiveDirectory | test/compare.test.js:56-104 | the same staff beside accounts The/Developer and Idont/existInPS gives "Add DCID: 4 to thDeveloper", then the "Not Found" line of idexistInPS only |
| Config.Normalize | src/config.js:42-73 | normalizing fails exactly when the file's configuration is null or undefined; otherwise it gives an object |
| Config.ServerOut | src/config.js:48-52 | each server field is the argument value unless that is null or undefined, and the file value otherwise |
| Config.AppOut | src/config.js:53-61 | each app field is the argument value unless that is null or undefined, and the file value otherwise |
| Config.AdScriptsOut | src/config.js:62-64 | userList is the argument value unless that is null or undefined, and the file's user_list otherwise |
| Config.EmailOut | src/config.js:65-71 | each email field is the argument value unless that is null or undefined, and the file value otherwise |
| Config.CachePathNeverNull | src/config.js:57 | cachePath is never null, and it is undefined when neither source gives one |
| Config.SchoolsFromFileOnly | src/config.js:47 | schools comes from the file alone; the arguments never affect it |
| Config.NormalizeSections | src/config.js:46-72 | the result has exactly the keys schools, server, app, adScripts and email |
| Config.RuleOptionsNotCarried | src/config.js:53-61 | the app section has exactly its seven keys, so noWrite, outputMatched and group are undefined after normalizing |
| Config.AppSectionKeys | src/config.js:53-61 | the app section built from any inputs has exactly its seven keys |
| Config.MissingSectionIsUndefined | src/config.js:49-51 | a file with no server section gives undefined server fields, not an error |
| Config.FalsyArgumentsOverride | src/config.js:49-70 | the arguments false and 0 override the file's values, because only null and undefined fall back |
| Config.NullConfigFails | src/config.js:46-47 | a null or undefined configuration makes normalizing fail |

## Left out

- Floating-point numbers: `JsVal` numbers are integers. A fractional DCID or attribute is not modelled.
- Validate.StaffFields: `Joi.number()`'s default conversion of text is modelled for an optionally signed run of decimal digits with white space around it. Decimal-point and exponent forms ("4.0", "4e0"), Joi's unsafe-integer check, and non-integral text for the school's `count` are not modelled, because numbers are integers here.
- Validate.EngineStaff: staff entries without a `name`, which the schema accepts, are not modelled. The source raises a TypeError on them in `duplicatePSUserCheck` (`user.name.first_name`, src/compareRules/duplicatePSUserCheck.js:41), in `exclusionCheck` when the exclude list is non-empty (src/compareRules/exclusionCheck.js:7), and in the name finder at `first.toLowerCase()` (src/compareRules/helpers.js:15) whenever the account list is non-empty. In `compare`, which reads the names through `?.`, a nameless entry whose DCID matches strictly still gets its "DCID Matched" line, and with an empty account list an unmatched one gets "Not Found: … undefined, undefined; …".
- Validate.EngineStaff, Validate.EngineAd: the rules work on entries with a numeric `users_dcid` and accounts with a boolean `Enabled`. A record the schemas accept only through conversion (`users_dcid` "4", `Enabled` "false") is not followed through the rules, because the schemas only validate and their converted values never reach the engine.
- `toLowerCase` beyond ASCII: `Lower` lowers A-Z only.
- `parseInt` beyond base 10 and the `0x` prefix: no radix argument, no `Infinity`, no precision loss on long digit strings.
- `console.log` output, and the `goodMatch` and `badMatch` counters of `compare` that only feed it.
- `async`/`await`: every operation is sequential; no promise is ever pending.
- The PowerShell call inside `addAttribToUser`: the directory is a fixed set of accounts whose writes fail. The failure is the error value, not a process exit.
- The code that chains the rules is not part of this model: it is not among the repository's files. The runner in `pipeline.dfy` takes the rule order as a parameter.
- The unwrapping of `school.details.staffs.staff`: PowerSchool data is a sequence of schools, each a sequence of `Staff`. A school without `details` validates but is not one the engine can read.
- A configuration without an `app` object: every rule reads `config.app` as the record `Env.app`.
- The counters `successMatchesPS`, `disableUsersAD`, `failedPS` and `failedAD`, which `rules.js` documents but no rule updates.
- State.RunState.constructor: the repository builds no run state, so the constructor assumes that every counter a rule writes starts at 0. The names the rules write (`matchedDCID`, `disabledUserAD`, `noSync`) differ from the ones `rules.js` documents (`successMatchesPS`, `disableUsersAD`, and no `noSync`); a state built from the documented names alone would turn those increments into NaN, which is not modelled.
- `getConfig` and `setup` (YAML file reading, `process.exit`), `powerschool.js` (OAuth and HTTP), `mail.js`, `main.js` and `bin/ps2ad.js`: I/O outside the engine.

## Findings

| source | as written | input that shows it | evidently intended | confidence | as-written member | corrected member |
|---|---|---|---|---|---|---|
| src/compareRules/dcidMatchEmployeeID.js:16 | the log line reads the undeclared `users` and `manExtMatch`, so with outputMatched set a match raises a ReferenceError after counting it, and the SAM is never recorded | checkEmployeeID and outputMatched truthy, an account whose EmployeeID parses to the entry's DCID | log `user.users_dcid` and `extMatch.SamAccountName`, then record the SAM and return true | not executed | DcidMatchEmployeeIDRule.EmployeeIDLogRaises | DcidMatchEmployeeIDRule.EmployeeIDClaimsFirstMatch |
| src/compareRules/nameMatchCheck.js:22 | the module binds the directory integration as `rules` (line 2) but calls `activedirectory.addAttribToUser`, so every write raises a ReferenceError before writing | noWrite falsy and an account with the entry's first and last name | call `addAttribToUser` of the imported module, then count, log and record the match | not executed | NameMatchCheckRule.WriteBranchRaises | NameMatchCheckRule.WriteBackAccepted |
| src/compareRules/noSyncCheck.js:3 | the string-type guard reads `config.app.atribute` (misspelled), which is unset, so it tests the property "undefined" and the rule never fires | app `{attribute: "extensionAttribute1"}` and an account whose extensionAttribute1 is "ps2ad:no-sync" | guard on `config.app.attribute`, the key the equality reads | not executed | NoSyncRule.MarkedAccountMissedAsWritten | NoSyncRule.NoSyncFiresOnMarker |
