/** `nameMatchCheck` (src/compareRules/nameMatchCheck.js): a staff entry with no DCID match
    but an Active Directory record of the same name gets its DCID written to that account,
    or, under `noWrite`, the write is only logged. */
module NameMatchCheckRule {
  import opened Js
  import opened Validate
  import opened State
  import opened Helpers

  /** The error the write branch raises as written: the module imports the directory
      integration under another name, so `activedirectory` is undeclared. */
  const ActiveDirectoryNotDefined: string := "ReferenceError: activedirectory is not defined"

  function AddLine(u: Staff, r: AdRecord): string {
    "Add DCID: " + ToStr(Dcid(u)) + " to " + Sam(r)
  }

  function AddedLine(u: Staff, r: AdRecord): string {
    "Successfully Added- DCID: " + ToStr(Dcid(u)) + " to " + Sam(r)
  }

  /** What the `noWrite` branch does with the account found. */
  function Logged(u: Staff, r: AdRecord, s: Snap): Snap {
    s.(nameMatchPS := s.nameMatchPS + 1,
       changeTable := s.changeTable + [AddLine(u, r)],
       foundSAMs := s.foundSAMs + [Sam(r)])
  }

  /** The rule as written: the write branch raises before it writes or counts anything. */
  function NameMatchCheckAsWritten(env: Env, u: Staff, s: Snap): StepResult {
    match FindByFirstLast(env.adData, FirstName(u), LastName(u))
    case None => StepResult(Pass, s)
    case Some(r) =>
      if Truthy(AppOption(env, "noWrite")) then StepResult(Claim, Logged(u, r, s))
      else StepResult(Throw(ActiveDirectoryNotDefined), s)
  }

  /** The rule as intended: the write goes to the directory; a refused write propagates
      (the call is made, nothing is counted), a successful one is counted and logged. */
  function NameMatchCheckStep(env: Env, u: Staff, s: Snap): StepResult {
    match FindByFirstLast(env.adData, FirstName(u), LastName(u))
    case None => StepResult(Pass, s)
    case Some(r) =>
      if Truthy(AppOption(env, "noWrite")) then StepResult(Claim, Logged(u, r, s))
      else
        var written := s.(writes := s.writes + [WriteCall(Sam(r), Dcid(u))]);
        match WriteOutcome(env.rejects, Sam(r))
        case Err(e) => StepResult(Throw(e), written)
        case Ok(_) =>
          StepResult(Claim, written.(nameMatchPS := s.nameMatchPS + 1,
                                     addedDCIDPS := s.addedDCIDPS + 1,
                                     changeTable := s.changeTable + [AddedLine(u, r)],
                                     foundSAMs := s.foundSAMs + [Sam(r)]))
  }

  method NameMatchCheck(user: Staff, st: RunState) returns (v: Verdict)
    modifies st, st.directory
    ensures StepResult(v, st.Snapshot()) == NameMatchCheckStep(st.Inputs(), user, old(st.Snapshot()))
  {
    hide FindByFirstLast, Lower, ToStr, AddLine, AddedLine;
    var nameMatch := AdFindByFirstLast(st.adData, FirstName(user), LastName(user));
    if nameMatch.None? {
      return Pass;
    }
    var r := nameMatch.value;
    if Truthy(Field(st.app, "noWrite")) {
      st.nameMatchPS := st.nameMatchPS + 1;
      st.changeTable := st.changeTable + [AddLine(user, r)];
      st.foundSAMs := st.foundSAMs + [Sam(r)];
      return Claim;
    }
    var ret := st.directory.AddAttribToUser(Sam(r), Dcid(user));
    if ret.Err? {
      return Throw(ret.error);
    }
    st.nameMatchPS := st.nameMatchPS + 1;
    st.addedDCIDPS := st.addedDCIDPS + 1;
    st.changeTable := st.changeTable + [AddedLine(user, r)];
    st.foundSAMs := st.foundSAMs + [Sam(r)];
    return Claim;
  }

  /** The rule passes, leaving the state alone, exactly when no record has the entry's
      first and last name (ignoring ASCII case). */
  lemma NameMatchPassIff(env: Env, u: Staff, s: Snap)
    ensures NameMatchCheckStep(env, u, s).verdict == Pass <==>
      forall j :: 0 <= j < |env.adData| ==> !NameMatches(env.adData[j], FirstName(u), LastName(u))
    ensures NameMatchCheckStep(env, u, s).verdict == Pass ==> NameMatchCheckStep(env, u, s).snap == s
  {
    hide Lower, ToStr, AddLine, AddedLine, WriteOutcome;
    FindByFirstLastNone(env.adData, FirstName(u), LastName(u));
  }

  /** Under `noWrite` the first record of the same name is claimed and logged, and the
      directory is not written. */
  lemma NoWriteOnlyLogs(env: Env, u: Staff, s: Snap, j: int)
    requires Truthy(AppOption(env, "noWrite"))
    requires FirstByName(env.adData, FirstName(u), LastName(u), j)
    ensures NameMatchCheckStep(env, u, s) == StepResult(Claim, Logged(u, env.adData[j], s))
    ensures NameMatchCheckStep(env, u, s).snap.writes == s.writes
    ensures NameMatchCheckStep(env, u, s).snap.foundSAMs == s.foundSAMs + [Sam(env.adData[j])]
  {
    hide Lower, ToStr, AddLine, AddedLine, WriteOutcome;
    FindByFirstLastFirst(env.adData, FirstName(u), LastName(u), j);
  }

  /** Otherwise the entry's DCID is written to the first record of the same name, exactly
      once; if the directory accepts it, the match and the addition are counted, logged
      and the account is recorded as found. */
  lemma WriteBackAccepted(env: Env, u: Staff, s: Snap, j: int)
    requires !Truthy(AppOption(env, "noWrite"))
    requires FirstByName(env.adData, FirstName(u), LastName(u), j)
    requires Sam(env.adData[j]) !in env.rejects
    ensures NameMatchCheckStep(env, u, s).verdict == Claim
    ensures NameMatchCheckStep(env, u, s).snap.writes == s.writes + [WriteCall(Sam(env.adData[j]), Dcid(u))]
    ensures NameMatchCheckStep(env, u, s).snap.nameMatchPS == s.nameMatchPS + 1
    ensures NameMatchCheckStep(env, u, s).snap.addedDCIDPS == s.addedDCIDPS + 1
    ensures NameMatchCheckStep(env, u, s).snap.changeTable == s.changeTable + [AddedLine(u, env.adData[j])]
    ensures NameMatchCheckStep(env, u, s).snap.foundSAMs == s.foundSAMs + [Sam(env.adData[j])]
  {
    hide Lower, ToStr, AddLine, AddedLine;
    FindByFirstLastFirst(env.adData, FirstName(u), LastName(u), j);
  }

  /** If the directory refuses the write, the error propagates: the call was made, and
      nothing is counted, logged or recorded. */
  lemma WriteBackRefused(env: Env, u: Staff, s: Snap, j: int)
    requires !Truthy(AppOption(env, "noWrite"))
    requires FirstByName(env.adData, FirstName(u), LastName(u), j)
    requires Sam(env.adData[j]) in env.rejects
    ensures NameMatchCheckStep(env, u, s).verdict.Throw?
    ensures NameMatchCheckStep(env, u, s).snap == s.(writes := s.writes + [WriteCall(Sam(env.adData[j]), Dcid(u))])
  {
    hide Lower, ToStr, AddLine, AddedLine;
    FindByFirstLastFirst(env.adData, FirstName(u), LastName(u), j);
  }

  /** As written, the write branch raises a ReferenceError for any name match: the
      directory is never written and nothing is counted, where the intended rule writes. */
  lemma WriteBranchRaises(env: Env, u: Staff, s: Snap, j: int)
    requires !Truthy(AppOption(env, "noWrite"))
    requires FirstByName(env.adData, FirstName(u), LastName(u), j)
    ensures NameMatchCheckAsWritten(env, u, s) == StepResult(Throw(ActiveDirectoryNotDefined), s)
    ensures NameMatchCheckStep(env, u, s).snap.writes == s.writes + [WriteCall(Sam(env.adData[j]), Dcid(u))]
  {
    hide Lower, ToStr, AddLine, AddedLine, WriteOutcome;
    FindByFirstLastFirst(env.adData, FirstName(u), LastName(u), j);
  }

  /** Under `noWrite` the code as written and the intended rule agree. */
  lemma NoWriteAgrees(env: Env, u: Staff, s: Snap)
    requires Truthy(AppOption(env, "noWrite"))
    ensures NameMatchCheckAsWritten(env, u, s) == NameMatchCheckStep(env, u, s)
  {
    hide Lower, ToStr, AddLine, AddedLine, WriteOutcome;
  }

  /** The addition counter moves only together with the name-match counter: every step
      raises `addedDCIDPS` by at most one, and only in a step that also raises
      `nameMatchPS` by one. */
  lemma AddedCountedWithNameMatch(env: Env, u: Staff, s: Snap)
    ensures var t := NameMatchCheckStep(env, u, s).snap;
      (t.addedDCIDPS == s.addedDCIDPS || t.addedDCIDPS == s.addedDCIDPS + 1) &&
      (t.addedDCIDPS == s.addedDCIDPS + 1 ==> t.nameMatchPS == s.nameMatchPS + 1)
  {
    hide Lower, ToStr, AddLine, AddedLine, WriteOutcome, FindByFirstLast;
  }
}
