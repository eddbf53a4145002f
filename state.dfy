/** The shared state every rule of src/compareRules/ receives (the signature described
    in src/compareRules/rules.js), and the directory the write-back reaches. */
module State {
  import opened Js
  import opened Validate

  /** One call of `addAttribToUser(user, attrib, config)`: the account and the value written. */
  datatype WriteCall = WriteCall(sam: string, dcid: JsVal)

  /** What the write-back does for an account: it resolves with "Success" unless the
      directory refuses the account, in which case the error propagates to the caller. */
  function WriteOutcome(rejects: set<string>, sam: string): (r: Result<string>)
    ensures r.Ok? <==> sam !in rejects
  {
    if sam in rejects then Err("Command failed: powershell.exe (" + sam + ")") else Ok("Success")
  }

  /** The Active Directory write-back of src/integrations/activedirectory.js. Which accounts
      the directory refuses is fixed for a run; the calls made to it are observable. */
  class Directory {
    const rejects: set<string>
    var writes: seq<WriteCall>

    constructor (rejects: set<string>)
      ensures this.rejects == rejects && writes == []
    {
      this.rejects := rejects;
      writes := [];
    }

    /** `addAttribToUser`: one call, recorded, with the outcome the directory gives. */
    method AddAttribToUser(sam: string, dcid: JsVal) returns (r: Result<string>)
      modifies this
      ensures writes == old(writes) + [WriteCall(sam, dcid)]
      ensures r == WriteOutcome(rejects, sam)
    {
      writes := writes + [WriteCall(sam, dcid)];
      r := WriteOutcome(rejects, sam);
    }
  }

  /** The inputs the rules read and never change: both data sets and `config.app`. */
  datatype Env = Env(psData: seq<seq<Staff>>, adData: seq<AdRecord>, app: Record, rejects: set<string>)

  /** Everything the rules may change, as a value. */
  datatype Snap = Snap(
    changeTable: seq<string>,
    foundSAMs: seq<string>,
    excludeList: seq<Staff>,
    matchedDCID: nat,
    successMatchesSecondaryPS: nat,
    nameMatchPS: nat,
    addedDCIDPS: nat,
    noSync: nat,
    noSyncAD: nat,
    disabledUserAD: nat,
    writes: seq<WriteCall>)

  /** How a rule ends: `false` (or `undefined`) lets the next rule run, `true` ends the
      record's processing, and an exception propagates out of the run. */
  datatype Verdict = Pass | Claim | Throw(error: string)

  /** A rule's verdict and the state it leaves behind (also when it throws: what it
      changed before the exception stays changed). */
  datatype StepResult = StepResult(verdict: Verdict, snap: Snap)

  /** The `state` object of a run. */
  class RunState {
    const psData: seq<seq<Staff>>
    const adData: seq<AdRecord>
    const app: Record
    const directory: Directory
    var changeTable: seq<string>
    var foundSAMs: seq<string>
    var excludeList: seq<Staff>
    var matchedDCID: nat
    var successMatchesSecondaryPS: nat
    var nameMatchPS: nat
    var addedDCIDPS: nat
    var noSync: nat
    var noSyncAD: nat
    var disabledUserAD: nat

    /** A fresh run: empty lists and zero counters. */
    constructor (psData: seq<seq<Staff>>, adData: seq<AdRecord>, app: Record, directory: Directory)
      ensures this.psData == psData && this.adData == adData && this.app == app
      ensures this.directory == directory
      ensures Snapshot() == Snap([], [], [], 0, 0, 0, 0, 0, 0, 0, directory.writes)
    {
      this.psData := psData;
      this.adData := adData;
      this.app := app;
      this.directory := directory;
      changeTable, foundSAMs, excludeList := [], [], [];
      matchedDCID, successMatchesSecondaryPS, nameMatchPS, addedDCIDPS := 0, 0, 0, 0;
      noSync, noSyncAD, disabledUserAD := 0, 0, 0;
    }

    function Inputs(): Env {
      Env(psData, adData, app, directory.rejects)
    }

    function Snapshot(): Snap
      reads this, directory
    {
      Snap(changeTable, foundSAMs, excludeList, matchedDCID, successMatchesSecondaryPS,
           nameMatchPS, addedDCIDPS, noSync, noSyncAD, disabledUserAD, directory.writes)
    }
  }

  /** The value of `config.app.<key>`. */
  function AppOption(env: Env, key: string): JsVal {
    Field(env.app, key)
  }

  /** The property name `config.app.attribute` denotes (the text "undefined" when unset). */
  function SyncAttribute(env: Env): string {
    PropertyKey(AppOption(env, "attribute"))
  }

  /** `changeTable.push(line)` when the flag is truthy. */
  function LogIf(flag: JsVal, table: seq<string>, line: string): (r: seq<string>)
    ensures Truthy(flag) ==> r == table + [line]
    ensures !Truthy(flag) ==> r == table
  {
    if Truthy(flag) then table + [line] else table
  }
}
