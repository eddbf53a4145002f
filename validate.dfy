/** The input schemas of src/validate.js, as well-formedness predicates over decoded
    JSON, and the typed views the reconciliation engine works on. */
module Validate {
  import opened Js

  /** `Joi.string()`: a string; Joi refuses the empty string unless it is allowed explicitly. */
  predicate JoiString(v: JsVal) {
    v.Str? && v.s != ""
  }

  /** Text that `Joi.number()` converts to an integer under its default `convert` option:
      white space, an optional sign, one or more decimal digits, white space. */
  predicate IntegerText(s: string) {
    var i := SkipSpace(s, 0);
    var j := if i < |s| && (s[i] == '-' || s[i] == '+') then i + 1 else i;
    var k := DigitEnd(s, j, 10);
    j < k && SkipSpace(s, k) == |s|
  }

  /** `Joi.number()`, and `.integer()` too since every modelled number is integral: a
      number, or a string that the default conversion turns into one. */
  predicate JoiNumber(v: JsVal) {
    v.Num? || (v.Str? && IntegerText(v.s))
  }

  /** `Joi.boolean()`: a boolean, or the string "true" or "false" in any letter case,
      which the default conversion turns into one. */
  predicate JoiBoolean(v: JsVal) {
    v.Bool? || (v.Str? && (Lower(v.s) == "true" || Lower(v.s) == "false"))
  }

  /** `.required()`: the key must be present (`undefined` counts as missing). */
  predicate Present(v: JsVal) {
    !v.Absent?
  }

  // ---------------------------------------------------------------------------
  // active_directory
  // ---------------------------------------------------------------------------

  /** One Active Directory record: four required typed keys; `.unknown(true)` lets any other key through. */
  predicate AdFields(r: Record) {
    JoiString(Field(r, "GivenName")) &&
    JoiString(Field(r, "Surname")) &&
    JoiBoolean(Field(r, "Enabled")) &&
    JoiString(Field(r, "SamAccountName"))
  }

  predicate AdItem(v: JsVal) {
    v.Obj? && AdFields(v.fields)
  }

  /** The `active_directory` schema: an array whose every item is an Active Directory record. */
  predicate ValidActiveDirectory(v: JsVal) {
    v.Arr? && forall i :: 0 <= i < |v.items| ==> AdItem(v.items[i])
  }

  // ---------------------------------------------------------------------------
  // powerschool
  // ---------------------------------------------------------------------------

  /** The `name` object of a staff entry: both names required, other keys allowed. */
  predicate NameItem(v: JsVal) {
    v.Obj? && JoiString(Field(v.fields, "first_name")) && JoiString(Field(v.fields, "last_name"))
  }

  /** One staff entry: an integer `users_dcid`, a `local_id` of any type, and, if present,
      a well-formed `name`; other keys allowed. */
  predicate StaffFields(r: Record) {
    JoiNumber(Field(r, "users_dcid")) &&
    Present(Field(r, "local_id")) &&
    (Field(r, "name").Absent? || NameItem(Field(r, "name")))
  }

  predicate StaffItem(v: JsVal) {
    v.Obj? && StaffFields(v.fields)
  }

  predicate StaffsItem(v: JsVal) {
    var staff := OptProp(v, "staff");
    v.Obj? && (staff.Absent? || (staff.Arr? && forall i :: 0 <= i < |staff.items| ==> StaffItem(staff.items[i])))
  }

  predicate DetailsItem(v: JsVal) {
    v.Obj? && (OptProp(v, "staffs").Absent? || StaffsItem(OptProp(v, "staffs")))
  }

  /** The keys a school object may carry: it has no `.unknown(true)`. */
  const SchoolKeys: set<string> := {"details", "count", "schoolName", "schoolID"}

  /** One school: numeric `count` and a present `schoolName` are required; `details`
      (and within it `staffs` and `staff`) and `schoolID` are optional. */
  predicate SchoolItem(v: JsVal) {
    v.Obj? &&
    (forall k :: k in v.fields ==> k in SchoolKeys) &&
    JoiNumber(OptProp(v, "count")) &&
    Present(OptProp(v, "schoolName")) &&
    (OptProp(v, "details").Absent? || DetailsItem(OptProp(v, "details")))
  }

  /** The `powerschool` schema: an array of schools. */
  predicate ValidPowerSchool(v: JsVal) {
    v.Arr? && forall i :: 0 <= i < |v.items| ==> SchoolItem(v.items[i])
  }

  // ---------------------------------------------------------------------------
  // The shapes the engine dereferences
  // ---------------------------------------------------------------------------

  /** A staff entry the rules can read: valid under the schema, with a numeric
      `users_dcid` and carrying its `name`. The name is required here because the
      duplicate and exclusion checks read `user.name.first_name` without a guard, and
      the name finder calls `toLowerCase` on the names that `compare` and `nameMatchCheck`
      read through `?.`. */
  predicate EngineStaff(r: Record) {
    StaffFields(r) && Field(r, "users_dcid").Num? && NameItem(Field(r, "name"))
  }

  /** An Active Directory record the rules can read: valid under the schema, with a
      boolean `Enabled`. */
  predicate EngineAd(r: Record) {
    AdFields(r) && Field(r, "Enabled").Bool?
  }

  type Staff = r: Record | EngineStaff(r)
    witness map["users_dcid" := Num(0), "local_id" := Null,
                "name" := Obj(map["first_name" := Str("A"), "last_name" := Str("A")])]

  type AdRecord = r: Record | EngineAd(r)
    witness map["GivenName" := Str("A"), "Surname" := Str("A"), "Enabled" := Bool(true),
                "SamAccountName" := Str("A")]

  function FirstName(u: Staff): string {
    OptProp(Field(u, "name"), "first_name").s
  }

  function LastName(u: Staff): string {
    OptProp(Field(u, "name"), "last_name").s
  }

  /** `users_dcid`, the PowerSchool identifier. */
  function Dcid(u: Staff): JsVal {
    Field(u, "users_dcid")
  }

  function LocalId(u: Staff): JsVal {
    Field(u, "local_id")
  }

  function GivenName(r: AdRecord): string {
    Field(r, "GivenName").s
  }

  function Surname(r: AdRecord): string {
    Field(r, "Surname").s
  }

  function Sam(r: AdRecord): string {
    Field(r, "SamAccountName").s
  }

  // ---------------------------------------------------------------------------
  // Properties of the schemas
  // ---------------------------------------------------------------------------

  /** Empty arrays are valid inputs for both schemas. */
  lemma EmptyArraysValid()
    ensures ValidActiveDirectory(Arr([]))
    ensures ValidPowerSchool(Arr([]))
  {
  }

  /** An Active Directory record keeps its validity whatever extra key it carries. */
  lemma AdExtraKeysAllowed(r: Record, k: string, v: JsVal)
    requires AdFields(r)
    requires k !in {"GivenName", "Surname", "Enabled", "SamAccountName"}
    ensures AdFields(r[k := v])
  {
    assert Field(r[k := v], "GivenName") == Field(r, "GivenName");
    assert Field(r[k := v], "Surname") == Field(r, "Surname");
    assert Field(r[k := v], "Enabled") == Field(r, "Enabled");
    assert Field(r[k := v], "SamAccountName") == Field(r, "SamAccountName");
  }

  /** The list accepts a record with the four typed keys; a record without `Enabled`,
      with an empty `GivenName`, or with an `Enabled` that is neither a boolean nor
      "true"/"false" in some letter case, is refused. "FALSE" is converted and accepted. */
  lemma AdRecordShape()
    ensures ValidActiveDirectory(Arr([Obj(map["GivenName" := Str("t"), "Surname" := Str("dev"),
      "Enabled" := Bool(true), "SamAccountName" := Str("testdev"), "extensionAttribute1" := Num(4)])]))
    ensures ValidActiveDirectory(Arr([Obj(map["GivenName" := Str("t"), "Surname" := Str("dev"),
      "Enabled" := Str("FALSE"), "SamAccountName" := Str("testdev")])]))
    ensures !ValidActiveDirectory(Arr([Obj(map["GivenName" := Str("t"), "Surname" := Str("dev"),
      "Enabled" := Str("yes"), "SamAccountName" := Str("testdev")])]))
    ensures !ValidActiveDirectory(Arr([Obj(map["GivenName" := Str("t"), "Surname" := Str("dev"),
      "Enabled" := Num(1), "SamAccountName" := Str("testdev")])]))
    ensures !ValidActiveDirectory(Arr([Obj(map["GivenName" := Str("t"), "Surname" := Str("dev"),
      "SamAccountName" := Str("testdev")])]))
    ensures !ValidActiveDirectory(Arr([Obj(map["GivenName" := Str(""), "Surname" := Str("dev"),
      "Enabled" := Bool(true), "SamAccountName" := Str("testdev")])]))
  {
    var upper := map["GivenName" := Str("t"), "Surname" := Str("dev"),
      "Enabled" := Str("FALSE"), "SamAccountName" := Str("testdev")];
    assert Field(upper, "Enabled") == Str("FALSE");
    assert Lower("FALSE") == "false";
    assert AdItem(Arr([Obj(upper)]).items[0]);
    var word := map["GivenName" := Str("t"), "Surname" := Str("dev"),
      "Enabled" := Str("yes"), "SamAccountName" := Str("testdev")];
    assert Field(word, "Enabled") == Str("yes");
    assert |Lower("yes")| == 3;
    assert !AdItem(Arr([Obj(word)]).items[0]);
    var one := map["GivenName" := Str("t"), "Surname" := Str("dev"),
      "Enabled" := Num(1), "SamAccountName" := Str("testdev")];
    assert Field(one, "Enabled") == Num(1);
    assert !AdItem(Arr([Obj(one)]).items[0]);
    var bad := map["GivenName" := Str("t"), "Surname" := Str("dev"), "SamAccountName" := Str("testdev")];
    assert Field(bad, "Enabled") == Absent;
    assert !AdItem(Arr([Obj(bad)]).items[0]);
    var empty := map["GivenName" := Str(""), "Surname" := Str("dev"),
      "Enabled" := Bool(true), "SamAccountName" := Str("testdev")];
    assert Field(empty, "GivenName") == Str("");
    assert !AdItem(Arr([Obj(empty)]).items[0]);
  }

  /** A staff entry needs an integer `users_dcid`, given as a number or as decimal text
      that the schema converts, and a present `local_id` (of any type, even `null`);
      extra keys are allowed. Text that is not an integer is refused. */
  lemma StaffShape()
    ensures StaffFields(map["users_dcid" := Num(4), "local_id" := Num(3), "admin_username" := Str("thedev"),
      "name" := Obj(map["first_name" := Str("The"), "last_name" := Str("Developer")])])
    ensures StaffFields(map["users_dcid" := Num(4), "local_id" := Null])
    ensures StaffFields(map["users_dcid" := Str(" -4 "), "local_id" := Num(3)])
    ensures !StaffFields(map["users_dcid" := Str("4x"), "local_id" := Num(3)])
    ensures !StaffFields(map["users_dcid" := Str(""), "local_id" := Num(3)])
    ensures !StaffFields(map["users_dcid" := Bool(true), "local_id" := Num(3)])
    ensures !StaffFields(map["users_dcid" := Num(4)])
  {
    var noLocal := map["users_dcid" := Num(4)];
    assert Field(noLocal, "local_id") == Absent;
    var strDcid := map["users_dcid" := Str(" -4 "), "local_id" := Num(3)];
    assert Field(strDcid, "users_dcid") == Str(" -4 ");
    assert SkipSpace(" -4 ", 0) == 1;
    assert DigitEnd(" -4 ", 2, 10) == 3;
    assert SkipSpace(" -4 ", 3) == 4;
    var suffix := map["users_dcid" := Str("4x"), "local_id" := Num(3)];
    assert Field(suffix, "users_dcid") == Str("4x");
    assert SkipSpace("4x", 0) == 0;
    assert DigitEnd("4x", 0, 10) == 1;
    assert SkipSpace("4x", 1) == 1;
    var blank := map["users_dcid" := Str(""), "local_id" := Num(3)];
    assert Field(blank, "users_dcid") == Str("");
    var flag := map["users_dcid" := Bool(true), "local_id" := Num(3)];
    assert Field(flag, "users_dcid") == Bool(true);
  }

  /** The decimal text of every integer is a number to the schema. */
  lemma {:induction false} IntegerTextOfIntToString(n: int)
    ensures JoiNumber(Str(IntToString(n)))
  {
    var s := IntToString(n);
    var d := NatToString(if n < 0 then -n else n);
    var j := if n < 0 then 1 else 0;
    assert s[j..] == d;
    assert SkipSpace(s, 0) == 0;
    assert forall k :: j <= k < |s| ==> '0' <= s[k] <= '9' by {
      forall k | j <= k < |s| ensures '0' <= s[k] <= '9' {
        assert s[k] == d[k - j];
      }
    }
    DigitEndAllDigits(s, j);
    assert SkipSpace(s, |s|) == |s|;
  }

  /** Every string the schema converts to a number is one `parseInt` also reads: the
      rules that apply `parseInt` to an identifier never see `NaN` for such text. */
  lemma IntegerTextIsParsed(s: string)
    requires IntegerText(s)
    ensures ParseInt(s).Some?
  {
    var i := SkipSpace(s, 0);
    var j := if i < |s| && (s[i] == '-' || s[i] == '+') then i + 1 else i;
    var k := DigitEnd(s, j, 10);
    assert IsDigit(s[j], 10);
    assert j + 1 < |s| ==> IsDigit(s[j + 1], 10) || IsJsSpace(s[j + 1]) by {
      if j + 1 < |s| && !IsDigit(s[j + 1], 10) {
        assert DigitEnd(s, j + 1, 10) == j + 1;
      }
    }
    assert ParseUnsignedAt(s, j) == ParseDigitsAt(s, j, 10);
  }

  /** A school with only `count` and `schoolName` validates: `details` is not required,
      although the engine reads `details.staffs.staff` unconditionally. Likewise a staff
      entry without `name` validates, although the rules read `name.first_name`. */
  lemma OptionalPartsValidate()
    ensures SchoolItem(Obj(map["count" := Num(0), "schoolName" := Str("North")]))
    ensures !SchoolItem(Obj(map["schoolName" := Str("North")]))
    ensures !SchoolItem(Obj(map["count" := Num(0), "schoolName" := Str("North"), "principal" := Str("x")]))
    ensures StaffFields(map["users_dcid" := Num(4), "local_id" := Num(3)])
    ensures !EngineStaff(map["users_dcid" := Num(4), "local_id" := Num(3)])
  {
    var noCount := Obj(map["schoolName" := Str("North")]);
    assert OptProp(noCount, "count") == Absent;
    var extra := map["count" := Num(0), "schoolName" := Str("North"), "principal" := Str("x")];
    assert "principal" in extra && "principal" !in SchoolKeys;
    var noName := map["users_dcid" := Num(4), "local_id" := Num(3)];
    assert Field(noName, "name") == Absent;
  }

  /** Every record the engine accepts is valid under the schema. */
  lemma EngineStaffIsValid(u: Staff)
    ensures StaffItem(Obj(u))
  {
  }
}
