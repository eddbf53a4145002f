/** The Active Directory searches of src/compareRules/helpers.js, and the strict-equality
    variant local to src/integrations/compare.js. Each search is a loop that returns the
    first record satisfying a test; the test is a predicate on one record, and the
    first-match function below is the specification all three loops are proved against. */
module Helpers {
  import opened Js
  import opened Validate

  /** The index of the first record satisfying p, or None when no record does. */
  function FirstMatch(ad: seq<AdRecord>, p: AdRecord -> bool): (r: Option<nat>)
    ensures r.Some? ==> r.value < |ad| && p(ad[r.value])
    ensures r.Some? ==> forall j :: 0 <= j < r.value ==> !p(ad[j])
    ensures r.None? <==> forall j :: 0 <= j < |ad| ==> !p(ad[j])
    decreases |ad|
  {
    if |ad| == 0 then None
    else if p(ad[0]) then Some(0)
    else
      match FirstMatch(ad[1..], p)
      case None => None
      case Some(k) => Some(k + 1)
  }

  /** The record at a search result: `adData[i]`, or `null`. */
  function RecordAt(ad: seq<AdRecord>, i: Option<nat>): Option<AdRecord> {
    if i.Some? && i.value < |ad| then Some(ad[i.value]) else None
  }

  /** `GivenName` and `Surname` equal the names given, both sides lowered. */
  predicate NameMatches(r: AdRecord, first: string, last: string) {
    Lower(GivenName(r)) == Lower(first) && Lower(Surname(r)) == Lower(last)
  }

  /** `parseInt(record[attr]) === ext`: NaN equals nothing, so a missing or non-numeric
      attribute never matches. */
  predicate AttributeMatches(r: AdRecord, ext: JsVal, attr: string) {
    var parsed := ParseIntVal(Field(r, attr));
    parsed.Some? && ext == Num(parsed.value)
  }

  /** `record[attr] === ext`, without any conversion. */
  predicate StrictAttributeMatches(r: AdRecord, ext: JsVal, attr: string) {
    StrictEq(Field(r, attr), ext)
  }

  function FindByFirstLast(ad: seq<AdRecord>, first: string, last: string): Option<AdRecord> {
    RecordAt(ad, FirstMatch(ad, (r: AdRecord) => NameMatches(r, first, last)))
  }

  function FindByAttribute(ad: seq<AdRecord>, ext: JsVal, attr: string): Option<AdRecord> {
    RecordAt(ad, FirstMatch(ad, (r: AdRecord) => AttributeMatches(r, ext, attr)))
  }

  function FindByStrictAttribute(ad: seq<AdRecord>, ext: JsVal, attr: string): Option<AdRecord> {
    RecordAt(ad, FirstMatch(ad, (r: AdRecord) => StrictAttributeMatches(r, ext, attr)))
  }

  /** `adFindByFirstLast`: the first record whose lowered names equal the lowered
      arguments, or `null` when none does. */
  method AdFindByFirstLast(adData: seq<AdRecord>, first: string, last: string) returns (m: Option<AdRecord>)
    ensures m == FindByFirstLast(adData, first, last)
  {
    ghost var p := (r: AdRecord) => NameMatches(r, first, last);
    var i := 0;
    while i < |adData|
      invariant 0 <= i <= |adData|
      invariant forall j :: 0 <= j < i ==> !NameMatches(adData[j], first, last)
    {
      if Lower(GivenName(adData[i])) == Lower(first) && Lower(Surname(adData[i])) == Lower(last) {
        assert FirstMatch(adData, p) == Some(i);
        return Some(adData[i]);
      }
      i := i + 1;
    }
    return None;
  }

  /** `adFindByAttribute`: the first record whose attribute parses to `ext`, or `null`. */
  method AdFindByAttribute(adData: seq<AdRecord>, ext: JsVal, attr: string) returns (m: Option<AdRecord>)
    ensures m == FindByAttribute(adData, ext, attr)
  {
    hide ParseIntVal;
    ghost var p := (r: AdRecord) => AttributeMatches(r, ext, attr);
    var i := 0;
    while i < |adData|
      invariant 0 <= i <= |adData|
      invariant forall j :: 0 <= j < i ==> !AttributeMatches(adData[j], ext, attr)
    {
      if AttributeMatches(adData[i], ext, attr) {
        assert FirstMatch(adData, p) == Some(i);
        return Some(adData[i]);
      }
      i := i + 1;
    }
    return None;
  }

  /** The search local to compare.js: the first record whose attribute is `=== ext`. */
  method AdFindByStrictAttribute(adData: seq<AdRecord>, ext: JsVal, attr: string) returns (m: Option<AdRecord>)
    ensures m == FindByStrictAttribute(adData, ext, attr)
  {
    hide StrictEq, Field;
    ghost var p := (r: AdRecord) => StrictAttributeMatches(r, ext, attr);
    var i := 0;
    while i < |adData|
      invariant 0 <= i <= |adData|
      invariant forall j :: 0 <= j < i ==> !StrictAttributeMatches(adData[j], ext, attr)
    {
      if StrictEq(Field(adData[i], attr), ext) {
        assert FirstMatch(adData, p) == Some(i);
        return Some(adData[i]);
      }
      i := i + 1;
    }
    return None;
  }

  // ---------------------------------------------------------------------------
  // Properties of the searches
  // ---------------------------------------------------------------------------

  /** The name search ignores ASCII case on both sides. */
  lemma NameSearchIgnoresCase()
    ensures FindByFirstLast([map["GivenName" := Str("The"), "Surname" := Str("Developer"),
      "Enabled" := Bool(true), "SamAccountName" := Str("thDeveloper")]], "tHE", "DEVELOPER").Some?
  {
    var r: AdRecord := map["GivenName" := Str("The"), "Surname" := Str("Developer"),
      "Enabled" := Bool(true), "SamAccountName" := Str("thDeveloper")];
    assert Lower("The") == Lower("tHE");
    assert Lower("Developer") == Lower("DEVELOPER");
    assert NameMatches(r, "tHE", "DEVELOPER");
  }

  /** Text in which no decimal digit follows the leading white space and optional sign. */
  predicate NoLeadingDigit(s: string) {
    var i := SkipSpace(s, 0);
    var j := if i < |s| && (s[i] == '-' || s[i] == '+') then i + 1 else i;
    j == |s| || !('0' <= s[j] <= '9')
  }

  /** An attribute whose string form has no digit after the white space and sign parses
      to NaN and matches no `ext`. This covers a missing attribute ("undefined"), `null`,
      the booleans, the empty string and text such as "x4" or " -a1", and any object or
      array whose string form is such text. */
  lemma NonNumericNeverMatches(r: AdRecord, ext: JsVal, attr: string)
    requires NoLeadingDigit(ToStr(Field(r, attr)))
    ensures ParseIntVal(Field(r, attr)) == None
    ensures !AttributeMatches(r, ext, attr)
  {
    var s := ToStr(Field(r, attr));
    var i := SkipSpace(s, 0);
    var j := if i < |s| && (s[i] == '-' || s[i] == '+') then i + 1 else i;
    assert DigitEnd(s, j, 10) == j;
    assert ParseUnsignedAt(s, j) == None;
  }

  /** The attribute search compares after `parseInt`: the string "4x" matches dcid 4,
      which the strict search of compare.js does not. */
  lemma NumericPrefixMatches()
    ensures FindByAttribute([map["GivenName" := Str("t"), "Surname" := Str("dev"), "Enabled" := Bool(true),
      "SamAccountName" := Str("testdev"), "extensionAttribute1" := Str("4x")]], Num(4), "extensionAttribute1").Some?
    ensures FindByStrictAttribute([map["GivenName" := Str("t"), "Surname" := Str("dev"), "Enabled" := Bool(true),
      "SamAccountName" := Str("testdev"), "extensionAttribute1" := Str("4x")]], Num(4), "extensionAttribute1").None?
  {
    var r: AdRecord := map["GivenName" := Str("t"), "Surname" := Str("dev"), "Enabled" := Bool(true),
      "SamAccountName" := Str("testdev"), "extensionAttribute1" := Str("4x")];
    ParseIntNumericPrefix();
    assert Field(r, "extensionAttribute1") == Str("4x");
    assert AttributeMatches(r, Num(4), "extensionAttribute1");
    assert !StrictAttributeMatches(r, Num(4), "extensionAttribute1");
  }

  /** An integral attribute written out as a decimal string matches its number under
      `parseInt`, but never under `===`. */
  lemma {:induction false} DecimalAttributeMatches(r: AdRecord, n: int, attr: string)
    requires Field(r, attr) == Str(IntToString(n))
    ensures AttributeMatches(r, Num(n), attr)
    ensures !StrictAttributeMatches(r, Num(n), attr)
  {
    ParseIntOfIntToString(n);
  }

  /** j is the first index whose record satisfies p. */
  predicate IsFirst(ad: seq<AdRecord>, p: AdRecord -> bool, j: int) {
    0 <= j < |ad| && p(ad[j]) && forall k :: 0 <= k < j ==> !p(ad[k])
  }

  /** The first-match function returns exactly the first satisfying index. */
  lemma {:induction false} FirstMatchIsFirst(ad: seq<AdRecord>, p: AdRecord -> bool, j: int)
    requires IsFirst(ad, p, j)
    ensures FirstMatch(ad, p) == Some(j)
    ensures RecordAt(ad, FirstMatch(ad, p)) == Some(ad[j])
  {
    var k := FirstMatch(ad, p);
    assert k.Some?;
    assert !(k.value < j) && !(j < k.value);
  }

  /** The first-match function finds something exactly when some record satisfies p,
      and then it is the first such record. */
  lemma FirstMatchExists(ad: seq<AdRecord>, p: AdRecord -> bool)
    ensures RecordAt(ad, FirstMatch(ad, p)).None? <==> forall j :: 0 <= j < |ad| ==> !p(ad[j])
    ensures RecordAt(ad, FirstMatch(ad, p)).Some? ==>
      exists j :: IsFirst(ad, p, j) && RecordAt(ad, FirstMatch(ad, p)) == Some(ad[j])
  {
    if FirstMatch(ad, p).Some? {
      assert IsFirst(ad, p, FirstMatch(ad, p).value);
    }
  }

  /** j is the first record whose lowered names match. */
  predicate FirstByName(ad: seq<AdRecord>, first: string, last: string, j: int) {
    0 <= j < |ad| && NameMatches(ad[j], first, last)
    && forall k :: 0 <= k < j ==> !NameMatches(ad[k], first, last)
  }

  /** j is the first record whose attribute parses to the number sought. */
  predicate FirstByAttribute(ad: seq<AdRecord>, ext: JsVal, attr: string, j: int) {
    0 <= j < |ad| && AttributeMatches(ad[j], ext, attr)
    && forall k :: 0 <= k < j ==> !AttributeMatches(ad[k], ext, attr)
  }

  /** j is the first record whose attribute is `===` to the value sought. */
  predicate FirstByStrictAttribute(ad: seq<AdRecord>, ext: JsVal, attr: string, j: int) {
    0 <= j < |ad| && StrictAttributeMatches(ad[j], ext, attr)
    && forall k :: 0 <= k < j ==> !StrictAttributeMatches(ad[k], ext, attr)
  }

  /** The name search returns the first record whose lowered names match. */
  lemma FindByFirstLastFirst(ad: seq<AdRecord>, first: string, last: string, j: int)
    requires FirstByName(ad, first, last, j)
    ensures FindByFirstLast(ad, first, last) == Some(ad[j])
  {
    FirstMatchIsFirst(ad, (r: AdRecord) => NameMatches(r, first, last), j);
  }

  /** The name search returns `null` exactly when no record matches. */
  lemma FindByFirstLastNone(ad: seq<AdRecord>, first: string, last: string)
    ensures FindByFirstLast(ad, first, last).None? <==> forall j :: 0 <= j < |ad| ==> !NameMatches(ad[j], first, last)
  {
    FirstMatchExists(ad, (r: AdRecord) => NameMatches(r, first, last));
  }

  /** The attribute search returns the first record whose attribute parses to `ext`. */
  lemma FindByAttributeFirst(ad: seq<AdRecord>, ext: JsVal, attr: string, j: int)
    requires FirstByAttribute(ad, ext, attr, j)
    ensures FindByAttribute(ad, ext, attr) == Some(ad[j])
  {
    hide ParseIntVal;
    FirstMatchIsFirst(ad, (r: AdRecord) => AttributeMatches(r, ext, attr), j);
  }

  /** The attribute search returns `null` exactly when no attribute parses to `ext`. */
  lemma FindByAttributeNone(ad: seq<AdRecord>, ext: JsVal, attr: string)
    ensures FindByAttribute(ad, ext, attr).None? <==> forall j :: 0 <= j < |ad| ==> !AttributeMatches(ad[j], ext, attr)
  {
    hide ParseIntVal;
    FirstMatchExists(ad, (r: AdRecord) => AttributeMatches(r, ext, attr));
  }

  /** The strict search returns the first record whose attribute is `=== ext`. */
  lemma FindByStrictAttributeFirst(ad: seq<AdRecord>, ext: JsVal, attr: string, j: int)
    requires FirstByStrictAttribute(ad, ext, attr, j)
    ensures FindByStrictAttribute(ad, ext, attr) == Some(ad[j])
  {
    FirstMatchIsFirst(ad, (r: AdRecord) => StrictAttributeMatches(r, ext, attr), j);
  }

  /** The strict search returns `null` exactly when no attribute is `=== ext`. */
  lemma FindByStrictAttributeNone(ad: seq<AdRecord>, ext: JsVal, attr: string)
    ensures FindByStrictAttribute(ad, ext, attr).None? <==> forall j :: 0 <= j < |ad| ==> !StrictAttributeMatches(ad[j], ext, attr)
  {
    FirstMatchExists(ad, (r: AdRecord) => StrictAttributeMatches(r, ext, attr));
  }
}
