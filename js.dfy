/** The JavaScript values and primitives the reconciliation engine relies on:
    decoded JSON plus `undefined`, truthiness, `??`, `===`, template-string
    rendering, `parseInt`, `toLowerCase` and `startsWith`. */
module Js {

  datatype Option<T> = None | Some(value: T)

  datatype Result<T> = Ok(value: T) | Err(error: string)

  /** A value as the engine sees it. Numbers are integral; `Absent` is `undefined`. */
  datatype JsVal =
    | Str(s: string)
    | Num(n: int)
    | Bool(b: bool)
    | Arr(items: seq<JsVal>)
    | Obj(fields: map<string, JsVal>)
    | Null
    | Absent

  /** A plain object, such as one Active Directory record or one staff entry. */
  type Record = map<string, JsVal>

  /** `r[key]`: a missing key reads as `undefined`. */
  function Field(r: Record, key: string): JsVal {
    if key in r then r[key] else Absent
  }

  /** `v?.key`, and `v.key` on a value that is not nullish: only objects have the keys read here. */
  function OptProp(v: JsVal, key: string): JsVal {
    if v.Obj? then Field(v.fields, key) else Absent
  }

  predicate Nullish(v: JsVal) {
    v.Null? || v.Absent?
  }

  /** `a ?? b` */
  function Coalesce(a: JsVal, b: JsVal): (r: JsVal)
    ensures !Nullish(a) ==> r == a
    ensures Nullish(a) ==> r == b
  {
    if Nullish(a) then b else a
  }

  /** JavaScript truthiness (`if (v)`, `!v`). */
  predicate Truthy(v: JsVal) {
    match v
    case Str(s) => s != ""
    case Num(n) => n != 0
    case Bool(b) => b
    case Arr(_) => true
    case Obj(_) => true
    case Null => false
    case Absent => false
  }

  /** `a === b`. Arrays and objects compare by identity, which a value model does not keep:
      two of them are never taken to be the same object. */
  predicate StrictEq(a: JsVal, b: JsVal) {
    match (a, b)
    case (Str(x), Str(y)) => x == y
    case (Num(x), Num(y)) => x == y
    case (Bool(x), Bool(y)) => x == y
    case (Null, Null) => true
    case (Absent, Absent) => true
    case _ => false
  }

  // ---------------------------------------------------------------------------
  // String conversion (template literals, property keys)
  // ---------------------------------------------------------------------------

  function DigitChar(d: nat): (c: char)
    requires d < 10
    ensures '0' <= c <= '9'
  {
    (('0' as int) + d) as char
  }

  /** Decimal digits of a natural number, most significant first. */
  function NatToString(n: nat): (s: string)
    ensures |s| > 0 && forall i :: 0 <= i < |s| ==> '0' <= s[i] <= '9'
    ensures n >= 10 ==> |s| >= 2
  {
    if n < 10 then [DigitChar(n)] else NatToString(n / 10) + [DigitChar(n % 10)]
  }

  /** `String(n)` for an integral number. */
  function IntToString(n: int): string {
    if n < 0 then "-" + NatToString(-n) else NatToString(n)
  }

  /** `String(v)`, as used by `${v}` in a template literal and by `obj[v]` for the key. */
  function ToStr(v: JsVal): string
    decreases v, 1, 0
  {
    match v
    case Str(s) => s
    case Num(n) => IntToString(n)
    case Bool(b) => if b then "true" else "false"
    case Null => "null"
    case Absent => "undefined"
    case Obj(_) => "[object Object]"
    case Arr(items) => JoinPrefix(v, |items|)
  }

  /** `Array.prototype.join(",")` over the first n items of an array: `null` and
      `undefined` items render as the empty string. */
  function JoinPrefix(v: JsVal, n: nat): string
    requires v.Arr? && n <= |v.items|
    decreases v, 0, n
  {
    if n == 0 then ""
    else
      var e := v.items[n - 1];
      var t := if Nullish(e) then "" else ToStr(e);
      if n == 1 then t else JoinPrefix(v, n - 1) + "," + t
  }

  /** The property key a value denotes in `obj[v]`. */
  function PropertyKey(v: JsVal): string {
    ToStr(v)
  }

  // ---------------------------------------------------------------------------
  // parseInt
  // ---------------------------------------------------------------------------

  /** The characters `parseInt` skips before the number (WhiteSpace and LineTerminator). */
  predicate IsJsSpace(c: char) {
    var n := c as int;
    n == 0x09 || n == 0x0A || n == 0x0B || n == 0x0C || n == 0x0D || n == 0x20 ||
    n == 0xA0 || n == 0x1680 || (0x2000 <= n <= 0x200A) || n == 0x2028 || n == 0x2029 ||
    n == 0x202F || n == 0x205F || n == 0x3000 || n == 0xFEFF
  }

  /** The index of the first character at or after i that `parseInt` does not skip. */
  function SkipSpace(s: string, i: nat): (j: nat)
    requires i <= |s|
    ensures i <= j <= |s|
    decreases |s| - i
  {
    if i < |s| && IsJsSpace(s[i]) then SkipSpace(s, i + 1) else i
  }

  predicate IsDigit(c: char, radix: nat) {
    ('0' <= c <= '9' && (c as int - '0' as int) < radix) ||
    (radix == 16 && ('a' <= c <= 'f' || 'A' <= c <= 'F'))
  }

  /** The value of c as a digit in the radix (10 or 16); 0 for any other character. */
  function DigitOf(c: char): nat {
    if '0' <= c <= '9' then c as int - '0' as int
    else if 'a' <= c <= 'f' then c as int - 'a' as int + 10
    else if 'A' <= c <= 'F' then c as int - 'A' as int + 10
    else 0
  }

  /** The end of the longest run of digits in the radix that starts at i. */
  function DigitEnd(s: string, i: nat, radix: nat): (j: nat)
    requires i <= |s|
    ensures i <= j <= |s|
    decreases |s| - i
  {
    if i < |s| && IsDigit(s[i], radix) then DigitEnd(s, i + 1, radix) else i
  }

  /** The number that the digits s[lo..hi] denote, most significant digit first. */
  function DigitsValue(s: string, lo: nat, hi: nat, radix: nat): nat
    requires lo <= hi <= |s|
    decreases hi
  {
    if hi == lo then 0 else DigitsValue(s, lo, hi - 1, radix) * radix + DigitOf(s[hi - 1])
  }

  /** The run of digits starting at i, read in the radix; `None` if there is none. */
  function ParseDigitsAt(s: string, i: nat, radix: nat): Option<nat>
    requires i <= |s|
  {
    var j := DigitEnd(s, i, radix);
    if j == i then None else Some(DigitsValue(s, i, j, radix))
  }

  /** The digits after the sign, which starts at i: a `0x`/`0X` prefix selects hexadecimal. */
  function ParseUnsignedAt(s: string, i: nat): Option<nat>
    requires i <= |s|
  {
    if i + 2 <= |s| && s[i] == '0' && (s[i + 1] == 'x' || s[i + 1] == 'X') then ParseDigitsAt(s, i + 2, 16)
    else ParseDigitsAt(s, i, 10)
  }

  /** `parseInt(s)` with no radix: leading white space, an optional sign, then the
      digits. `None` stands for `NaN` (no digits at all). */
  function ParseInt(s: string): Option<int> {
    var i := SkipSpace(s, 0);
    if i < |s| && (s[i] == '-' || s[i] == '+') then
      match ParseUnsignedAt(s, i + 1)
      case None => None
      case Some(m) => Some(if s[i] == '-' then -(m as int) else m)
    else
      match ParseUnsignedAt(s, i)
      case None => None
      case Some(m) => Some(m)
  }

  /** `parseInt(v)` on any value: JavaScript converts the argument to a string first. */
  function ParseIntVal(v: JsVal): Option<int> {
    ParseInt(ToStr(v))
  }

  lemma {:induction false} DigitEndAllDigits(s: string, i: nat)
    requires i <= |s|
    requires forall k :: i <= k < |s| ==> '0' <= s[k] <= '9'
    ensures DigitEnd(s, i, 10) == |s|
    decreases |s| - i
  {
    if i < |s| {
      DigitEndAllDigits(s, i + 1);
    }
  }

  /** The value of a run of digits depends only on those digits, wherever they stand. */
  lemma {:induction false} DigitsValueShift(s: string, t: string, a: nat, b: nat, n: nat)
    requires a + n <= |s| && b + n <= |t|
    requires s[a..a + n] == t[b..b + n]
    ensures DigitsValue(s, a, a + n, 10) == DigitsValue(t, b, b + n, 10)
  {
    if n > 0 {
      assert s[a..a + n - 1] == s[a..a + n][..n - 1];
      assert t[b..b + n - 1] == t[b..b + n][..n - 1];
      DigitsValueShift(s, t, a, b, n - 1);
      assert s[a + n - 1] == s[a..a + n][n - 1];
      assert t[b + n - 1] == t[b..b + n][n - 1];
    }
  }

  lemma {:induction false} DigitsValueOfNatToString(n: nat)
    ensures DigitsValue(NatToString(n), 0, |NatToString(n)|, 10) == n
  {
    var s := NatToString(n);
    if n >= 10 {
      var p := NatToString(n / 10);
      DigitsValueOfNatToString(n / 10);
      assert |s| == |p| + 1;
      DigitsValueShift(s, p, 0, 0, |p|);
      assert DigitOf(s[|s| - 1]) == n % 10;
    }
  }

  lemma {:induction false} ParseIntOfNatToString(m: nat)
    ensures ParseInt(NatToString(m)) == Some(m)
  {
    var d := NatToString(m);
    DigitsValueOfNatToString(m);
    assert SkipSpace(d, 0) == 0 by { assert !IsJsSpace(d[0]); }
    assert !(2 <= |d| && d[0] == '0') by {
      if m >= 10 { assert d[0] == NatToString(m / 10)[0]; NatToStringNoLeadingZero(m / 10); }
    }
    DigitEndAllDigits(d, 0);
  }

  lemma {:induction false} NatToStringNoLeadingZero(m: nat)
    requires m > 0
    ensures NatToString(m)[0] != '0'
  {
    if m >= 10 {
      NatToStringNoLeadingZero(m / 10);
    }
  }

  lemma {:induction false} ParseIntOfNegative(m: nat)
    requires m > 0
    ensures ParseInt("-" + NatToString(m)) == Some(-(m as int))
  {
    var d := NatToString(m);
    var s := "-" + d;
    DigitsValueOfNatToString(m);
    assert SkipSpace(s, 0) == 0;
    assert s[1] == d[0];
    NatToStringNoLeadingZero(m);
    assert DigitEnd(s, 1, 10) == |s| by { DigitEndAllDigits(s, 1); }
    assert s[1..1 + |d|] == d[0..|d|];
    DigitsValueShift(s, d, 1, 0, |d|);
  }

  /** Rendering an integer and parsing it back gives the integer: an attribute
      holding the number n matches n under `parseInt`. */
  lemma {:induction false} ParseIntOfIntToString(n: int)
    ensures ParseInt(IntToString(n)) == Some(n)
  {
    if n < 0 {
      ParseIntOfNegative(-n);
    } else {
      ParseIntOfNatToString(n);
    }
  }

  /** A string that begins with digits parses to their value, whatever follows:
      `parseInt("4x")` is 4. */
  lemma ParseIntNumericPrefix()
    ensures ParseInt("4x") == Some(4)
  {
  }

  /** White space and a sign may precede the digits. */
  lemma ParseIntSignedPrefix()
    ensures ParseInt(" -12a") == Some(-12)
  {
  }

  /** A `0x` prefix reads the digits as hexadecimal. */
  lemma ParseIntHexPrefix()
    ensures ParseInt("0x1A") == Some(26)
  {
  }

  /** Strings with no leading digit, such as the rendering of a missing value, are NaN. */
  lemma ParseIntNoDigits()
    ensures ParseIntVal(Absent) == None
    ensures ParseIntVal(Null) == None
    ensures ParseIntVal(Bool(true)) == None
    ensures ParseInt("") == None
    ensures ParseInt("0x") == None
  {
  }

  // ---------------------------------------------------------------------------
  // Strings
  // ---------------------------------------------------------------------------

  function LowerChar(c: char): char {
    if 'A' <= c <= 'Z' then (c as int + 32) as char else c
  }

  /** `toLowerCase`, on the ASCII letters. */
  function Lower(s: string): (r: string)
    ensures |r| == |s| && forall i :: 0 <= i < |s| ==> r[i] == LowerChar(s[i])
  {
    seq(|s|, i requires 0 <= i < |s| => LowerChar(s[i]))
  }

  predicate StartsWith(s: string, prefix: string) {
    |prefix| <= |s| && s[..|prefix|] == prefix
  }
}
