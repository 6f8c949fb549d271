/** The JavaScript values the import script reads from its JSON fixtures, and
    the few language operations it applies to them: truthiness (`||`),
    nullishness (`??`), property access, `String(...)` and `parseInt(..., 10)`. */
module JsValue {
  import opened Outcomes

  /** A parsed JSON value, plus `undefined` (what reading a missing property
      yields) and the opaque server-timestamp marker the script stores. */
  datatype Value =
    | Undefined
    | Null
    | Bool(b: bool)
    | Int(i: int)
    | Str(s: string)
    | Arr(items: seq<Value>)
    | Obj(fields: map<string, Value>)
    | ServerTimestamp

  /** `v == null || v === undefined`, the test behind `??`. */
  predicate Nullish(v: Value) {
    v.Undefined? || v.Null?
  }

  /** JavaScript truthiness, the test behind `||`: only undefined, null,
      false, 0 and "" are falsy; every array and object is truthy. */
  predicate Truthy(v: Value)
    ensures Truthy(v) ==> !Nullish(v)
  {
    match v
    case Undefined => false
    case Null => false
    case Bool(b) => b
    case Int(i) => i != 0
    case Str(s) => s != ""
    case _ => true
  }

  /** `a || b` */
  function Or(a: Value, b: Value): (r: Value)
    ensures r == a || r == b
    ensures Truthy(r) <==> Truthy(a) || Truthy(b)
  {
    if Truthy(a) then a else b
  }

  /** `a ?? b` */
  function Coalesce(a: Value, b: Value): (r: Value)
    ensures r == a || r == b
    ensures Nullish(r) <==> Nullish(a) && Nullish(b)
  {
    if Nullish(a) then b else a
  }

  /** `v.key` on a value that is not null or undefined: an own field of an
      object, and undefined for every other kind of value. Callers raise the
      TypeError for a nullish `v` themselves. */
  function Field(v: Value, key: string): (r: Value)
    ensures !r.Undefined? ==> v.Obj? && key in v.fields && r == v.fields[key]
  {
    if v.Obj? && key in v.fields then v.fields[key] else Undefined
  }

  // ---------------------------------------------------------------------
  // Decimal text

  predicate IsDigit(c: char) {
    '0' <= c <= '9'
  }

  function DigitChar(d: nat): (c: char)
    requires d < 10
    ensures IsDigit(c) && DigitValue(c) == d
  {
    "0123456789"[d]
  }

  function DigitValue(c: char): nat
    requires IsDigit(c)
  {
    (c as int - '0' as int) as nat
  }

  /** Decimal text of a natural number, most significant digit first. */
  function NatToString(n: nat): (r: string)
    ensures |r| > 0 && IsDigit(r[0])
    decreases n
  {
    if n < 10 then [DigitChar(n)] else NatToString(n / 10) + [DigitChar(n % 10)]
  }

  /** `String(n)` for an integer. */
  function IntToString(n: int): (r: string)
    ensures |r| > 0 && (r[0] == '-' <==> n < 0)
  {
    if n < 0 then "-" + NatToString(-n) else NatToString(n)
  }

  /** `parts.join(sep)` */
  function Join(parts: seq<string>, sep: string): string
    decreases |parts|
  {
    if |parts| == 0 then ""
    else if |parts| == 1 then parts[0]
    else parts[0] + sep + Join(parts[1..], sep)
  }

  /** Whether `String(v)` raises a TypeError. A JSON object with its own
      `toString` key hides the inherited method behind a value that cannot
      be called, and the fallback `valueOf` gives back the object itself,
      which is no primitive. An array converts its elements through `join`,
      so it raises when one of them does; null and undefined elements never
      do. */
  predicate StringThrows(v: Value)
    decreases v
  {
    match v
    case Obj(fields) => "toString" in fields
    case Arr(items) => exists k :: 0 <= k < |items| && StringThrows(items[k])
    case _ => false
  }

  /** `String(v)`, which is also what `v.toString()` gives on a truthy value.
      An array joins its elements with commas, null and undefined elements
      becoming empty strings; an object prints as "[object Object]". Callers
      raise the TypeError for a value where StringThrows holds themselves. */
  function ToString(v: Value): (r: string)
    requires !StringThrows(v)
    ensures v.Int? ==> ParseInt(r) == Some(v.i)
    ensures v.Str? ==> r == v.s
    ensures v.Bool? || Nullish(v) || v.Obj? ==> ParseInt(r).None?
    decreases v
  {
    match v
    case Undefined => ParseIntNaN("undefined"); "undefined"
    case Null => ParseIntNaN("null"); "null"
    case Bool(b) => ParseIntNaN("true"); ParseIntNaN("false"); if b then "true" else "false"
    case Int(i) => ParseIntOfIntToString(i); IntToString(i)
    case Str(s) => s
    case Arr(items) =>
      Join(seq(|items|, k requires 0 <= k < |items| =>
                 if Nullish(items[k]) then "" else ToString(items[k])), ",")
    case Obj(_) => ParseIntNaN("[object Object]"); "[object Object]"
    case ServerTimestamp => "[object Object]"
  }

  // ---------------------------------------------------------------------
  // parseInt(text, 10)

  /** The white-space and line-terminator characters `parseInt` skips. */
  predicate IsSpace(c: char) {
    c == ' ' || c == '\t' || c == '\n' || c == '\r' || c == '\U{000B}' || c == '\U{000C}'
    || c == '\U{00A0}' || c == '\U{1680}' || ('\U{2000}' <= c <= '\U{200A}')
    || c == '\U{2028}' || c == '\U{2029}' || c == '\U{202F}' || c == '\U{205F}'
    || c == '\U{3000}' || c == '\U{FEFF}'
  }

  function TrimStart(s: string): string
    decreases |s|
  {
    if |s| > 0 && IsSpace(s[0]) then TrimStart(s[1..]) else s
  }

  /** The longest prefix of `s` made of decimal digits. */
  function LeadingDigits(s: string): string
    decreases |s|
  {
    if |s| > 0 && IsDigit(s[0]) then [s[0]] + LeadingDigits(s[1..]) else []
  }

  predicate AllDigits(s: string) {
    forall k :: 0 <= k < |s| ==> IsDigit(s[k])
  }

  /** The number a string of decimal digits denotes. */
  function DigitsValue(ds: string): nat
    requires AllDigits(ds)
    decreases |ds|
  {
    if ds == [] then 0 else DigitsValue(ds[..|ds| - 1]) * 10 + DigitValue(ds[|ds| - 1])
  }

  /** `parseInt(text, 10)` restricted to what the script can meet: skip
      leading white space, read an optional sign, then the longest run of
      decimal digits; no digit at all gives NaN, written None. */
  function ParseInt(text: string): (r: Option<int>)
    ensures r.Some? <==> |LeadingDigits(SignStripped(TrimStart(text)))| > 0
  {
    var t := TrimStart(text);
    var ds := LeadingDigits(SignStripped(t));
    LeadingDigitsAreDigits(SignStripped(t));
    if ds == [] then None
    else
      var magnitude: int := DigitsValue(ds);
      Some(if |t| > 0 && t[0] == '-' then -magnitude else magnitude)
  }

  function SignStripped(t: string): string {
    if |t| > 0 && (t[0] == '-' || t[0] == '+') then t[1..] else t
  }

  // ---------------------------------------------------------------------
  // Lemmas

  lemma {:induction false} LeadingDigitsAreDigits(s: string)
    ensures AllDigits(LeadingDigits(s))
    ensures |LeadingDigits(s)| <= |s| && LeadingDigits(s) == s[..|LeadingDigits(s)|]
    decreases |s|
  {
    if |s| > 0 && IsDigit(s[0]) {
      LeadingDigitsAreDigits(s[1..]);
    }
  }

  /** A string of digits is read whole. */
  lemma {:induction false} LeadingDigitsOfDigits(s: string)
    requires AllDigits(s)
    ensures LeadingDigits(s) == s
    decreases |s|
  {
    if |s| > 0 {
      LeadingDigitsOfDigits(s[1..]);
    }
  }

  /** The decimal text of n is a non-empty digit string that denotes n. */
  lemma {:induction false} NatToStringDenotes(n: nat)
    ensures |NatToString(n)| > 0 && AllDigits(NatToString(n))
    ensures DigitsValue(NatToString(n)) == n
    decreases n
  {
    if n >= 10 {
      NatToStringDenotes(n / 10);
      var prefix := NatToString(n / 10);
      var s := prefix + [DigitChar(n % 10)];
      assert s[..|s| - 1] == prefix;
    }
  }

  /** `parseInt(String(n), 10) == n` for every integer n: the decimal text the
      script produces is read back exactly. */
  lemma ParseIntOfIntToString(n: int)
    ensures ParseInt(IntToString(n)) == Some(n)
  {
    var m: nat := if n < 0 then -n else n;
    NatToStringDenotes(m);
    var digits := NatToString(m);
    var text := IntToString(n);
    assert !IsSpace(text[0]);
    assert TrimStart(text) == text;
    if n < 0 {
      assert text == "-" + digits;
      assert SignStripped(text) == digits;
    } else {
      assert !(text[0] == '-' || text[0] == '+');
      assert SignStripped(text) == digits;
    }
    LeadingDigitsOfDigits(digits);
  }

  /** A value whose text holds no digit after the optional sign parses to NaN;
      in particular text starting with a letter does. */
  lemma ParseIntNaN(text: string)
    requires |text| > 0 && !IsSpace(text[0]) && !IsDigit(text[0]) && text[0] != '-' && text[0] != '+'
    ensures ParseInt(text).None?
  {
    assert TrimStart(text) == text;
    assert SignStripped(text) == text;
  }

  /** `parseInt` reads only a leading integer: digits followed by anything
      else are read up to the first non-digit. */
  lemma ParseIntPrefix(n: nat, rest: string)
    requires |rest| > 0 ==> !IsDigit(rest[0])
    ensures ParseInt(NatToString(n) + rest) == Some(n)
  {
    NatToStringDenotes(n);
    var digits := NatToString(n);
    var text := digits + rest;
    assert text[0] == digits[0];
    assert TrimStart(text) == text;
    assert SignStripped(text) == text;
    LeadingDigitsAppend(digits, rest);
  }

  lemma {:induction false} LeadingDigitsAppend(digits: string, rest: string)
    requires AllDigits(digits)
    requires |rest| > 0 ==> !IsDigit(rest[0])
    ensures LeadingDigits(digits + rest) == digits
    decreases |digits|
  {
    if |digits| > 0 {
      assert (digits + rest)[1..] == digits[1..] + rest;
      LeadingDigitsAppend(digits[1..], rest);
    } else {
      assert digits + rest == rest;
    }
  }
}
