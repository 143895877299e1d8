/**
 * The JavaScript values the services and models pass around, and the few
 * pieces of JavaScript semantics they rely on: property reads, truthiness,
 * `typeof`, strict equality, `Number(...)`, `String.prototype.trim`,
 * `toLowerCase` and `includes`, and the object spread `{ id, ...data }`.
 */
module Json {

  datatype Option<+T> = None | Some(value: T)

  /** The result of an operation that may throw: its value, or the thrown message. */
  datatype Outcome<+T> = Return(value: T) | Throw(message: string)

  /** Stands for the text of a `TypeError` or `ReferenceError` the engine raises. */
  const TypeErrorText := "TypeError"

  /**
   * A JSON-like value. `Undef` is `undefined` (what reading an absent
   * property gives); numbers are reals (no NaN, no rounding); `Ref` is a
   * Firestore document reference, the pair (collection name, document key).
   */
  datatype JVal =
    | Undef
    | Null
    | Bool(b: bool)
    | Num(n: real)
    | Str(s: string)
    | Arr(items: seq<JVal>)
    | Obj(fields: map<string, JVal>)
    | Ref(collection: string, key: string)

  /** `v == null`: loose equality with null holds for null and undefined alone. */
  predicate IsNullish(v: JVal) {
    v.Undef? || v.Null?
  }

  /** `typeof v === 'object'` (which is true of null). */
  predicate IsObject(v: JVal) {
    v.Null? || v.Arr? || v.Obj? || v.Ref?
  }

  /** `typeof v === 'object' && v !== null`. */
  predicate IsNonNullObject(v: JVal) {
    v.Arr? || v.Obj? || v.Ref?
  }

  /** JavaScript truthiness: undefined, null, false, 0 and "" are falsy. */
  predicate Truthy(v: JVal) {
    match v
    case Undef => false
    case Null => false
    case Bool(b) => b
    case Num(n) => n != 0.0
    case Str(s) => s != ""
    case _ => true
  }

  /**
   * `v[key]` for the fixed field names the core reads. A plain object gives
   * the stored value or undefined; every other value (a string, a number, an
   * array, a reference) has none of those fields and gives undefined. Reading
   * a property of null or undefined throws in JavaScript: callers test
   * `IsNullish` first where the source can reach that case.
   */
  function Get(v: JVal, key: string): (r: JVal)
    ensures v.Obj? && key in v.fields ==> r == v.fields[key]
    ensures !(v.Obj? && key in v.fields) ==> r == Undef
  {
    if v.Obj? && key in v.fields then v.fields[key] else Undef
  }

  /**
   * `a === b`. Primitives compare by value; arrays, objects and references
   * compare by identity, and two values that reach the core from different
   * places are never the same object, so they are never strictly equal.
   */
  predicate StrictEq(a: JVal, b: JVal) {
    match (a, b)
    case (Undef, Undef) => true
    case (Null, Null) => true
    case (Bool(x), Bool(y)) => x == y
    case (Num(x), Num(y)) => x == y
    case (Str(x), Str(y)) => x == y
    case _ => false
  }

  /** `{ id: key, ...data }`: the key first, then every stored field, so a stored `id` field wins. */
  function WithId(key: string, data: map<string, JVal>): (r: map<string, JVal>)
    ensures r.Keys == data.Keys + {"id"}
    ensures r["id"] == if "id" in data then data["id"] else Str(key)
    ensures forall k :: k in data && k != "id" ==> r[k] == data[k]
  {
    map["id" := Str(key)] + data
  }

  // ---------------------------------------------------------------------
  // Strings

  /** The characters `\s` and `trim()` treat as white space (WhiteSpace and LineTerminator). */
  predicate IsWhitespace(c: char) {
    c == '\t' || c == '\n' || c == '\U{000B}' || c == '\U{000C}' || c == '\r' || c == ' '
    || c == '\U{00A0}' || c == '\U{1680}' || ('\U{2000}' <= c <= '\U{200A}')
    || c == '\U{2028}' || c == '\U{2029}' || c == '\U{202F}' || c == '\U{205F}'
    || c == '\U{3000}' || c == '\U{FEFF}'
  }

  function TrimStart(s: string): (r: string)
    ensures |r| <= |s|
  {
    if s != [] && IsWhitespace(s[0]) then TrimStart(s[1..]) else s
  }

  function TrimEnd(s: string): (r: string)
    ensures |r| <= |s|
  {
    if s != [] && IsWhitespace(s[|s| - 1]) then TrimEnd(s[..|s| - 1]) else s
  }

  /** `s.trim()`: `s` without its leading and trailing white space. */
  function Trim(s: string): (r: string)
    ensures |r| <= |s|
  {
    TrimEnd(TrimStart(s))
  }

  /** `TrimStart` drops a prefix made of white space and stops at the first other character. */
  lemma {:induction false} TrimStartDropsBlanks(s: string)
    ensures TrimStart(s) == s[|s| - |TrimStart(s)|..]
    ensures TrimStart(s) == [] || !IsWhitespace(TrimStart(s)[0])
    ensures forall i :: 0 <= i < |s| - |TrimStart(s)| ==> IsWhitespace(s[i])
  {
    if s != [] && IsWhitespace(s[0]) {
      TrimStartDropsBlanks(s[1..]);
      assert forall i :: 1 <= i < |s| ==> s[i] == s[1..][i - 1];
    }
  }

  /** `TrimEnd` drops a suffix made of white space and stops at the last other character. */
  lemma {:induction false} TrimEndDropsBlanks(s: string)
    ensures TrimEnd(s) == s[..|TrimEnd(s)|]
    ensures TrimEnd(s) == [] || !IsWhitespace(TrimEnd(s)[|TrimEnd(s)| - 1])
    ensures forall i :: |TrimEnd(s)| <= i < |s| ==> IsWhitespace(s[i])
  {
    if s != [] && IsWhitespace(s[|s| - 1]) {
      TrimEndDropsBlanks(s[..|s| - 1]);
    }
  }

  /** The trimmed string neither starts nor ends with white space. */
  lemma TrimHasNoBlankEnds(s: string)
    ensures Trim(s) == [] || (!IsWhitespace(Trim(s)[0]) && !IsWhitespace(Trim(s)[|Trim(s)| - 1]))
  {
    var t := TrimStart(s);
    TrimStartDropsBlanks(s);
    TrimEndDropsBlanks(t);
    if Trim(s) != [] {
      assert Trim(s)[0] == t[0];
    }
  }

  /** Trimming drops only white space: a string made of white space alone trims to "". */
  lemma TrimEmptyIffBlank(s: string)
    ensures Trim(s) == [] <==> forall i :: 0 <= i < |s| ==> IsWhitespace(s[i])
  {
    var t := TrimStart(s);
    TrimStartDropsBlanks(s);
    TrimEndDropsBlanks(t);
    if t != [] {
      assert t[0] == s[|s| - |t|];
    }
  }

  /**
   * `s.length`: JavaScript counts UTF-16 code units, so a character outside
   * the Basic Multilingual Plane (a code point from U+10000 on) counts twice.
   */
  function Utf16Length(s: string): (r: nat)
    ensures |s| <= r <= 2 * |s|
  {
    if s == [] then 0
    else Utf16Length(s[..|s| - 1]) + (if s[|s| - 1] as int >= 0x1_0000 then 2 else 1)
  }

  /** Within the Basic Multilingual Plane, `length` counts characters. */
  lemma {:induction false} Utf16LengthInPlane(s: string)
    requires forall i :: 0 <= i < |s| ==> s[i] as int < 0x1_0000
    ensures Utf16Length(s) == |s|
  {
    if s != [] {
      Utf16LengthInPlane(s[..|s| - 1]);
    }
  }

  function LowerChar(c: char): (r: char)
    ensures !('A' <= r <= 'Z')
    ensures !('A' <= c <= 'Z') ==> r == c
  {
    if 'A' <= c <= 'Z' then (c as int + 32) as char else c
  }

  /** `s.toLowerCase()` on ASCII letters; every other character is kept. */
  function ToLower(s: string): (r: string)
    ensures |r| == |s|
    ensures forall i :: 0 <= i < |s| ==> r[i] == LowerChar(s[i])
  {
    seq(|s|, i requires 0 <= i < |s| => LowerChar(s[i]))
  }

  /** Lower-casing twice is lower-casing once. */
  lemma ToLowerIdempotent(s: string)
    ensures ToLower(ToLower(s)) == ToLower(s)
  {
  }

  /** `hay.includes(needle)`: `needle` occurs in `hay` as a contiguous run. */
  predicate Contains(hay: string, needle: string) {
    exists i :: 0 <= i <= |hay| - |needle| && OccursAt(hay, needle, i)
  }

  /** `needle` occurs in `hay` starting at position `i`. */
  predicate OccursAt(hay: string, needle: string, i: int)
    requires 0 <= i <= |hay| - |needle|
  {
    hay[i..i + |needle|] == needle
  }

  lemma ContainsEmpty(hay: string)
    ensures Contains(hay, "")
  {
    assert OccursAt(hay, "", 0);
  }

  // ---------------------------------------------------------------------
  // Number(...)

  predicate IsDigit(c: char) {
    '0' <= c <= '9'
  }

  predicate AllDigits(s: string) {
    forall i :: 0 <= i < |s| ==> IsDigit(s[i])
  }

  function DigitValue(c: char): nat
    requires IsDigit(c)
  {
    c as int - '0' as int
  }

  /** The value of a run of decimal digits, most significant first. */
  function DigitsValue(s: string): nat
    requires AllDigits(s)
  {
    if s == [] then 0 else DigitsValue(s[..|s| - 1]) * 10 + DigitValue(s[|s| - 1])
  }

  function Pow10(k: nat): (r: nat)
    ensures r >= 1
  {
    if k == 0 then 1 else 10 * Pow10(k - 1)
  }

  function DotIndex(s: string): (r: Option<nat>)
    ensures r.Some? ==> r.value < |s| && s[r.value] == '.' && '.' !in s[..r.value]
    ensures r.None? ==> '.' !in s
  {
    if s == [] then None
    else if s[0] == '.' then Some(0)
    else match DotIndex(s[1..])
      case None => None
      case Some(k) => Some(k + 1)
  }

  /** An unsigned decimal literal: digits with at most one '.', and at least one digit. */
  function DecimalLiteral(t: string): Option<real> {
    match DotIndex(t)
    case None =>
      if t != [] && AllDigits(t) then Some(DigitsValue(t) as real) else None
    case Some(k) =>
      var whole, frac := t[..k], t[k + 1..];
      if |whole| + |frac| > 0 && AllDigits(whole) && AllDigits(frac)
      then Some(DigitsValue(whole) as real + DigitsValue(frac) as real / Pow10(|frac|) as real)
      else None
  }

  /** An optional leading sign: the factor it stands for, and what follows it. */
  function SignAndBody(t: string): (real, string) {
    if t != [] && t[0] == '-' then (-1.0, t[1..])
    else if t != [] && t[0] == '+' then (1.0, t[1..])
    else (1.0, t)
  }

  /**
   * `Number(s)` for a string: surrounding white space is ignored, the empty
   * string is 0, and a signed decimal literal is its value. Every other
   * string (exponents, hexadecimal, "Infinity") is taken as NaN (None).
   */
  function StringToNumber(s: string): Option<real> {
    var t := Trim(s);
    if t == [] then Some(0.0)
    else
      var (sign, body) := SignAndBody(t);
      match DecimalLiteral(body)
      case None => None
      case Some(x) => Some(sign * x)
  }

  /** `Number(v)`; None stands for NaN. An array goes through its text, so only `[]` and a one-element array can be numbers. */
  function ToNumber(v: JVal): Option<real>
    decreases v, 0
  {
    match v
    case Undef => None
    case Null => Some(0.0)
    case Bool(b) => Some(if b then 1.0 else 0.0)
    case Num(n) => Some(n)
    case Str(s) => StringToNumber(s)
    case Arr(items) =>
      if |items| == 0 then Some(0.0)
      else if |items| == 1 then ElementNumber(items[0])
      else None
    case Obj(_) => None
    case Ref(_, _) => None
  }

  /** `Number([x])`, which reads `String(x)`: null and undefined give "", a boolean or an object gives a word. */
  function ElementNumber(x: JVal): Option<real>
    decreases x, 1
  {
    match x
    case Undef => Some(0.0)
    case Null => Some(0.0)
    case Bool(_) => None
    case Obj(_) => None
    case Ref(_, _) => None
    case _ => ToNumber(x)
  }

  /** `isNaN(Number(v)) || Number(v) < bound`. */
  predicate NaNOrBelow(v: JVal, bound: real) {
    ToNumber(v).None? || ToNumber(v).value < bound
  }

  /** `isNaN(Number(v)) || Number(v) <= bound`. */
  predicate NaNOrAtMost(v: JVal, bound: real) {
    ToNumber(v).None? || ToNumber(v).value <= bound
  }

  /** A number value passes the bound checks exactly as its value says. */
  lemma NumberBounds(n: real, bound: real)
    ensures !NaNOrBelow(Num(n), bound) <==> n >= bound
    ensures !NaNOrAtMost(Num(n), bound) <==> n > bound
  {
  }

  // ---------------------------------------------------------------------
  // String(...)

  function DigitChar(d: nat): (c: char)
    requires d < 10
    ensures IsDigit(c) && DigitValue(c) == d
  {
    ('0' as int + d) as char
  }

  /** The decimal digits of `k`, most significant first, with no leading zero. */
  function NatText(k: nat): (s: string)
    ensures s != [] && AllDigits(s)
    decreases k
  {
    if k < 10 then [DigitChar(k)] else NatText(k / 10) + [DigitChar(k % 10)]
  }

  /** Reading the digits back gives the number: `NatText` and `DigitsValue` are inverse. */
  lemma {:induction false} NatTextValue(k: nat)
    ensures DigitsValue(NatText(k)) == k
    decreases k
  {
    if k >= 10 {
      NatTextValue(k / 10);
      var s := NatText(k);
      assert s[..|s| - 1] == NatText(k / 10);
    }
  }

  /**
   * `String(n)` for a number, where the model can say: a whole number below
   * 10^21 in size is written in plain decimal, with '-' when negative. Any
   * other number is written as JavaScript's shortest decimal form of the
   * nearest double, which is not part of this model (None); that text still
   * holds a digit.
   */
  function NumberText(n: real): (r: Option<string>)
    ensures r.Some? ==> r.value != [] && (r.value[0] == '-' || IsDigit(r.value[0]))
  {
    if n != n.Floor as real || n <= -1_000_000_000_000_000_000_000.0 || n >= 1_000_000_000_000_000_000_000.0 then None
    else if n < 0.0 then Some("-" + NatText(-n.Floor))
    else Some(NatText(n.Floor))
  }

  /** `Number(String(n))` is `n` again for every number `NumberText` writes. */
  lemma NumberTextRoundTrip(n: real)
    requires NumberText(n).Some?
    ensures StringToNumber(NumberText(n).value) == Some(n)
  {
    var k: nat := if n < 0.0 then -n.Floor else n.Floor;
    assert NumberText(n).value == (if n < 0.0 then "-" else "") + NatText(k);
    assert (if n < 0.0 then -1.0 else 1.0) * k as real == n;
    NatTextValue(k);
    SignedDigitsRead(n < 0.0, NatText(k));
  }

  /** A run of digits with an optional '-' in front is read as its value, signed. */
  lemma SignedDigitsRead(negative: bool, digits: string)
    requires digits != [] && AllDigits(digits)
    ensures StringToNumber((if negative then "-" else "") + digits)
         == Some((if negative then -1.0 else 1.0) * DigitsValue(digits) as real)
  {
    var t := (if negative then "-" else "") + digits;
    var sign := if negative then -1.0 else 1.0;
    assert IsDigit(digits[|digits| - 1]);
    assert t[|t| - 1] == digits[|digits| - 1];
    assert !IsWhitespace(t[0]);
    TrimKeepsSolid(t);
    assert SignAndBody(t) == (sign, digits) by {
      if negative {
        assert t[0] == '-' && t[1..] == digits;
      } else {
        assert t == digits && IsDigit(t[0]);
      }
    }
    DigitsLiteral(digits);
  }

  /** A text that starts and ends with other than white space is its own trim. */
  lemma TrimKeepsSolid(t: string)
    requires t != [] && !IsWhitespace(t[0]) && !IsWhitespace(t[|t| - 1])
    ensures Trim(t) == t
  {
    assert TrimStart(t) == t;
  }

  /** Digits alone are an unsigned literal of their value. */
  lemma DigitsLiteral(digits: string)
    requires digits != [] && AllDigits(digits)
    ensures DecimalLiteral(digits) == Some(DigitsValue(digits) as real)
  {
    assert '.' !in digits by {
      forall i | 0 <= i < |digits| ensures digits[i] != '.' { assert IsDigit(digits[i]); }
    }
  }

  /**
   * `String(v)`, as a template literal or a property key writes it, where
   * the model can say. An object gives "[object Object]", an array its
   * elements joined with ','. None stands for a text the model does not
   * write: a number `NumberText` leaves out, an array holding one, and a
   * reference.
   */
  function Text(v: JVal): Option<string>
    decreases v, 1
  {
    match v
    case Undef => Some("undefined")
    case Null => Some("null")
    case Bool(b) => Some(if b then "true" else "false")
    case Num(n) => NumberText(n)
    case Str(s) => Some(s)
    case Arr(items) => JoinedText(v, 0)
    case Obj(_) => Some("[object Object]")
    case Ref(_, _) => None
  }

  /** `v.items.slice(i).join(',')`: null and undefined elements are written as "". */
  function JoinedText(v: JVal, i: nat): Option<string>
    requires v.Arr? && i <= |v.items|
    decreases v, 0, |v.items| - i
  {
    if i == |v.items| then Some("")
    else
      var x := v.items[i];
      var head := if IsNullish(x) then Some("") else Text(x);
      var rest := JoinedText(v, i + 1);
      if head.None? || rest.None? then None
      else Some(head.value + (if i + 1 == |v.items| then "" else ",") + rest.value)
  }
}
