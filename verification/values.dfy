/**
 * The PHP values the data store moves around: array keys, scalar and array
 * values, and the handful of PHP conversions the modelled code relies on
 * (`isset`, conversion to bool and to string, `intval`, `is_numeric` and the
 * loose comparison `==`).
 */
module PhpValues {

  /** A PHP array key: an integer or a string. PHP stores a string key that
      spells a decimal integer as that integer, so such keys are written
      `IntKey` here and a `StrKey` never spells one. */
  datatype Key = IntKey(i: int) | StrKey(s: string)

  /** A PHP value. Floating-point numbers and objects are not modelled here. */
  datatype Value =
    | Null
    | Bool(b: bool)
    | Int(i: int)
    | Str(s: string)
    | Arr(m: map<Key, Value>)

  /** An associative PHP array (a row, a set of attributes, a criteria array). */
  type Attrs = map<Key, Value>

  /** `isset($m[$k])`: the key is present and does not hold null. */
  predicate IsSet(m: Attrs, k: Key) {
    k in m && m[k] != Null
  }

  /** `$m[$k]` read as an r-value: a missing key reads as null. */
  function Get(m: Attrs, k: Key): Value {
    if k in m then m[k] else Null
  }

  /** Conversion to bool (`if ($v)`, `empty`). */
  predicate Truthy(v: Value) {
    match v
    case Null => false
    case Bool(b) => b
    case Int(i) => i != 0
    case Str(s) => s != "" && s != "0"
    case Arr(m) => |m| != 0
  }

  predicate IsDigit(c: char) {
    '0' <= c <= '9'
  }

  function DigitChar(d: nat): (c: char)
    requires d < 10
    ensures IsDigit(c) && c as int - '0' as int == d
  {
    ('0' as int + d) as char
  }

  function NatToString(n: nat): (s: string)
    ensures |s| > 0
    ensures forall i :: 0 <= i < |s| ==> IsDigit(s[i])
    decreases n
  {
    if n < 10 then [DigitChar(n)] else NatToString(n / 10) + [DigitChar(n % 10)]
  }

  /** Decimal notation of an integer, as string interpolation writes it. */
  function IntToString(i: int): string {
    if i < 0 then "-" + NatToString(-i) else NatToString(i)
  }

  /** Conversion to string (interpolation, `join`, `.`). An array converts to
      the word "Array". */
  function ToStr(v: Value): string {
    match v
    case Null => ""
    case Bool(b) => if b then "1" else ""
    case Int(i) => IntToString(i)
    case Str(s) => s
    case Arr(_) => "Array"
  }

  /** Length of the longest prefix of `s` made of decimal digits. */
  function DigitPrefixLength(s: string): (n: nat)
    ensures n <= |s|
    ensures forall i :: 0 <= i < n ==> IsDigit(s[i])
    ensures n < |s| ==> !IsDigit(s[n])
  {
    if s == [] || !IsDigit(s[0]) then 0 else 1 + DigitPrefixLength(s[1..])
  }

  function DigitsValue(s: string): nat
    requires forall i :: 0 <= i < |s| ==> IsDigit(s[i])
  {
    if s == [] then 0
    else
      assert IsDigit(s[|s| - 1]);
      DigitsValue(s[..|s| - 1]) * 10 + (s[|s| - 1] as int - '0' as int)
  }

  function Unsigned(s: string): string {
    if |s| > 0 && (s[0] == '-' || s[0] == '+') then s[1..] else s
  }

  /** A string `is_numeric` accepts, restricted to integer notation: an
      optional sign followed by at least one digit. */
  predicate IsIntegerString(s: string) {
    var t := Unsigned(s);
    |t| > 0 && DigitPrefixLength(t) == |t|
  }

  /** `is_numeric` on the modelled values. */
  predicate IsNumeric(v: Value) {
    match v
    case Int(_) => true
    case Str(s) => IsIntegerString(s)
    case _ => false
  }

  /** `intval`: a string contributes its leading optionally signed digits. */
  function IntVal(v: Value): int {
    match v
    case Null => 0
    case Bool(b) => if b then 1 else 0
    case Int(i) => i
    case Str(s) =>
      var t := Unsigned(s);
      var n: int := DigitsValue(t[..DigitPrefixLength(t)]);
      if |s| > 0 && s[0] == '-' then -n else n
    case Arr(m) => if |m| == 0 then 0 else 1
  }

  /** The loose comparison `==` of PHP 8 on the modelled values. Strings
      compare as strings (two numeric strings that spell the same number
      differently, such as "1" and "01", are not modelled as equal). */
  predicate LooseEquals(a: Value, b: Value) {
    match (a, b)
    case (Null, Null) => true
    case (Null, Str(s)) => s == ""
    case (Str(s), Null) => s == ""
    case (Bool(x), _) => x == Truthy(b)
    case (_, Bool(y)) => Truthy(a) == y
    case (Null, _) => !Truthy(b)
    case (_, Null) => !Truthy(a)
    case (Int(i), Int(j)) => i == j
    case (Int(i), Str(s)) => IntToString(i) == s
    case (Str(s), Int(j)) => s == IntToString(j)
    case (Str(s), Str(t)) => s == t
    case (Arr(m), Arr(n)) => m == n
    case _ => false
  }
}
