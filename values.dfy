/** JavaScript values as they occur in post records, and the `toString`
    conversion the post layer applies to post ids. */
module Values {

  /** The integers of magnitude at most 2^53. Below 2^53 no other integer
      rounds to the same double, and 2^53 itself prints as
      9007199254740992, so `toString` prints their exact decimal digits. */
  type SafeInt = n: int | -0x20_0000_0000_0000 <= n <= 0x20_0000_0000_0000

  /** A field value of a parsed JSON record or of a Firestore document.
      `Undefined` is what JavaScript yields for a field a record lacks.
      Numbers are integers of magnitude at most 2^53 in this model. */
  datatype Value = Undefined | Null | Bool(b: bool) | Num(n: SafeInt) | Str(s: string)

  /** A post record: a plain object from field name to value. */
  type Record = map<string, Value>

  /** `r.key`: the field's value, or undefined when the record lacks it. */
  function Field(r: Record, key: string): Value
  {
    if key in r then r[key] else Undefined
  }

  /** `v.toString()` is defined: on undefined and null it throws a TypeError. */
  predicate HasToString(v: Value)
  {
    !v.Undefined? && !v.Null?
  }

  predicate IsDigit(c: char)
  {
    '0' <= c <= '9'
  }

  predicate IsDigits(s: string)
  {
    forall k :: 0 <= k < |s| ==> IsDigit(s[k])
  }

  function DigitChar(d: nat): (c: char)
    requires d < 10
    ensures IsDigit(c) && c as int - '0' as int == d
  {
    ('0' as int + d) as char
  }

  /** Decimal digits of a natural number, most significant first, without
      leading zeros. */
  function NatToDecimal(n: nat): (s: string)
    ensures 1 <= |s| && IsDigits(s)
    ensures n > 0 ==> s[0] != '0'
    ensures s[0] == '0' ==> s == "0"
    decreases n
  {
    if n < 10 then [DigitChar(n)] else NatToDecimal(n / 10) + [DigitChar(n % 10)]
  }

  /** `Number.prototype.toString()` on a safe integer: an optional minus
      sign followed by the exact decimal digits. */
  function IntToDecimal(n: SafeInt): (s: string)
    ensures s != [] && (s[0] == '-' <==> n < 0)
    ensures n < 0 ==> IsDigits(s[1..]) && |s| >= 2
    ensures n >= 0 ==> IsDigits(s) && (s[0] == '0' ==> s == "0")
    ensures n < 0 ==> s[1] != '0'
  {
    if n < 0 then "-" + NatToDecimal(-n) else NatToDecimal(n)
  }

  /** The value a string of decimal digits denotes. */
  function DigitsValue(s: string): nat
    requires IsDigits(s)
  {
    if s == [] then 0 else 10 * DigitsValue(s[..|s| - 1]) + (s[|s| - 1] as int - '0' as int)
  }

  /** Reads back an integer written by IntToDecimal. */
  function DecimalToInt(s: string): int
    requires s != [] && (if s[0] == '-' then IsDigits(s[1..]) else IsDigits(s))
  {
    if s[0] == '-' then 0 - DigitsValue(s[1..]) as int else DigitsValue(s)
  }

  /** `v.toString()` for the values that have one. */
  function ToStr(v: Value): (r: string)
    requires HasToString(v)
    ensures v.Str? ==> r == v.s
    ensures v.Bool? ==> r == (if v.b then "true" else "false")
    ensures v.Num? ==> r == IntToDecimal(v.n) && r != [] && (r[0] == '-' <==> v.n < 0)
  {
    match v
    case Str(s) => s
    case Num(n) => IntToDecimal(n)
    case Bool(b) => if b then "true" else "false"
  }

  lemma {:induction false} NatToDecimalRoundTrip(n: nat)
    ensures DigitsValue(NatToDecimal(n)) == n
    decreases n
  {
    if n >= 10 {
      var s := NatToDecimal(n);
      assert s[..|s| - 1] == NatToDecimal(n / 10);
      NatToDecimalRoundTrip(n / 10);
    }
  }

  /** The string form of a numeric id reads back as that number. */
  lemma NumberToStrRoundTrip(n: SafeInt)
    ensures var s := ToStr(Num(n));
            s != [] && (if s[0] == '-' then IsDigits(s[1..]) else IsDigits(s)) && DecimalToInt(s) == n
  {
    if n < 0 {
      var s := ToStr(Num(n));
      assert s[1..] == NatToDecimal(-n);
      NatToDecimalRoundTrip(-n);
    } else {
      NatToDecimalRoundTrip(n);
    }
  }

  /** Two numeric ids have the same string form only if they are equal. */
  lemma NumberToStrInjective(m: SafeInt, n: SafeInt)
    requires ToStr(Num(m)) == ToStr(Num(n))
    ensures m == n
  {
    NumberToStrRoundTrip(m);
    NumberToStrRoundTrip(n);
  }
}
