/** JavaScript values as the source handles them: truthiness, `||`, `??`,
    `String(v)` and `Number(v)`. Numbers are integral; objects are opaque. */
module Js {
  import Text

  datatype Value =
    | Undefined
    | Null
    | Bool(b: bool)
    | Num(n: int)
    | NaN
    | Str(s: string)
      /** an object or array whose contents the model does not look into,
          with `size` own keys (`{}` is Obj(0)) */
    | Obj(size: nat)

  predicate Truthy(v: Value) {
    match v
    case Undefined => false
    case Null => false
    case Bool(b) => b
    case Num(n) => n != 0
    case NaN => false
    case Str(s) => s != ""
    case Obj(_) => true
  }

  predicate Nullish(v: Value) {
    v.Undefined? || v.Null?
  }

  /** `a || b` */
  function Or(a: Value, b: Value): Value {
    if Truthy(a) then a else b
  }

  /** `a ?? b` */
  function Coalesce(a: Value, b: Value): Value {
    if Nullish(a) then b else a
  }

  /** `vs[0] || vs[1] || ... || vs[n-1]`, read as a list of candidates
      tried in order: the first truthy one, else the last one. */
  function FirstTruthy(vs: seq<Value>): Value
    requires vs != []
  {
    if |vs| == 1 || Truthy(vs[0]) then vs[0] else FirstTruthy(vs[1..])
  }

  /** The chain yields a truthy value exactly when some candidate is truthy,
      and then it is the first truthy candidate. */
  lemma {:induction false} FirstTruthySpec(vs: seq<Value>)
    requires vs != []
    ensures Truthy(FirstTruthy(vs)) <==> exists i :: 0 <= i < |vs| && Truthy(vs[i])
    ensures Truthy(FirstTruthy(vs)) ==>
      exists i :: 0 <= i < |vs| && FirstTruthy(vs) == vs[i] && forall j :: 0 <= j < i ==> !Truthy(vs[j])
  {
    if |vs| > 1 && !Truthy(vs[0]) {
      FirstTruthySpec(vs[1..]);
      if Truthy(FirstTruthy(vs)) {
        var i :| 0 <= i < |vs[1..]| && FirstTruthy(vs[1..]) == vs[1..][i]
          && forall j :: 0 <= j < i ==> !Truthy(vs[1..][j]);
        assert forall j :: 0 <= j < i + 1 ==> !Truthy(vs[j]) by {
          forall j | 0 <= j < i + 1 ensures !Truthy(vs[j]) {
            if j > 0 { assert vs[j] == vs[1..][j - 1]; }
          }
        }
        assert FirstTruthy(vs) == vs[i + 1];
      } else {
        forall i | 0 <= i < |vs| ensures !Truthy(vs[i]) {
          if i > 0 { assert vs[i] == vs[1..][i - 1]; }
        }
      }
    }
  }

  function DigitChar(d: nat): char
    requires d < 10
  {
    "0123456789"[d]
  }

  predicate IsDigit(c: char) {
    '0' <= c <= '9'
  }

  predicate IsDigits(s: string) {
    forall i :: 0 <= i < |s| ==> IsDigit(s[i])
  }

  /** The decimal numeral of `n`, as `String(n)` writes it. */
  function NatToDecimal(n: nat): (s: string)
    ensures s != [] && IsDigits(s)
    ensures |s| > 1 ==> s[0] != '0'
  {
    if n < 10 then [DigitChar(n)] else NatToDecimal(n / 10) + [DigitChar(n % 10)]
  }

  function DecimalToNat(s: string): nat
    requires IsDigits(s)
  {
    if s == [] then 0 else DecimalToNat(s[..|s| - 1]) * 10 + (s[|s| - 1] as int - '0' as int)
  }

  /** Reading back the numeral of `n` gives `n`. */
  lemma {:induction false} DecimalRoundTrip(n: nat)
    ensures DecimalToNat(NatToDecimal(n)) == n
  {
    if n >= 10 {
      var s := NatToDecimal(n);
      assert s[..|s| - 1] == NatToDecimal(n / 10);
      DecimalRoundTrip(n / 10);
    }
  }

  /** `String(v)` */
  function ToStr(v: Value): string {
    match v
    case Undefined => "undefined"
    case Null => "null"
    case Bool(b) => if b then "true" else "false"
    case Num(n) => if n < 0 then "-" + NatToDecimal(-n) else NatToDecimal(n)
    case NaN => "NaN"
    case Str(s) => s
    case Obj(_) => "[object Object]"
  }

  /** A truthy value never prints as the empty string. */
  lemma TruthyToStrNonEmpty(v: Value)
    requires Truthy(v)
    ensures ToStr(v) != ""
  {
  }

  /** A decimal numeral with an optional sign, as `Number` accepts it. */
  predicate IsSignedDecimal(t: string) {
    || (t != [] && IsDigits(t))
    || (|t| > 1 && (t[0] == '-' || t[0] == '+') && IsDigits(t[1..]))
  }

  function SignedDecimalValue(t: string): int
    requires IsSignedDecimal(t)
  {
    if t[0] == '-' then -(DecimalToNat(t[1..]) as int)
    else if t[0] == '+' then DecimalToNat(t[1..])
    else DecimalToNat(t)
  }

  /** `Number(v)` on integral decimal text; other numerals (hex, fractions,
      exponents, "Infinity") are not modelled and read as NaN. */
  function ToNumber(v: Value): (r: Value)
    ensures r.Num? || r.NaN?
  {
    match v
    case Undefined => NaN
    case Null => Num(0)
    case Bool(b) => Num(if b then 1 else 0)
    case Num(n) => v
    case NaN => NaN
    case Str(s) =>
      var t := Text.Trim(s);
      if t == "" then Num(0)
      else if IsSignedDecimal(t) then Num(SignedDecimalValue(t))
      else NaN
    case Obj(_) => NaN
  }

  /** `Number(String(n)) == n` for every integer. */
  lemma NumberOfStringIsIdentity(n: int)
    ensures ToNumber(Str(ToStr(Num(n)))) == Num(n)
  {
    var s := ToStr(Num(n));
    var m: nat := if n < 0 then -n else n;
    var d := NatToDecimal(m);
    NumeralHasNoWhitespace(n);
    Text.TrimNoWhitespace(s);
    DecimalRoundTrip(m);
    if n < 0 {
      assert s == "-" + d && s[1..] == d;
      assert IsSignedDecimal(s) && SignedDecimalValue(s) == -(m as int);
    } else {
      assert s == d && IsSignedDecimal(s) && SignedDecimalValue(s) == m;
    }
  }

  lemma NumeralHasNoWhitespace(n: int)
    ensures forall k :: 0 <= k < |ToStr(Num(n))| ==> !Text.IsWhitespace(ToStr(Num(n))[k])
  {
    var s := ToStr(Num(n));
    var d := NatToDecimal(if n < 0 then -n else n);
    forall k | 0 <= k < |s| ensures !Text.IsWhitespace(s[k]) {
      if n < 0 && k == 0 {
        assert s[k] == '-';
      } else {
        assert s[k] == d[if n < 0 then k - 1 else k] && IsDigit(s[k]);
      }
    }
  }
}
