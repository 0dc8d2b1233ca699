/** The two numeric coercions of the summary pipeline: `Number(x) || 0`, and
    `Number(String(x).replace(/,/g, '')) || 0`, which also drops thousands separators.
    `Number` is modelled on the natural numbers: decimals, signs, exponents, hexadecimal,
    binary and octal literals and `Infinity` are outside the model and read as
    not-a-number. An object with its own `toString` key, which makes `String` and `Number`
    throw, is outside the model too: it reads as any other object. */
module JsNumber {
  import opened Wrappers
  import opened Json
  import opened Text

  /** The outcome of `Number(...)`. */
  datatype Num = Finite(value: nat) | NaN

  function DigitValue(c: char): nat
    requires IsDigit(c)
  {
    c as int - '0' as int
  }

  function DigitChar(d: nat): char
    requires d < 10
  {
    ('0' as int + d) as char
  }

  /** The value of a string of decimal digits; the empty string is 0, as `Number("")` is. */
  function DigitsValue(s: string): nat
    requires AllDigits(s)
    decreases |s|
  {
    if s == [] then 0 else 10 * DigitsValue(s[..|s| - 1]) + DigitValue(s[|s| - 1])
  }

  function Pow10(k: nat): (r: nat)
    ensures r >= 1
  {
    if k == 0 then 1 else 10 * Pow10(k - 1)
  }

  /** `String(n)` for a natural number: its decimal digits, without leading zeros. */
  function ShowNat(n: nat): (s: string)
    ensures |s| > 0 && AllDigits(s)
    ensures n >= 10 ==> s[0] != '0'
    decreases n
  {
    if n < 10 then [DigitChar(n)] else ShowNat(n / 10) + [DigitChar(n % 10)]
  }

  /** `s.replace(/,/g, '')` */
  function StripCommas(s: string): (r: string)
    ensures |r| <= |s|
    ensures forall c :: c in r <==> c in s && c != ','
    decreases |s|
  {
    if s == [] then []
    else if s[0] == ',' then StripCommas(s[1..])
    else
      var r := [s[0]] + StripCommas(s[1..]);
      assert forall c :: c in s <==> c == s[0] || c in s[1..];
      r
  }

  /** `Number(s)` on a string: surrounding white space is ignored and the rest must be
      decimal digits (so `""` and `"  "` are 0 and `"12,345"` is not a number). */
  function StringToNumber(s: string): Num
  {
    var t := Trim(s);
    if AllDigits(t) then Finite(DigitsValue(t)) else NaN
  }

  /** `String(v)`; an array prints its elements joined by commas, `null` ones as empty,
      and an object prints as `[object Object]` (its own `toString` key is not looked at). */
  function JsString(v: Json): string
    decreases v, 1
  {
    match v
    case JNull => "null"
    case JBool(b) => if b then "true" else "false"
    case JNum(n) => ShowNat(n)
    case JStr(s) => s
    case JArr(_) => JoinItems(v, 0)
    case JObj(_) => "[object Object]"
  }

  /** `v.items.slice(i).join(',')` */
  function JoinItems(v: Json, i: nat): string
    requires v.JArr? && i <= |v.items|
    decreases v, 0, |v.items| - i
  {
    if i == |v.items| then ""
    else
      var item := if v.items[i] == JNull then "" else JsString(v.items[i]);
      if i + 1 == |v.items| then item else item + "," + JoinItems(v, i + 1)
  }

  /** `String(x)` for a property that may be `undefined`. */
  function StringOf(o: Option<Json>): string
  {
    match o
    case None => "undefined"
    case Some(v) => JsString(v)
  }

  /** `Number(v)`; arrays and objects convert through their string form. */
  function NumberOf(v: Json): Num
  {
    match v
    case JNull => Finite(0)
    case JBool(b) => Finite(if b then 1 else 0)
    case JNum(n) => Finite(n)
    case _ => StringToNumber(JsString(v))
  }

  /** `Number(x)` for a property that may be `undefined` (which gives NaN). */
  function NumberOfProp(o: Option<Json>): Num
  {
    match o
    case None => NaN
    case Some(v) => NumberOf(v)
  }

  /** `n || 0`: NaN is falsy, so it becomes 0. */
  function OrZero(n: Num): nat
  {
    match n
    case Finite(k) => k
    case NaN => 0
  }

  /** `Number(x) || 0` */
  function ToNumber(o: Option<Json>): nat
  {
    OrZero(NumberOfProp(o))
  }

  /** `Number(String(x).replace(/,/g, '')) || 0` */
  function ToNumberStripped(o: Option<Json>): nat
  {
    OrZero(StringToNumber(StripCommas(StringOf(o))))
  }

  /** `String(n)` read back by the digit rule gives `n`. */
  lemma {:induction false} ShowNatRoundTrip(n: nat)
    ensures DigitsValue(ShowNat(n)) == n
    decreases n
  {
    if n >= 10 {
      var s := ShowNat(n);
      ShowNatRoundTrip(n / 10);
      assert s[..|s| - 1] == ShowNat(n / 10);
    }
  }

  lemma {:induction false} StripCommasDigits(s: string)
    requires AllDigits(s)
    ensures StripCommas(s) == s
    decreases |s|
  {
    if s != [] {
      assert IsDigit(s[0]);
      StripCommasDigits(s[1..]);
      assert s == [s[0]] + s[1..];
    }
  }

  lemma {:induction false} StripCommasAppend(a: string, b: string)
    ensures StripCommas(a + b) == StripCommas(a) + StripCommas(b)
    decreases |a|
  {
    if a != [] {
      assert (a + b)[1..] == a[1..] + b;
      StripCommasAppend(a[1..], b);
    } else {
      assert a + b == b;
    }
  }

  lemma {:induction false} DigitsValueAppend(a: string, b: string)
    requires AllDigits(a) && AllDigits(b)
    ensures AllDigits(a + b)
    ensures DigitsValue(a + b) == DigitsValue(a) * Pow10(|b|) + DigitsValue(b)
    decreases |b|
  {
    assert AllDigits(a + b) by {
      forall i | 0 <= i < |a + b| ensures IsDigit((a + b)[i]) {
        if i < |a| { assert (a + b)[i] == a[i]; } else { assert (a + b)[i] == b[i - |a|]; }
      }
    }
    if b == [] {
      assert a + b == a;
    } else {
      var ab, b' := a + b, b[..|b| - 1];
      assert ab[..|ab| - 1] == a + b';
      assert ab[|ab| - 1] == b[|b| - 1];
      DigitsValueAppend(a, b');
      var va, vb', d, p := DigitsValue(a), DigitsValue(b'), DigitValue(b[|b| - 1]), Pow10(|b'|);
      assert DigitsValue(ab) == 10 * DigitsValue(a + b') + d;
      assert DigitsValue(b) == 10 * vb' + d;
      assert Pow10(|b|) == 10 * p;
      MulAssoc(va, p);
    }
  }

  lemma MulAssoc(x: nat, y: nat)
    ensures 10 * (x * y) == x * (10 * y)
  {
  }

  /** A natural number survives both coercions unchanged, which is what makes
      normalisation idempotent. */
  lemma NumberCoercionsKeepNaturals(n: nat)
    ensures ToNumber(Some(JNum(n))) == n
    ensures ToNumberStripped(Some(JNum(n))) == n
  {
    var s := ShowNat(n);
    assert IsDigit(s[0]) && IsDigit(s[|s| - 1]);
    StripCommasDigits(s);
    TrimUnpadded(s);
    ShowNatRoundTrip(n);
  }

  /** The three decimal digits of `m`, with leading zeros, as printed inside a
      thousands-separated number. */
  function ThreeDigits(m: nat): (s: string)
    requires m < 1000
    ensures |s| == 3 && AllDigits(s) && DigitsValue(s) == m
  {
    var s := [DigitChar(m / 100), DigitChar(m / 10 % 10), DigitChar(m % 10)];
    assert s[..2][..1] == s[..1] == [s[0]];
    assert DigitsValue(s[..1]) == m / 100;
    assert DigitsValue(s[..2]) == 10 * (m / 100) + m / 10 % 10 == m / 10;
    assert DigitsValue(s) == 10 * (m / 10) + m % 10 == m;
    s
  }

  /** `n` printed with a comma between each group of three digits, as in "12,345". */
  function Grouped(n: nat): (s: string)
    ensures |s| > 0 && IsDigit(s[0]) && IsDigit(s[|s| - 1])
    decreases n
  {
    if n < 1000 then ShowNat(n) else Grouped(n / 1000) + "," + ThreeDigits(n % 1000)
  }

  /** Removing the separators of a comma-grouped number leaves its digits. */
  lemma {:induction false} GroupedDigits(n: nat)
    ensures |StripCommas(Grouped(n))| > 0 && AllDigits(StripCommas(Grouped(n)))
    ensures DigitsValue(StripCommas(Grouped(n))) == n
    decreases n
  {
    if n < 1000 {
      StripCommasDigits(ShowNat(n));
      ShowNatRoundTrip(n);
    } else {
      var hi, lo := Grouped(n / 1000), ThreeDigits(n % 1000);
      GroupedDigits(n / 1000);
      StripCommasAppend(hi + ",", lo);
      StripCommasAppend(hi, ",");
      assert StripCommas(",") == [];
      StripCommasDigits(lo);
      assert StripCommas(Grouped(n)) == StripCommas(hi) + lo;
      DigitsValueAppend(StripCommas(hi), lo);
      assert Pow10(3) == 1000;
    }
  }

  /** With separators stripped, a comma-grouped number string coerces to its value. */
  lemma CommaGroupedRoundTrip(n: nat)
    ensures ToNumberStripped(Some(JStr(Grouped(n)))) == n
  {
    var s := StripCommas(Grouped(n));
    GroupedDigits(n);
    assert IsDigit(s[0]) && IsDigit(s[|s| - 1]);
    TrimUnpadded(s);
  }

  lemma GroupedExample()
    ensures Grouped(12345) == "12,345"
  {
    assert ShowNat(12) == "12";
    assert ThreeDigits(345) == "345";
    assert Grouped(12345) == Grouped(12) + "," + ThreeDigits(345);
  }

  lemma UngroupedExample()
    ensures ToNumber(Some(JStr("12,345"))) == 0
  {
    var t := "12,345";
    TrimUnpadded(t);
    assert !IsDigit(t[2]);
  }

  /** "12,345" is 12345 where separators are stripped and 0 where they are not. */
  lemma CommaGroupedExample()
    ensures ToNumberStripped(Some(JStr("12,345"))) == 12345
    ensures ToNumber(Some(JStr("12,345"))) == 0
  {
    GroupedExample();
    CommaGroupedRoundTrip(12345);
    UngroupedExample();
  }
}
