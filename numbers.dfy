/** JavaScript numbers as far as the bot uses them: `parseFloat`,
  * `parseInt(s, 10)`, `Number#toString`, `Number#toFixed`, addition and
  * comparison. Finite values are exact decimals `mantissa * 10^exponent`;
  * binary floating-point rounding is not modelled. */
module Numbers {
  import opened Common
  import opened Strings

  predicate IsDigit(c: char)
  {
    '0' <= c <= '9'
  }

  predicate AllDigits(s: string)
  {
    forall i :: 0 <= i < |s| ==> IsDigit(s[i])
  }

  function DigitValue(c: char): nat
    requires IsDigit(c)
  {
    c as int - '0' as int
  }

  function DigitChar(n: nat): (c: char)
    requires n < 10
    ensures IsDigit(c) && DigitValue(c) == n
  {
    ('0' as int + n) as char
  }

  function Pow10(n: nat): (r: nat)
    ensures r >= 1
  {
    if n == 0 then 1 else 10 * Pow10(n - 1)
  }

  /** The number a string of decimal digits denotes. */
  function DigitsValue(s: string): nat
    requires AllDigits(s)
  {
    if s == [] then 0 else 10 * DigitsValue(s[..|s| - 1]) + DigitValue(s[|s| - 1])
  }

  lemma Horner(x: int, p: int, y: int, d: int)
    ensures 10 * (x * p + y) + d == x * (10 * p) + (10 * y + d)
  {
  }

  lemma {:induction false} DigitsValueConcat(a: string, b: string)
    requires AllDigits(a) && AllDigits(b)
    ensures AllDigits(a + b) && DigitsValue(a + b) == DigitsValue(a) * Pow10(|b|) + DigitsValue(b)
  {
    if b == [] {
      assert a + b == a;
    } else {
      var b' := b[..|b| - 1];
      var c := b[|b| - 1];
      assert (a + b)[..|a + b| - 1] == a + b';
      assert (a + b)[|a + b| - 1] == c;
      DigitsValueConcat(a, b');
      assert DigitsValue(a + b) == 10 * DigitsValue(a + b') + DigitValue(c);
      assert DigitsValue(b) == 10 * DigitsValue(b') + DigitValue(c);
      assert Pow10(|b|) == 10 * Pow10(|b'|);
      Horner(DigitsValue(a), Pow10(|b'|), DigitsValue(b'), DigitValue(c));
    }
  }

  /** A digit string denotes zero exactly when every digit is `0`. */
  lemma {:induction false} DigitsValueZero(s: string)
    requires AllDigits(s)
    ensures DigitsValue(s) == 0 <==> forall i :: 0 <= i < |s| ==> s[i] == '0'
  {
    if s != [] {
      var p := s[..|s| - 1];
      DigitsValueZero(p);
      assert forall i :: 0 <= i < |p| ==> p[i] == s[i];
    }
  }

  lemma AllDigitsConcat(a: string, b: string)
    requires AllDigits(a) && AllDigits(b)
    ensures AllDigits(a + b)
  {
    forall k | 0 <= k < |a + b|
      ensures IsDigit((a + b)[k])
    {
      if k >= |a| {
        assert (a + b)[k] == b[k - |a|];
      }
    }
  }

  /** Decimal digits of a natural number, without leading zeros. */
  function NatToString(n: nat): (r: string)
    ensures |r| >= 1 && AllDigits(r) && DigitsValue(r) == n
    ensures |r| > 1 ==> r[0] != '0'
    decreases n
  {
    if n < 10 then [DigitChar(n)]
    else
      var r := NatToString(n / 10) + [DigitChar(n % 10)];
      assert r[..|r| - 1] == NatToString(n / 10);
      r
  }

  /** `n` written with exactly `w` digits, zeros in front. */
  function PadDigits(n: nat, w: nat): (r: string)
    requires n < Pow10(w)
    ensures |r| == w && AllDigits(r) && DigitsValue(r) == n
  {
    if w == 0 then ""
    else
      var r := PadDigits(n / 10, w - 1) + [DigitChar(n % 10)];
      assert r[..|r| - 1] == PadDigits(n / 10, w - 1);
      r
  }

  function IntToString(i: int): string
  {
    if i < 0 then "-" + NatToString(-i) else NatToString(i)
  }

  function Abs(i: int): nat
  {
    if i < 0 then -i else i
  }

  /** `mantissa * 10^exponent`. */
  datatype Decimal = Decimal(mantissa: int, exponent: int)

  /** A JavaScript number as the bot meets it. */
  datatype Number = NaN | Finite(d: Decimal) | PosInfinity | NegInfinity

  /** The real number `mantissa * 10^exponent`, one power of ten at a time. */
  function ToReal(d: Decimal): real
    decreases Abs(d.exponent)
  {
    if d.exponent == 0 then d.mantissa as real
    else if d.exponent > 0 then 10.0 * ToReal(Decimal(d.mantissa, d.exponent - 1))
    else ToReal(Decimal(d.mantissa, d.exponent + 1)) / 10.0
  }

  /** Raising the exponent by one multiplies the value by ten. */
  lemma ValueStep(m: int, e: int)
    ensures ToReal(Decimal(m, e + 1)) == 10.0 * ToReal(Decimal(m, e))
  {
  }

  /** Multiplying the mantissa by ten and lowering the exponent by one keeps
    * the value. */
  lemma {:induction false} ValueTimesTen(m: int, e: int)
    ensures ToReal(Decimal(10 * m, e - 1)) == ToReal(Decimal(m, e))
    decreases Abs(e)
  {
    if e > 0 {
      ValueTimesTen(m, e - 1);
      ValueStep(10 * m, e - 2);
    } else if e < 0 {
      ValueTimesTen(m, e + 1);
    }
  }

  /** The value is additive in the mantissa. */
  lemma {:induction false} ValueAdd(m1: int, m2: int, e: int)
    ensures ToReal(Decimal(m1 + m2, e)) == ToReal(Decimal(m1, e)) + ToReal(Decimal(m2, e))
    decreases Abs(e)
  {
    if e > 0 {
      ValueAdd(m1, m2, e - 1);
    } else if e < 0 {
      ValueAdd(m1, m2, e + 1);
    }
  }

  /** The value has the sign of the mantissa. */
  lemma {:induction false} ValueSign(m: int, e: int)
    ensures (ToReal(Decimal(m, e)) > 0.0) == (m > 0)
    ensures (ToReal(Decimal(m, e)) == 0.0) == (m == 0)
    decreases Abs(e)
  {
    if e > 0 {
      ValueSign(m, e - 1);
    } else if e < 0 {
      ValueSign(m, e + 1);
    }
  }

  /** With a non-negative exponent the value is an integer. */
  lemma {:induction false} ValueWhole(m: int, e: nat)
    ensures ToReal(Decimal(m, e)) == (m * Pow10(e)) as real
  {
    if e > 0 {
      ValueWhole(m, e - 1);
      assert m * Pow10(e) == 10 * (m * Pow10(e - 1));
    }
  }

  /** With a negative exponent the value times a power of ten is the
    * mantissa. */
  lemma {:induction false} ValueFraction(m: int, e: nat)
    ensures ToReal(Decimal(m, -(e as int))) * (Pow10(e) as real) == m as real
  {
    if e > 0 {
      ValueFraction(m, e - 1);
      var x := ToReal(Decimal(m, -(e as int)));
      assert ToReal(Decimal(m, -((e - 1) as int))) == 10.0 * x;
      assert (Pow10(e) as real) == 10.0 * (Pow10(e - 1) as real);
    }
  }

  lemma {:induction false} Pow10Add(x: nat, y: nat)
    ensures Pow10(x + y) == Pow10(x) * Pow10(y)
  {
    if x > 0 {
      Pow10Add(x - 1, y);
    }
  }

  /** An exponent of zero, and no trailing zero digit when the exponent is
    * negative: the form `Number#toString` prints. */
  predicate IsNormal(d: Decimal)
  {
    d.exponent <= 0 && (d.exponent < 0 ==> d.mantissa % 10 != 0)
  }

  /** The canonical decimal with the same value. */
  function Normalize(d: Decimal): (n: Decimal)
    ensures IsNormal(n) && ToReal(n) == ToReal(d)
    decreases Abs(d.exponent)
  {
    if d.exponent > 0 then
      ValueTimesTen(d.mantissa, d.exponent);
      Normalize(Decimal(10 * d.mantissa, d.exponent - 1))
    else if d.exponent < 0 && d.mantissa % 10 == 0 then
      ValueTimesTen(d.mantissa / 10, d.exponent + 1);
      Normalize(Decimal(d.mantissa / 10, d.exponent + 1))
    else d
  }

  /** A canonical decimal is its own normal form. */
  lemma NormalizeIdempotent(d: Decimal)
    requires IsNormal(d)
    ensures Normalize(d) == d
  {
  }

  /** Sign, integer digits, and a fraction of exactly `w` digits (none when
    * `w` is 0): the plain-decimal layout both `toString` and `toFixed` use. */
  function PlainDecimal(neg: bool, q: nat, r: nat, w: nat): (t: string)
    requires r < Pow10(w)
  {
    (if neg then "-" else "") + NatToString(q) + (if w == 0 then "" else "." + PadDigits(r, w))
  }

  lemma DivMod(m: nat, p: nat)
    requires p > 0
    ensures m / p >= 0 && m % p < p && (m / p) * p + m % p == m
  {
  }

  /** `q * p + r` for naturals. */
  function Joined(q: nat, p: nat, r: nat): nat
  {
    MulNonNegative(q, p);
    q * p + r
  }

  lemma MulNonNegative(q: nat, p: nat)
    ensures q * p >= 0
  {
  }

  /** The magnitude `m * 10^-w` split at the decimal point. */
  function PlainOf(neg: bool, m: nat, w: nat): string
  {
    var p := Pow10(w);
    DivMod(m, p);
    PlainDecimal(neg, m / p, m % p, w)
  }

  /** A finite number in plain decimal notation over its canonical digits:
    * the layout `Number#toString` uses from 10^-6 up to below 10^21 in
    * magnitude, and `toLocaleString` uses everywhere. */
  function Render(d: Decimal): string
  {
    var n := Normalize(d);
    PlainOf(n.mantissa < 0, Abs(n.mantissa), -n.exponent)
  }

  /** `a` without its trailing zero digits, and how many there were. */
  function StripZeros(a: nat): (r: (nat, nat))
    requires a > 0
    ensures r.0 > 0 && r.0 % 10 != 0
    ensures a % 10 != 0 ==> r == (a, 0)
    decreases a
  {
    if a % 10 == 0 then
      var r := StripZeros(a / 10);
      (r.0, r.1 + 1)
    else (a, 0)
  }

  /** Appending the stripped zeros gives the number back. */
  lemma {:induction false} StripZerosRestores(a: nat)
    requires a > 0
    ensures StripZeros(a).0 * Pow10(StripZeros(a).1) == a
    decreases a
  {
    if a % 10 == 0 {
      var r := StripZeros(a / 10);
      StripZerosRestores(a / 10);
      Shift(r.0, r.1);
    }
  }

  /** One more power of ten. */
  lemma Shift(s: nat, z: nat)
    ensures s * Pow10(z + 1) == 10 * (s * Pow10(z))
  {
    assert Pow10(z + 1) == 10 * Pow10(z);
  }

  /** The exponent part `e`, sign, digits of the exponential layout. */
  function ExponentText(e: int): string
  {
    "e" + (if e < 0 then "-" else "+") + NatToString(Abs(e))
  }

  /** The exponential layout: the first digit, the other digits after a
    * point when there are any, then the exponent part. */
  function SciText(neg: bool, ds: string, e: int): string
    requires |ds| >= 1
  {
    var sign := if neg then "-" else "";
    if |ds| == 1 then sign + ds + ExponentText(e)
    else sign + ds[..1] + "." + ds[1..] + ExponentText(e)
  }

  /** Below this magnitude, and from 10^21 on, `Number#toString` switches to
    * the exponential layout. */
  const PlainFrom: real := 0.000001
  const PlainBelow: real := 1000000000000000000000.0

  /** `Number#toString` of a finite number: plain decimal notation when the
    * magnitude is zero or within [10^-6, 10^21), otherwise the shortest
    * digit string in exponential layout, the exponent being the position of
    * the first digit less one. */
  function DecimalToString(d: Decimal): string
  {
    var n := Normalize(d);
    var a := Abs(n.mantissa);
    var v := ToReal(Decimal(a, n.exponent));
    if a == 0 || (PlainFrom <= v < PlainBelow) then Render(d) else SciOf(n)
  }

  /** `String(x)` / `x.toString()`. */
  function NumberToString(x: Number): string
  {
    match x
    case NaN => "NaN"
    case PosInfinity => "Infinity"
    case NegInfinity => "-Infinity"
    case Finite(d) => DecimalToString(d)
  }

  /** Length of the run of decimal digits of `s` that starts at `i`. */
  function DigitRun(s: string, i: nat): (n: nat)
    requires i <= |s|
    ensures i + n <= |s|
    decreases |s| - i
  {
    if i < |s| && IsDigit(s[i]) then 1 + DigitRun(s, i + 1) else 0
  }

  /** Everything in the run `DigitRun` measures is a digit, and the run is
    * maximal. */
  lemma {:induction false} DigitRunAll(s: string, i: nat)
    requires i <= |s|
    ensures forall k :: i <= k < i + DigitRun(s, i) ==> IsDigit(s[k])
    ensures i + DigitRun(s, i) == |s| || !IsDigit(s[i + DigitRun(s, i)])
    decreases |s| - i
  {
    if i < |s| && IsDigit(s[i]) {
      DigitRunAll(s, i + 1);
    }
  }

  /** The run `DigitRun` measures, as a slice, is all digits. */
  lemma DigitRunDigits(s: string, i: nat)
    requires i <= |s|
    ensures i + DigitRun(s, i) <= |s| && AllDigits(s[i..i + DigitRun(s, i)])
  {
    var r := s[i..i + DigitRun(s, i)];
    DigitRunAll(s, i);
    forall k | 0 <= k < |r| ensures IsDigit(r[k]) {
      assert r[k] == s[i + k];
    }
  }

  /** A maximal run of `len` digits at `i` is the run `DigitRun` measures. */
  lemma DigitRunIs(s: string, i: nat, len: nat)
    requires i + len <= |s|
    requires forall k :: i <= k < i + len ==> IsDigit(s[k])
    requires i + len == |s| || !IsDigit(s[i + len])
    ensures DigitRun(s, i) == len
    decreases len
  {
    if len > 0 {
      DigitRunIs(s, i + 1, len - 1);
    }
  }

  /** `m` with a minus sign when `neg`. */
  function Signed(neg: bool, m: nat): int
  {
    if neg then -(m as int) else m as int
  }

  /** Where the digits start after an optional `+` or `-`. */
  function SignEnd(t: string): (i: nat)
    ensures i <= |t|
  {
    if |t| > 0 && (t[0] == '-' || t[0] == '+') then 1 else 0
  }

  predicate Negative(t: string)
  {
    |t| > 0 && t[0] == '-'
  }

  /** The value of an optional exponent part `e[+-]digits` at `k`, or 0 when
    * none is there. */
  function ExponentPart(t: string, k: nat): int
    requires k <= |t|
  {
    if k < |t| && (t[k] == 'e' || t[k] == 'E') then
      var rest := t[k + 1..];
      var i := SignEnd(rest);
      var g := DigitRun(rest, i);
      DigitRunDigits(rest, i);
      if g == 0 then 0 else Signed(Negative(rest), DigitsValue(rest[i..i + g]))
    else 0
  }

  /** `parseFloat`: leading white space is skipped, then the longest prefix
    * that reads as a signed decimal literal (or `Infinity`) is taken; with no
    * such prefix the result is NaN. */
  function ParseFloat(text: string): (x: Number)
  {
    ParseLiteral(TrimStart(text))
  }

  function ParseLiteral(t: string): (x: Number)
  {
    var i := SignEnd(t);
    if StartsWith(t[i..], "Infinity") then
      if Negative(t) then NegInfinity else PosInfinity
    else ParseDigits(t, i, Negative(t))
  }

  /** Integer digits, an optional fraction after `.`, an optional exponent;
    * at least one digit before or after the point. */
  function ParseDigits(t: string, i: nat, neg: bool): (x: Number)
    requires i <= |t|
  {
    var a := DigitRun(t, i);
    var j := i + a;
    DigitRunDigits(t, i);
    if j < |t| && t[j] == '.' then
      var f := DigitRun(t, j + 1);
      DigitRunDigits(t, j + 1);
      AllDigitsConcat(t[i..j], t[j + 1..j + 1 + f]);
      if a == 0 && f == 0 then NaN
      else Finite(Decimal(Signed(neg, DigitsValue(t[i..j] + t[j + 1..j + 1 + f])), ExponentPart(t, j + 1 + f) - f))
    else if a == 0 then NaN
    else Finite(Decimal(Signed(neg, DigitsValue(t[i..j])), ExponentPart(t, j)))
  }

  /** `parseInt(text, 10)`: leading white space skipped, an optional sign,
    * then the longest run of digits; None stands for NaN. */
  function ParseInt(text: string): (r: Option<int>)
  {
    var t := TrimStart(text);
    var i := SignEnd(t);
    var a := DigitRun(t, i);
    DigitRunDigits(t, i);
    if a == 0 then None else Some(Signed(Negative(t), DigitsValue(t[i..i + a])))
  }

  /** `parseInt` of a text that starts with digits reads exactly those
    * digits, whatever follows them. */
  lemma {:induction false} ParseIntLeadingDigits(ds: string, rest: string)
    requires |ds| >= 1 && AllDigits(ds)
    requires rest == [] || !IsDigit(rest[0])
    ensures ParseInt(ds + rest) == Some(DigitsValue(ds))
  {
    var t := ds + rest;
    assert t[0] == ds[0];
    assert TrimStart(t) == t;
    assert SignEnd(t) == 0 && !Negative(t);
    assert forall k :: 0 <= k < |ds| ==> t[k] == ds[k];
    if rest != [] { assert t[|ds|] == rest[0]; }
    DigitRunIs(t, 0, |ds|);
    assert t[0..|ds|] == ds;
  }

  /** A literal whose digits start right after its optional sign. */
  lemma {:induction false} ParseLiteralOfDigits(t: string)
    requires SignEnd(t) < |t| && IsDigit(t[SignEnd(t)])
    ensures ParseLiteral(t) == ParseDigits(t, SignEnd(t), Negative(t))
  {
    var i := SignEnd(t);
    assert t[i..][0] == t[i];
  }

  /** A run of digits up to the end of the text, read as an integer. */
  lemma {:induction false} ParseWholeDigits(t: string, i: nat, neg: bool)
    requires i < |t| && forall k :: i <= k < |t| ==> IsDigit(t[k])
    ensures AllDigits(t[i..])
    ensures ParseDigits(t, i, neg) == Finite(Decimal(Signed(neg, DigitsValue(t[i..])), 0))
  {
    DigitRunIs(t, i, |t| - i);
    assert t[i..i + (|t| - i)] == t[i..];
  }

  /** Digits, a point and digits up to the end of the text, read as a
    * decimal with as many fraction digits as follow the point. */
  lemma {:induction false} ParseFractionDigits(t: string, i: nat, neg: bool, qs: string, rs: string)
    requires i <= |t| && t[i..] == qs + "." + rs
    requires |qs| > 0 && AllDigits(qs) && AllDigits(rs) && AllDigits(qs + rs)
    ensures ParseDigits(t, i, neg) == Finite(Decimal(Signed(neg, DigitsValue(qs + rs)), -|rs|))
  {
    var j := i + |qs|;
    var f := |rs|;
    TailLayout(t, i, qs, rs);
    DigitRunIs(t, i, |qs|);
    DigitRunIs(t, j + 1, f);
    assert ExponentPart(t, j + 1 + f) == 0;
    ParseDigitsFraction(t, i, neg, qs, rs, 0);
  }

  /** Where the pieces of a tail `qs + "." + rs` sit in the text. */
  lemma TailLayout(t: string, i: nat, qs: string, rs: string)
    requires i <= |t| && t[i..] == qs + "." + rs
    requires AllDigits(qs) && AllDigits(rs)
    ensures var j := i + |qs|;
            && |t| == j + 1 + |rs| && t[j] == '.'
            && t[i..j] == qs && t[j + 1..j + 1 + |rs|] == rs
            && (forall k :: i <= k < j ==> IsDigit(t[k]))
            && (forall k :: j + 1 <= k < |t| ==> IsDigit(t[k]))
  {
    var j := i + |qs|;
    var tail := t[i..];
    assert t[j] == tail[|qs|];
    assert t[i..j] == tail[..|qs|];
    assert t[j + 1..j + 1 + |rs|] == tail[|qs| + 1..];
    forall k | i <= k < j
      ensures IsDigit(t[k])
    {
      assert t[k] == tail[k - i] == qs[k - i];
    }
    forall k | j + 1 <= k < |t|
      ensures IsDigit(t[k])
    {
      assert t[k] == tail[k - i] == rs[k - j - 1];
    }
  }

  /** A text made of an optional minus sign and something that starts with a
    * digit is read from its digits. */
  lemma {:induction false} SignedTextStart(sign: string, body: string, neg: bool)
    requires sign == (if neg then "-" else "")
    requires |body| > 0 && IsDigit(body[0])
    ensures ParseFloat(sign + body) == ParseDigits(sign + body, |sign|, neg)
  {
    var t := sign + body;
    assert t[0] == '-' || IsDigit(t[0]);
    assert TrimStart(t) == t;
    assert SignEnd(t) == |sign| && Negative(t) == neg;
    assert t[|sign|] == body[0];
    ParseLiteralOfDigits(t);
  }

  /** Sign and digits: read as an integer. */
  lemma {:induction false} IntegerTextParses(sign: string, qs: string, neg: bool)
    requires sign == (if neg then "-" else "")
    requires |qs| > 0 && AllDigits(qs)
    ensures ParseFloat(sign + qs) == Finite(Decimal(Signed(neg, DigitsValue(qs)), 0))
  {
    var t := sign + qs;
    SignedTextStart(sign, qs, neg);
    assert t[|sign|..] == qs;
    ParseWholeDigits(t, |sign|, neg);
  }

  /** Sign, digits, point, digits: read as a decimal. */
  lemma {:induction false} FractionTextParses(sign: string, qs: string, rs: string, neg: bool)
    requires sign == (if neg then "-" else "")
    requires |qs| > 0 && AllDigits(qs) && AllDigits(rs) && AllDigits(qs + rs)
    ensures ParseDigits(sign + qs + "." + rs, |sign|, neg) == Finite(Decimal(Signed(neg, DigitsValue(qs + rs)), -|rs|))
  {
    var t := sign + qs + "." + rs;
    assert t[|sign|..] == qs + "." + rs;
    ParseFractionDigits(t, |sign|, neg, qs, rs);
  }

  lemma {:induction false} PlainIntegerParses(neg: bool, q: nat)
    ensures ParseFloat(PlainDecimal(neg, q, 0, 0)) == Finite(Decimal(Signed(neg, q), 0))
  {
    var sign := if neg then "-" else "";
    assert PlainDecimal(neg, q, 0, 0) == sign + NatToString(q);
    IntegerTextParses(sign, NatToString(q), neg);
  }

  lemma {:induction false} PlainFractionParses(neg: bool, q: nat, r: nat, w: nat)
    requires r < Pow10(w) && w > 0
    ensures ParseFloat(PlainDecimal(neg, q, r, w)) == Finite(Decimal(Signed(neg, Joined(q, Pow10(w), r)), -(w as int)))
  {
    var qs, rs := NatToString(q), PadDigits(r, w);
    var sign := if neg then "-" else "";
    assert PlainDecimal(neg, q, r, w) == sign + qs + "." + rs;
    AllDigitsConcat(qs, rs);
    FractionTextReads(sign, qs, rs, neg);
    DigitsValueConcat(qs, rs);
  }

  /** Sign, digits, point, digits, as `parseFloat` reads them. */
  lemma {:induction false} FractionTextReads(sign: string, qs: string, rs: string, neg: bool)
    requires sign == (if neg then "-" else "")
    requires |qs| > 0 && AllDigits(qs) && AllDigits(rs) && AllDigits(qs + rs)
    ensures ParseFloat(sign + qs + "." + rs) == Finite(Decimal(Signed(neg, DigitsValue(qs + rs)), -|rs|))
  {
    assert sign + qs + "." + rs == sign + (qs + "." + rs);
    SignedTextStart(sign, qs + "." + rs, neg);
    FractionTextParses(sign, qs, rs, neg);
  }

  /** Reading back the plain-decimal layout gives the decimal it was written
    * from. */
  lemma PlainDecimalParses(neg: bool, q: nat, r: nat, w: nat)
    requires r < Pow10(w)
    ensures ParseFloat(PlainDecimal(neg, q, r, w)) == Finite(Decimal(Signed(neg, Joined(q, Pow10(w), r)), -(w as int)))
  {
    if w == 0 {
      assert r == 0;
      assert Joined(q, Pow10(w), r) == q;
      PlainIntegerParses(neg, q);
      assert PlainDecimal(neg, q, r, w) == PlainDecimal(neg, q, 0, 0);
    } else {
      PlainFractionParses(neg, q, r, w);
    }
  }

  /** Printing a finite number and parsing the text back gives the same
    * number, in canonical form. */
  lemma {:induction false} RenderRoundTrip(d: Decimal)
    ensures ParseFloat(Render(d)) == Finite(Normalize(d))
  {
    var n := Normalize(d);
    var neg, m, w := n.mantissa < 0, Abs(n.mantissa), -n.exponent;
    assert Signed(neg, m) == n.mantissa && -(w as int) == n.exponent;
    assert Render(d) == PlainOf(neg, m, w);
    PlainOfParses(neg, m, w);
  }

  /** The plain layout of `m * 10^-w` reads back as that decimal. */
  lemma {:induction false} PlainOfParses(neg: bool, m: nat, w: nat)
    ensures ParseFloat(PlainOf(neg, m, w)) == Finite(Decimal(Signed(neg, m), -(w as int)))
  {
    var p := Pow10(w);
    DivMod(m, p);
    PlainDecimalParses(neg, m / p, m % p, w);
    assert Joined(m / p, p, m % p) == m;
  }

  /** The exponent part is read from the suffix it starts. */
  lemma ExponentPartSuffix(t: string, p: nat)
    requires p <= |t|
    ensures ExponentPart(t, p) == ExponentPart(t[p..], 0)
  {
    if p < |t| {
      assert t[p..][0] == t[p];
      assert t[p..][1..] == t[p + 1..];
    }
  }

  /** The exponent part the layout writes reads back as its exponent. */
  lemma {:induction false} ExponentTextParses(e: int)
    ensures ExponentPart(ExponentText(e), 0) == e
  {
    var x := ExponentText(e);
    var ns := NatToString(Abs(e));
    var rest := x[1..];
    assert rest == (if e < 0 then "-" else "+") + ns;
    assert SignEnd(rest) == 1 && Negative(rest) == (e < 0);
    forall k | 1 <= k < 1 + |ns|
      ensures IsDigit(rest[k])
    {
      assert rest[k] == ns[k - 1];
    }
    DigitRunIs(rest, 1, |ns|);
    assert rest[1..1 + |ns|] == ns;
  }

  /** A text ending in the exponent part of `e` carries that exponent. */
  lemma ExponentTail(t: string, p: nat, e: int)
    requires p <= |t| && t[p..] == ExponentText(e)
    ensures ExponentPart(t, p) == e
  {
    ExponentPartSuffix(t, p);
    ExponentTextParses(e);
  }

  /** Digits followed by an exponent part. */
  lemma {:induction false} SciIntegerDigits(t: string, i: nat, neg: bool, qs: string, e: int)
    requires i <= |t| && t[i..] == qs + ExponentText(e)
    requires |qs| > 0 && AllDigits(qs)
    ensures ParseDigits(t, i, neg) == Finite(Decimal(Signed(neg, DigitsValue(qs)), e))
  {
    var j := i + |qs|;
    var tail := t[i..];
    assert t[j] == tail[|qs|] == 'e';
    assert t[i..j] == tail[..|qs|] == qs;
    assert t[j..] == tail[|qs|..] == ExponentText(e);
    forall k | i <= k < j
      ensures IsDigit(t[k])
    {
      assert t[k] == tail[k - i] == qs[k - i];
    }
    DigitRunIs(t, i, |qs|);
    ExponentTail(t, j, e);
  }

  /** Where the pieces of a tail `qs + "." + rs + ExponentText(e)` sit. */
  lemma SciTailLayout(t: string, i: nat, qs: string, rs: string, e: int)
    requires i <= |t| && t[i..] == qs + "." + rs + ExponentText(e)
    requires AllDigits(qs) && AllDigits(rs)
    ensures var j := i + |qs|;
            && j + 1 + |rs| < |t| && t[j] == '.' && t[j + 1 + |rs|] == 'e'
            && t[i..j] == qs && t[j + 1..j + 1 + |rs|] == rs
            && t[j + 1 + |rs|..] == ExponentText(e)
            && (forall k :: i <= k < j ==> IsDigit(t[k]))
            && (forall k :: j + 1 <= k < j + 1 + |rs| ==> IsDigit(t[k]))
  {
    var j := i + |qs|;
    var tail := t[i..];
    var f := |rs|;
    assert t[j] == tail[|qs|];
    assert t[j + 1 + f] == tail[|qs| + 1 + f];
    assert t[i..j] == tail[..|qs|];
    assert t[j + 1..j + 1 + f] == tail[|qs| + 1..|qs| + 1 + f];
    assert t[j + 1 + f..] == tail[|qs| + 1 + f..];
    forall k | i <= k < j
      ensures IsDigit(t[k])
    {
      assert t[k] == tail[k - i] == qs[k - i];
    }
    forall k | j + 1 <= k < j + 1 + f
      ensures IsDigit(t[k])
    {
      assert t[k] == tail[k - i] == rs[k - j - 1];
    }
  }

  /** The digit runs and the exponent `ParseDigits` finds in a tail
    * `qs + "." + rs + ExponentText(e)`. */
  lemma SciRuns(t: string, i: nat, qs: string, rs: string, e: int)
    requires i <= |t| && t[i..] == qs + "." + rs + ExponentText(e)
    requires AllDigits(qs) && AllDigits(rs)
    ensures var j := i + |qs|;
            && j + 1 + |rs| < |t| && t[j] == '.'
            && DigitRun(t, i) == |qs| && DigitRun(t, j + 1) == |rs|
            && t[i..j] == qs && t[j + 1..j + 1 + |rs|] == rs
            && ExponentPart(t, j + 1 + |rs|) == e
  {
    var j := i + |qs|;
    SciTailLayout(t, i, qs, rs, e);
    DigitRunIs(t, i, |qs|);
    DigitRunIs(t, j + 1, |rs|);
    ExponentTail(t, j + 1 + |rs|, e);
  }

  /** Digits, a point, digits, then an exponent part. */
  lemma {:induction false} SciFractionDigits(t: string, i: nat, neg: bool, qs: string, rs: string, e: int)
    requires i <= |t| && t[i..] == qs + "." + rs + ExponentText(e)
    requires |qs| > 0 && AllDigits(qs) && AllDigits(rs)
    ensures AllDigits(qs + rs)
    ensures ParseDigits(t, i, neg) == Finite(Decimal(Signed(neg, DigitsValue(qs + rs)), e - |rs|))
  {
    SciRuns(t, i, qs, rs, e);
    AllDigitsConcat(qs, rs);
    ParseDigitsFraction(t, i, neg, qs, rs, e);
  }

  /** `ParseDigits` over integer digits `qs`, a point, fraction digits `rs`
    * and an exponent part worth `x`. */
  lemma ParseDigitsFraction(t: string, i: nat, neg: bool, qs: string, rs: string, x: int)
    requires i + |qs| + 1 + |rs| <= |t| && |qs| > 0 && t[i + |qs|] == '.'
    requires DigitRun(t, i) == |qs| && DigitRun(t, i + |qs| + 1) == |rs|
    requires t[i..i + |qs|] == qs && t[i + |qs| + 1..i + |qs| + 1 + |rs|] == rs
    requires AllDigits(qs + rs) && ExponentPart(t, i + |qs| + 1 + |rs|) == x
    ensures ParseDigits(t, i, neg) == Finite(Decimal(Signed(neg, DigitsValue(qs + rs)), x - |rs|))
  {
    DigitRunDigits(t, i);
    DigitRunDigits(t, i + |qs| + 1);
  }

  /** A single digit in exponential layout reads back. */
  lemma {:induction false} SciOneDigitParses(sign: string, neg: bool, qs: string, e: int)
    requires sign == (if neg then "-" else "")
    requires |qs| == 1 && AllDigits(qs)
    ensures ParseFloat(sign + qs + ExponentText(e)) == Finite(Decimal(Signed(neg, DigitsValue(qs)), e))
  {
    var body := qs + ExponentText(e);
    var t := sign + body;
    assert sign + qs + ExponentText(e) == t && t[|sign|..] == body;
    SignedTextStart(sign, body, neg);
    SciIntegerDigits(t, |sign|, neg, qs, e);
  }

  /** Several digits in exponential layout read back. */
  lemma {:induction false} SciDigitsParse(sign: string, neg: bool, qs: string, rs: string, e: int)
    requires sign == (if neg then "-" else "")
    requires |qs| == 1 && AllDigits(qs) && AllDigits(rs)
    ensures AllDigits(qs + rs)
    ensures ParseFloat(sign + qs + "." + rs + ExponentText(e)) == Finite(Decimal(Signed(neg, DigitsValue(qs + rs)), e - |rs|))
  {
    var body := qs + "." + rs + ExponentText(e);
    var t := sign + body;
    assert sign + qs + "." + rs + ExponentText(e) == t && t[|sign|..] == body;
    SignedTextStart(sign, body, neg);
    SciFractionDigits(t, |sign|, neg, qs, rs, e);
  }

  /** The exponential layout reads back as its digits shifted by the
    * exponent. */
  lemma {:induction false} SciTextParses(neg: bool, ds: string, e: int)
    requires |ds| >= 1 && AllDigits(ds)
    ensures ParseFloat(SciText(neg, ds, e)) == Finite(Decimal(Signed(neg, DigitsValue(ds)), e - (|ds| - 1)))
  {
    var sign := if neg then "-" else "";
    if |ds| == 1 {
      SciOneDigitParses(sign, neg, ds, e);
    } else {
      var qs, rs := ds[..1], ds[1..];
      assert qs + rs == ds;
      SciDigitsParse(sign, neg, qs, rs, e);
    }
  }

  /** A positive exponent is folded into the mantissa. */
  lemma {:induction false} NormalizeUp(m: int, z: nat)
    ensures Normalize(Decimal(m, z)) == Decimal(m * Pow10(z), 0)
    decreases z
  {
    if z > 0 {
      NormalizeUp(10 * m, z - 1);
      assert Pow10(z) == 10 * Pow10(z - 1);
      assert (10 * m) * Pow10(z - 1) == m * Pow10(z);
    }
  }

  /** `m` with its sign scaled by a power of ten. */
  lemma SignedScaled(neg: bool, s: nat, p: nat)
    ensures Signed(neg, s) * p == Signed(neg, s * p)
  {
  }

  /** The exponential layout of a canonical decimal: its digits without the
    * trailing zeros, the exponent placing the first digit. */
  function SciOf(n: Decimal): string
    requires n.mantissa != 0
  {
    var (s, z) := StripZeros(Abs(n.mantissa));
    var ds := NatToString(s);
    SciText(n.mantissa < 0, ds, |ds| + z + n.exponent - 1)
  }

  /** The exponential layout reads back as the stripped digits, with the
    * stripped zeros moved into the exponent. */
  lemma SciOfParses(n: Decimal)
    requires n.mantissa != 0
    ensures var (s, z) := StripZeros(Abs(n.mantissa));
            ParseFloat(SciOf(n)) == Finite(Decimal(Signed(n.mantissa < 0, s), z + n.exponent))
  {
    var (s, z) := StripZeros(Abs(n.mantissa));
    var ds := NatToString(s);
    var e := |ds| + z + n.exponent - 1;
    assert SciOf(n) == SciText(n.mantissa < 0, ds, e);
    SciDigitsOf(n.mantissa < 0, s, e);
  }

  /** The exponential layout of the digits of `s` reads back as `s`. */
  lemma SciDigitsOf(neg: bool, s: nat, e: int)
    ensures ParseFloat(SciText(neg, NatToString(s), e)) == Finite(Decimal(Signed(neg, s), e - (|NatToString(s)| - 1)))
  {
    SciTextParses(neg, NatToString(s), e);
  }

  /** The exponential branch of `toString` reads back as the canonical
    * decimal it was printed from. */
  lemma {:induction false} SciRoundTrip(n: Decimal)
    requires IsNormal(n) && n.mantissa != 0
    ensures ParseFloat(SciOf(n)).Finite? && Normalize(ParseFloat(SciOf(n)).d) == n
  {
    SciOfParses(n);
    SciBackNormal(n);
  }

  /** Dropping the sign keeps a last digit that is not zero. */
  lemma AbsLastDigit(m: int)
    requires m % 10 != 0
    ensures Abs(m) % 10 != 0
  {
  }

  /** Putting the stripped zeros back gives the canonical decimal. */
  lemma {:induction false} SciBackNormal(n: Decimal)
    requires IsNormal(n) && n.mantissa != 0
    ensures var (s, z) := StripZeros(Abs(n.mantissa));
            Normalize(Decimal(Signed(n.mantissa < 0, s), z + n.exponent)) == n
  {
    var a := Abs(n.mantissa);
    var (s, z) := StripZeros(a);
    var neg := n.mantissa < 0;
    if n.exponent < 0 {
      AbsLastDigit(n.mantissa);
      assert Signed(neg, a) == n.mantissa;
      NormalizeIdempotent(n);
    } else {
      StripZerosRestores(a);
      NormalizeUp(Signed(neg, s), z);
      SignedScaled(neg, s, Pow10(z));
      assert Signed(neg, a) == n.mantissa;
    }
  }

  /** Printing a finite number with `toString` and parsing the text back
    * gives a number of the same value and the same canonical form. */
  lemma {:induction false} DecimalToStringRoundTrip(d: Decimal)
    ensures ParseFloat(DecimalToString(d)).Finite?
    ensures Normalize(ParseFloat(DecimalToString(d)).d) == Normalize(d)
    ensures ToReal(ParseFloat(DecimalToString(d)).d) == ToReal(d)
  {
    var n := Normalize(d);
    var a := Abs(n.mantissa);
    var v := ToReal(Decimal(a, n.exponent));
    if a == 0 || (PlainFrom <= v < PlainBelow) {
      assert DecimalToString(d) == Render(d);
      RenderRoundTrip(d);
      NormalizeIdempotent(n);
    } else {
      assert DecimalToString(d) == SciOf(n);
      SciRoundTrip(n);
    }
  }

  /** `String(x)` of a finite number reads back as a number of the same
    * value. */
  lemma NumberToStringReads(x: Number)
    requires x.Finite?
    ensures ParseFloat(NumberToString(x)).Finite? && ToReal(ParseFloat(NumberToString(x)).d) == ToReal(x.d)
  {
    DecimalToStringRoundTrip(x.d);
  }

  /** Inside the plain range `toString` prints the plain layout. */
  lemma PlainToString(d: Decimal)
    requires PlainFrom <= ToReal(d) < PlainBelow
    ensures DecimalToString(d) == Render(d)
  {
    var n := Normalize(d);
    ValueSign(n.mantissa, n.exponent);
    assert Decimal(Abs(n.mantissa), n.exponent) == n;
  }

  /** A power of ten strips to a single digit one. */
  lemma {:induction false} StripPower(z: nat)
    ensures StripZeros(Pow10(z)) == (1, z)
  {
    if z > 0 {
      StripPower(z - 1);
      assert Pow10(z) / 10 == Pow10(z - 1);
    }
  }

  /** 10^21 is the first integer `toString` prints in exponential layout. */
  lemma LargeExample()
    ensures DecimalToString(Decimal(1000000000000000000000, 0)) == "1e+21"
  {
    var n := Decimal(1000000000000000000000, 0);
    assert ToReal(n) == PlainBelow;
    assert DecimalToString(n) == SciOf(n);
    LargeLayout();
  }

  lemma LargeLayout()
    ensures SciOf(Decimal(1000000000000000000000, 0)) == "1e+21"
  {
    Pow10Add(7, 7);
    Pow10Add(14, 7);
    assert Pow10(7) == 10000000;
    StripPower(21);
    assert SciOf(Decimal(1000000000000000000000, 0)) == SciText(false, "1", 21);
  }

  /** 10^-7 is printed in exponential layout too. */
  lemma SmallExample()
    ensures DecimalToString(Decimal(1, -7)) == "1e-7"
  {
    var small := Decimal(1, -7);
    assert Normalize(small) == small;
    assert ToReal(small) < PlainFrom;
    assert StripZeros(1) == (1, 0);
    assert NatToString(1) == "1" && NatToString(7) == "7";
  }

  /** Printing ignores the form a decimal is written in. */
  lemma RenderCanonical(d: Decimal)
    ensures Render(Normalize(d)) == Render(d)
  {
    NormalizeIdempotent(Normalize(d));
  }

  /** A `string | number` argument. */
  datatype Amount = AmountText(s: string) | AmountNumber(x: Number)

  /** The number such an argument stands for: a string goes through
    * `parseFloat`. */
  function NumericAmount(a: Amount): Number
  {
    match a
    case AmountText(s) => ParseFloat(s)
    case AmountNumber(x) => x
  }

  /** `x || 0` on a number: NaN (and zero) become zero. */
  function OrZero(x: Number): (r: Number)
    ensures r != NaN
    ensures x != NaN ==> (r == x || (x.Finite? && x.d.mantissa == 0 && r == Finite(Decimal(0, 0))))
  {
    match x
    case NaN => Finite(Decimal(0, 0))
    case Finite(d) => if d.mantissa == 0 then Finite(Decimal(0, 0)) else x
    case _ => x
  }

  /** Exact sum of two decimals, computed at the smaller exponent. */
  function AddDecimal(a: Decimal, b: Decimal): (c: Decimal)
    ensures ToReal(c) == ToReal(a) + ToReal(b)
    decreases Abs(a.exponent - b.exponent)
  {
    if a.exponent > b.exponent then
      ValueTimesTen(a.mantissa, a.exponent);
      AddDecimal(Decimal(10 * a.mantissa, a.exponent - 1), b)
    else if b.exponent > a.exponent then
      ValueTimesTen(b.mantissa, b.exponent);
      AddDecimal(a, Decimal(10 * b.mantissa, b.exponent - 1))
    else
      ValueAdd(a.mantissa, b.mantissa, a.exponent);
      Decimal(a.mantissa + b.mantissa, a.exponent)
  }

  /** JavaScript `+` on numbers. */
  function Add(x: Number, y: Number): (r: Number)
    ensures x.Finite? && y.Finite? ==> r.Finite? && ToReal(r.d) == ToReal(x.d) + ToReal(y.d)
    ensures (x == NaN || y == NaN) ==> r == NaN
  {
    match (x, y)
    case (NaN, _) => NaN
    case (_, NaN) => NaN
    case (PosInfinity, NegInfinity) => NaN
    case (NegInfinity, PosInfinity) => NaN
    case (PosInfinity, _) => PosInfinity
    case (NegInfinity, _) => NegInfinity
    case (_, PosInfinity) => PosInfinity
    case (_, NegInfinity) => NegInfinity
    case (Finite(a), Finite(b)) => Finite(AddDecimal(a, b))
  }

  /** `x > bound`; false for NaN. */
  predicate Greater(x: Number, bound: real)
  {
    match x
    case NaN => false
    case PosInfinity => true
    case NegInfinity => false
    case Finite(d) => ToReal(d) > bound
  }

  /** `x <= bound`; false for NaN. */
  predicate AtMost(x: Number, bound: real)
  {
    match x
    case NaN => false
    case PosInfinity => false
    case NegInfinity => true
    case Finite(d) => ToReal(d) <= bound
  }

  /** `|x| * 10^f` rounded to an integer, halves rounded up: the integer
    * `toFixed(f)` picks. */
  function RoundedScaled(d: Decimal, f: nat): nat
  {
    var m := Abs(d.mantissa);
    var s := d.exponent + f;
    if s >= 0 then m * Pow10(s) else (m + Pow10(-s) / 2) / Pow10(-s)
  }

  /** `Number#toFixed(f)` of a finite number below 10^21. */
  function ToFixed(d: Decimal, f: nat): string
  {
    var n := RoundedScaled(d, f);
    DivMod(n, Pow10(f));
    PlainDecimal(d.mantissa < 0, n / Pow10(f), n % Pow10(f), f)
  }

  /** `toFixed(f)` rounds the magnitude to the nearest multiple of `10^-f`,
    * halves going up: the kept integer is within half a unit of `|m| * 10^s`. */
  lemma {:induction false} RoundedScaledNearest(d: Decimal, f: nat)
    requires d.exponent + f < 0
    ensures var p := Pow10(-(d.exponent + f));
            2 * (RoundedScaled(d, f) * p) <= 2 * Abs(d.mantissa) + p
            && 2 * Abs(d.mantissa) + p < 2 * (RoundedScaled(d, f) * p) + 2 * p
  {
    var p := Pow10(-(d.exponent + f));
    var m := Abs(d.mantissa);
    var h := p / 2;
    DivMod(m + h, p);
    DivMod(p, 2);
    var n := (m + h) / p;
    assert n * p + (m + h) % p == m + h;
    assert 2 * h <= p <= 2 * h + 1;
  }

  /** Rounding to `f` fraction digits keeps a magnitude of at most `b`
    * units at most `b + 1`. */
  lemma {:induction false} RoundedScaledAtMost(d: Decimal, f: nat, b: nat)
    requires ToReal(Decimal(Abs(d.mantissa), d.exponent + f)) <= b as real
    ensures RoundedScaled(d, f) <= b + 1
  {
    var m := Abs(d.mantissa);
    var s := d.exponent + f;
    if s >= 0 {
      WholeAtMost(m, s, b);
    } else {
      FractionAtMost(m, -s, b);
    }
  }

  lemma WholeAtMost(m: nat, s: nat, b: nat)
    requires ToReal(Decimal(m, s)) <= b as real
    ensures m * Pow10(s) <= b
  {
    ValueWhole(m, s);
  }

  lemma FractionAtMost(m: nat, s: nat, b: nat)
    requires ToReal(Decimal(m, -(s as int))) <= b as real
    ensures (m + Pow10(s) / 2) / Pow10(s) <= b + 1
  {
    ValueFraction(m, s);
    HalfUpFromValue(ToReal(Decimal(m, -(s as int))), m, Pow10(s), b);
  }

  lemma HalfUpFromValue(v: real, m: nat, p: nat, b: nat)
    requires p > 0 && v * (p as real) == m as real && v <= b as real
    ensures (m + p / 2) / p <= b + 1
  {
    ScaledAtMost(v, m, p, b);
    HalfUpAtMost(m, p, b);
  }

  lemma ScaledAtMost(v: real, m: nat, p: nat, b: nat)
    requires p > 0 && v * (p as real) == m as real && v <= b as real
    ensures m <= b * p
  {
    assert v * (p as real) <= (b as real) * (p as real);
    assert ((b * p) as real) == (b as real) * (p as real);
  }

  lemma HalfUpAtMost(m: nat, p: nat, b: nat)
    requires p > 0 && m <= b * p
    ensures (m + p / 2) / p <= b + 1
  {
    DivMod(m + p / 2, p);
    var n := (m + p / 2) / p;
    assert n * p <= m + p;
    MulMono(b + 2, n, p);
    assert (b + 2) * p == b * p + 2 * p;
  }

  lemma {:induction false} MulMono(x: nat, y: nat, p: nat)
    ensures x <= y ==> x * p <= y * p
  {
    if p > 0 {
      MulMono(x, y, p - 1);
      assert x * p == x * (p - 1) + x && y * p == y * (p - 1) + y;
    }
  }

  /** From 10^21 on `toString` prints the exponential layout. */
  lemma SciToString(d: Decimal)
    requires ToReal(d) >= PlainBelow
    ensures Normalize(d).mantissa != 0 && DecimalToString(d) == SciOf(Normalize(d))
  {
    var n := Normalize(d);
    ValueSign(n.mantissa, n.exponent);
    assert Decimal(Abs(n.mantissa), n.exponent) == n;
  }

  /** The text `toFixed(f)` prints reads back as the rounded value with
    * exactly `f` fraction digits. */
  lemma {:induction false} ToFixedParses(d: Decimal, f: nat)
    ensures ParseFloat(ToFixed(d, f)) == Finite(Decimal(Signed(d.mantissa < 0, RoundedScaled(d, f)), -(f as int)))
  {
    var n := RoundedScaled(d, f);
    var p := Pow10(f);
    DivMod(n, p);
    PlainDecimalParses(d.mantissa < 0, n / p, n % p, f);
    assert Joined(n / p, p, n % p) == n;
  }
}
