/** The pure parts of the transfer API client (`src/api/transfers.ts`): the
  * amount conversion to the smallest unit, the request bodies, and the
  * precedence by which an HTTP error becomes a message. */
module Transfers {
  import opened Common
  import opened Numbers

  /** Above this an amount is taken to be in the smallest unit already. */
  const LargeThreshold: real := 1000000.0

  /** `x * 10^8`, exactly. */
  function Scale8(x: Number): (r: Number)
    ensures x.Finite? ==> r.Finite? && ToReal(r.d) == 100000000.0 * ToReal(x.d)
    ensures x == NaN <==> r == NaN
  {
    match x
    case Finite(d) =>
      ValueScale8(d.mantissa, d.exponent);
      Finite(Decimal(d.mantissa, d.exponent + 8))
    case _ => x
  }

  lemma ValueScale8(m: int, e: int)
    ensures ToReal(Decimal(m, e + 8)) == 100000000.0 * ToReal(Decimal(m, e))
  {
    ValueStep(m, e);
    ValueStep(m, e + 1);
    ValueStep(m, e + 2);
    ValueStep(m, e + 3);
    ValueStep(m, e + 4);
    ValueStep(m, e + 5);
    ValueStep(m, e + 6);
    ValueStep(m, e + 7);
  }

  /** `toLocaleString` without grouping of a finite number: at most three
    * fraction digits, the magnitude rounded half up. */
  function LocaleDecimal(d: Decimal): string
  {
    Render(Decimal(Signed(d.mantissa < 0, RoundedScaled(d, 3)), -3))
  }

  /** `toLocaleString('fullwide', { useGrouping: false })`. */
  function LocaleString(x: Number): string
  {
    match x
    case NaN => "NaN"
    case PosInfinity => "∞"
    case NegInfinity => "-∞"
    case Finite(d) => LocaleDecimal(d)
  }

  /** `formatCryptoAmount`: an amount above the threshold is printed as it
    * is, any other is multiplied by 10^8 and printed without exponent. */
  function FormatCryptoAmount(a: Amount): string
  {
    var x := NumericAmount(a);
    if Greater(x, LargeThreshold) then NumberToString(x) else LocaleString(Scale8(x))
  }

  /** An amount above the threshold comes back as its own `toString` text:
    * plain decimal below 10^21, exponential from there on; either way the
    * text reads back as the same number. */
  lemma {:induction false} LargeAmountKept(a: Amount)
    requires NumericAmount(a).Finite? && ToReal(NumericAmount(a).d) > LargeThreshold
    ensures var d := NumericAmount(a).d;
            ToReal(d) < PlainBelow ==> FormatCryptoAmount(a) == Render(d)
    ensures var d := NumericAmount(a).d;
            ToReal(d) >= PlainBelow ==> FormatCryptoAmount(a) == SciOf(Normalize(d))
    ensures ParseFloat(FormatCryptoAmount(a)).Finite?
    ensures Normalize(ParseFloat(FormatCryptoAmount(a)).d) == Normalize(NumericAmount(a).d)
  {
    var d := NumericAmount(a).d;
    LargeAmountText(a);
    DecimalToStringRoundTrip(d);
    if ToReal(d) < PlainBelow {
      PlainToString(d);
    } else {
      SciToString(d);
    }
  }

  lemma LargeAmountText(a: Amount)
    requires NumericAmount(a).Finite? && ToReal(NumericAmount(a).d) > LargeThreshold
    ensures FormatCryptoAmount(a) == DecimalToString(NumericAmount(a).d)
  {
  }

  /** 10^21 units are printed as `1e+21`. */
  lemma LargeAmountExponent()
    ensures FormatCryptoAmount(AmountNumber(Finite(Decimal(1000000000000000000000, 0)))) == "1e+21"
  {
    LargeExample();
  }

  /** An amount at or below the threshold is printed as 10^8 times itself,
    * rounded to three fraction digits: the text reads back as that rounded
    * value. */
  lemma {:induction false} SmallAmountScaled(a: Amount)
    requires NumericAmount(a).Finite? && ToReal(NumericAmount(a).d) <= LargeThreshold
    ensures var y := Scale8(NumericAmount(a)).d;
            && ToReal(y) == 100000000.0 * ToReal(NumericAmount(a).d)
            && FormatCryptoAmount(a) == LocaleDecimal(y)
            && ParseFloat(FormatCryptoAmount(a))
               == Finite(Normalize(Decimal(Signed(y.mantissa < 0, RoundedScaled(y, 3)), -3)))
  {
    var y := Scale8(NumericAmount(a)).d;
    RenderRoundTrip(Decimal(Signed(y.mantissa < 0, RoundedScaled(y, 3)), -3));
  }

  /** A text that is not a number is not converted: it gives "NaN". */
  lemma NotANumberAmount(s: string)
    requires ParseFloat(s) == NaN
    ensures FormatCryptoAmount(AmountText(s)) == "NaN"
  {
  }

  /** Converting twice is converting once when the first result, read back,
    * is above the threshold: it is then printed unchanged. */
  lemma {:induction false} ConvertTwice(x: Number)
    requires x.Finite? && ToReal(x.d) <= LargeThreshold && x.d.mantissa > 0
    requires RoundedScaled(Scale8(x).d, 3) > 1000000000
    ensures FormatCryptoAmount(AmountText(FormatCryptoAmount(AmountNumber(x)))) == FormatCryptoAmount(AmountNumber(x))
  {
    var y := Scale8(x).d;
    var n := RoundedScaled(y, 3);
    var z := Decimal(n, -3);
    assert Signed(y.mantissa < 0, n) == n;
    assert FormatCryptoAmount(AmountNumber(x)) == Render(z);
    ThousandthsAbove(n);
    ScaledBelow(x);
    ValueFraction(n, 3);
    PlainKept(z);
  }

  /** A plain text above the threshold and below 10^21 is printed again as
    * it is. */
  lemma {:induction false} PlainKept(z: Decimal)
    requires LargeThreshold < ToReal(z) < PlainBelow
    ensures FormatCryptoAmount(AmountText(Render(z))) == Render(z)
  {
    RenderRoundTrip(z);
    LargeAmountText(AmountText(Render(z)));
    PlainToString(Normalize(z));
    RenderCanonical(z);
  }

  /** An amount of at most 10^6 scaled by 10^8 and rounded to thousandths is
    * at most 10^17 + 1 thousandths. */
  lemma ScaledBelow(x: Number)
    requires x.Finite? && ToReal(x.d) <= LargeThreshold && x.d.mantissa > 0
    ensures RoundedScaled(Scale8(x).d, 3) <= 100000000000000001
  {
    var y := Scale8(x).d;
    ValueStep(y.mantissa, y.exponent);
    ValueStep(y.mantissa, y.exponent + 1);
    ValueStep(y.mantissa, y.exponent + 2);
    RoundedScaledAtMost(y, 3, 100000000000000000);
  }

  /** `n / 1000 > 10^6` when `n > 10^9`. */
  lemma ThousandthsAbove(n: nat)
    requires n > 1000000000
    ensures ToReal(Decimal(n, -3)) > LargeThreshold
  {
    ValueStep(n, -3);
    ValueStep(n, -2);
    ValueStep(n, -1);
  }

  /** Just above 0.01 the second conversion differs: 0.010000000001 becomes
    * 1000000 after rounding, which is not above the threshold and is
    * multiplied again. */
  lemma {:induction false} ConvertTwiceNearThreshold()
    ensures var x := Finite(Decimal(10000000001, -12));
            FormatCryptoAmount(AmountText(FormatCryptoAmount(AmountNumber(x)))) != FormatCryptoAmount(AmountNumber(x))
  {
    var z := Decimal(1000000000, -3);
    var u := Decimal(100000000000000000, -3);
    FirstConversionNearThreshold();
    SecondConversionNearThreshold();
    RenderRoundTrip(z);
    RenderRoundTrip(u);
    assert ToReal(z) == 1000000.0;
    assert ToReal(u) == 100000000000000.0;
  }

  lemma FirstConversionNearThreshold()
    ensures FormatCryptoAmount(AmountNumber(Finite(Decimal(10000000001, -12)))) == Render(Decimal(1000000000, -3))
  {
    var x := Finite(Decimal(10000000001, -12));
    assert ToReal(x.d) == 0.010000000001;
    var y := Decimal(10000000001, -4);
    assert Scale8(x).d == y;
    assert RoundedScaled(y, 3) == 1000000000;
  }

  lemma SecondConversionNearThreshold()
    ensures FormatCryptoAmount(AmountText(Render(Decimal(1000000000, -3))))
         == Render(Decimal(100000000000000000, -3))
  {
    var z := Decimal(1000000000, -3);
    RenderRoundTrip(z);
    NormalizeMillion();
    MillionScaled(AmountText(Render(z)));
  }

  /** An amount of exactly one million is not above the threshold, so it is
    * multiplied by 10^8. */
  lemma MillionScaled(a: Amount)
    requires NumericAmount(a) == Finite(Decimal(1000000, 0))
    ensures FormatCryptoAmount(a) == Render(Decimal(100000000000000000, -3))
  {
    var n := Decimal(1000000, 0);
    var w := Decimal(1000000, 8);
    assert ToReal(n) == 1000000.0;
    assert !Greater(Finite(n), LargeThreshold);
    assert Scale8(Finite(n)) == Finite(w);
    assert FormatCryptoAmount(a) == LocaleDecimal(w);
    MillionRounded();
  }

  lemma MillionRounded()
    ensures RoundedScaled(Decimal(1000000, 8), 3) == 100000000000000000
  {
    assert Pow10(11) == 100000000000;
  }

  /** 1000000.000 in canonical form. */
  lemma NormalizeMillion()
    ensures Normalize(Decimal(1000000000, -3)) == Decimal(1000000, 0)
  {
    var n := Decimal(1000000, 0);
    assert Normalize(n) == n;
    assert Normalize(Decimal(10000000, -1)) == n;
    assert Normalize(Decimal(100000000, -2)) == n;
  }

  /** Every character is a digit, a point or a minus sign. */
  predicate PlainText(t: string)
  {
    forall i :: 0 <= i < |t| ==> IsDigit(t[i]) || t[i] == '.' || t[i] == '-'
  }

  lemma PlainTextConcat(a: string, b: string)
    requires PlainText(a) && PlainText(b)
    ensures PlainText(a + b)
  {
    forall i | 0 <= i < |a + b|
      ensures IsDigit((a + b)[i]) || (a + b)[i] == '.' || (a + b)[i] == '-'
    {
      if i >= |a| {
        assert (a + b)[i] == b[i - |a|];
      }
    }
  }

  /** Every character of a printed decimal is a digit, a point or a minus
    * sign: there is no exponent notation. */
  lemma RenderIsPlain(d: Decimal)
    ensures PlainText(Render(d))
  {
    var n := Normalize(d);
    var neg, m, w := n.mantissa < 0, Abs(n.mantissa), -n.exponent;
    var p := Pow10(w);
    DivMod(m, p);
    var q, r := m / p, m % p;
    assert Render(d) == PlainDecimal(neg, q, r, w);
    PlainDecimalIsPlain(neg, q, r, w);
  }

  lemma PlainDecimalIsPlain(neg: bool, q: nat, r: nat, w: nat)
    requires r < Pow10(w)
    ensures PlainText(PlainDecimal(neg, q, r, w))
  {
    var sign := if neg then "-" else "";
    var tail := if w == 0 then "" else "." + PadDigits(r, w);
    if w > 0 {
      PlainTextConcat(".", PadDigits(r, w));
    }
    PlainTextConcat(sign, NatToString(q));
    PlainTextConcat(sign + NatToString(q), tail);
  }

  /** What the send flow hands to the transfer calls. */
  datatype TransferData = TransferData(
    amount: Amount, token: Option<Value>, recipient: Option<Value>, network: Option<Value>, note: Option<Value>)

  /** The JSON request bodies posted to the transfer endpoints; a field
    * holding `undefined` is None. */
  datatype RequestBody =
    | EmailBody(email: Option<Value>, amount: string, currency: Option<Value>, purposeCode: string, note: Option<Value>)
    | WalletBody(walletAddress: Option<Value>, amount: string, currency: Option<Value>, purposeCode: string, note: Option<Value>)

  /** `data.note || undefined`. */
  function NoteField(note: Option<Value>): (r: Option<Value>)
    ensures r == None <==> !Truthy(note)
    ensures r.Some? ==> r == note
  {
    if Truthy(note) then note else None
  }

  /** The body `sendEmailTransfer` posts. */
  function EmailRequestBody(data: TransferData): (b: RequestBody)
    ensures b.EmailBody? && b.email == data.recipient && b.currency == data.token
    ensures b.amount == FormatCryptoAmount(data.amount) && b.purposeCode == "self"
    ensures b.note == NoteField(data.note)
  {
    EmailBody(data.recipient, FormatCryptoAmount(data.amount), data.token, "self", NoteField(data.note))
  }

  /** The body `sendWalletTransfer` posts. */
  function WalletRequestBody(data: TransferData): (b: RequestBody)
    ensures b.WalletBody? && b.walletAddress == data.recipient && b.currency == data.token
    ensures b.amount == FormatCryptoAmount(data.amount) && b.purposeCode == "self"
    ensures b.note == NoteField(data.note)
  {
    WalletBody(data.recipient, FormatCryptoAmount(data.amount), data.token, "self", NoteField(data.note))
  }

  /** The two bodies carry the same amount, currency and note, and the same
    * recipient under different names; an empty note is never sent. */
  lemma BodiesAgree(data: TransferData)
    ensures EmailRequestBody(data).amount == WalletRequestBody(data).amount
    ensures EmailRequestBody(data).currency == WalletRequestBody(data).currency
    ensures EmailRequestBody(data).note == WalletRequestBody(data).note
    ensures EmailRequestBody(data).email == WalletRequestBody(data).walletAddress
    ensures data.note == Some(Text("")) ==> EmailRequestBody(data).note == None
  {
  }

  /** The body of a successful transfer call as the handler reads it:
    * `null`, `undefined`, or an object whose `id`, when present, is given as
    * the text a template literal prints for it. */
  datatype PostedBody = NullBody | UndefinedBody | Body(id: Option<string>)

  /** What a transfer call delivered: the HTTP body of the success, or the
    * HTTP client's error. */
  datatype TransferResult = Posted(body: PostedBody) | Rejected(error: ApiError)

  /** What `${data.id}` prints for a success body, or None when reading `id`
    * throws (a `null` or `undefined` body); an object without an `id` prints
    * "undefined". */
  function PostedId(b: PostedBody): (r: Option<string>)
    ensures r.None? <==> !b.Body?
    ensures b.Body? && b.id.Some? ==> r == b.id
    ensures b.Body? && b.id.None? ==> r == Some("undefined")
  {
    match b
    case Body(id) => Some(if id.Some? then id.value else "undefined")
    case _ => None
  }

  /** The message of the TypeError that reading `id` off a `null` or
    * `undefined` body throws. */
  function ReadIdError(b: PostedBody): (msg: string)
    requires !b.Body?
  {
    "Cannot read properties of " + (if b.NullBody? then "null" else "undefined") + " (reading 'id')"
  }

  /** The message of the Error the transfer calls throw: a string
    * `data.message`, else a truthy `data.error`, else the status line, else
    * the client's own message, else a fixed text. */
  function TransferErrorMessage(e: ApiError): (msg: string)
  {
    if e.response.Some? && e.response.value.data.Some? then
      var data := e.response.value.data.value;
      if data.message.Some? && data.message.value.Text? then data.message.value.s
      else if Truthy(data.error) then Display(data.error)
      else "API Error: " + IntToString(e.response.value.status) + " - " + e.response.value.statusText
    else if e.message != "" then e.message
    else "Unknown API error"
  }

  /** The server's text wins when it is a string, even an empty one; a
    * response with no body falls through to the client's message. */
  lemma ErrorMessagePrecedence(e: ApiError)
    ensures e.response.Some? && e.response.value.data.Some? && e.response.value.data.value.message.Some?
            && e.response.value.data.value.message.value.Text?
            ==> TransferErrorMessage(e) == e.response.value.data.value.message.value.s
    ensures (e.response == None || e.response.value.data == None) && e.message != ""
            ==> TransferErrorMessage(e) == e.message
    ensures (e.response == None || e.response.value.data == None) && e.message == ""
            ==> TransferErrorMessage(e) == "Unknown API error"
  {
  }

  /** The message is empty only when the server itself sent an empty string
    * message, or an error list whose items join to nothing. */
  lemma {:induction false} ErrorMessageEmpty(e: ApiError)
    requires TransferErrorMessage(e) == ""
    ensures e.response.Some? && e.response.value.data.Some?
    ensures var data := e.response.value.data.value;
            data.message == Some(Text("")) || (data.error.Some? && data.error.value.List? && Join(data.error.value.items) == "")
  {
    if e.response.Some? && e.response.value.data.Some? {
      var data := e.response.value.data.value;
    }
  }
}
