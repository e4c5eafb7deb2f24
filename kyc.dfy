/** `src/api/kyc.ts`: the KYC status summary and the bank-withdrawal fee
  * estimate. The HTTP calls are parameters; figures are exact reals (the
  * binary rounding of JavaScript numbers is not modelled), and the
  * `toFixed` roundings that feed later figures are modelled by `RoundTo`. */
module Kyc {
  import opened Common
  import opened Strings
  import opened Numbers

  // ---------------------------------------------------------------------
  // `getKycStatus`

  /** One KYC record as the endpoint lists it. */
  datatype KycRecord = KycRecord(status: string, kind: string)

  /** What the `/kycs` request delivered: the `data` list of the response
    * (None when the response or its `data` is missing), or the error the
    * HTTP client threw. */
  datatype KycFetch = Fetched(records: Option<seq<KycRecord>>) | Thrown(error: ApiError)

  /** The summary object `getKycStatus` returns. */
  datatype KycStatus = KycStatus(success: bool, status: string, kind: Option<string>, isApproved: bool,
                                 record: Option<KycRecord>, error: Option<string>)

  const DefaultKycError := "Failed to verify KYC status"

  /** `data.message || data.error || errorMessage` when the error carries a
    * response body, the fixed text otherwise. */
  function KycErrorMessage(e: ApiError): (msg: string)
    ensures e.response.None? || e.response.value.data.None? ==> msg == DefaultKycError
  {
    if e.response.Some? && e.response.value.data.Some? then
      var data := e.response.value.data.value;
      if Truthy(data.message) then Display(data.message)
      else if Truthy(data.error) then Display(data.error)
      else DefaultKycError
    else DefaultKycError
  }

  /** `getKycStatus`. */
  function GetKycStatus(fetch: KycFetch): (r: KycStatus)
    ensures r.isApproved <==> r.status == "approved"
  {
    match fetch
    case Thrown(e) => KycStatus(false, "error", None, false, None, Some(KycErrorMessage(e)))
    case Fetched(records) =>
      if records.Some? && |records.value| > 0 then
        var first := records.value[0];
        KycStatus(true, first.status, Some(first.kind), first.status == "approved", Some(first), None)
      else KycStatus(true, "not_submitted", None, false, None, None)
  }

  /** The three outcomes: the first record decides, an empty or missing list
    * is "not_submitted", and any error is "error"; only a fetched record
    * whose status is "approved" approves. */
  lemma KycStatusCases(fetch: KycFetch)
    ensures fetch.Fetched? && fetch.records.Some? && |fetch.records.value| > 0 ==>
              GetKycStatus(fetch).success && GetKycStatus(fetch).status == fetch.records.value[0].status
              && GetKycStatus(fetch).record == Some(fetch.records.value[0])
    ensures fetch.Fetched? && (fetch.records.None? || fetch.records.value == []) ==>
              GetKycStatus(fetch) == KycStatus(true, "not_submitted", None, false, None, None)
    ensures fetch.Thrown? ==>
              !GetKycStatus(fetch).success && GetKycStatus(fetch).status == "error" && !GetKycStatus(fetch).isApproved
    ensures GetKycStatus(fetch).isApproved <==>
              fetch.Fetched? && fetch.records.Some? && |fetch.records.value| > 0 && fetch.records.value[0].status == "approved"
  {
  }

  // ---------------------------------------------------------------------
  // Coin ids

  /** The `currencyMapping` table from symbols to CoinGecko ids. */
  function MappedCoin(symbol: string): (id: Option<string>)
  {
    match symbol
    case "BTC" => Some("bitcoin")
    case "ETH" => Some("ethereum")
    case "USDT" => Some("tether")
    case "USDC" => Some("usd-coin")
    case "SOL" => Some("solana")
    case "BNB" => Some("binancecoin")
    case "XRP" => Some("ripple")
    case "ADA" => Some("cardano")
    case "DOGE" => Some("dogecoin")
    case "MATIC" => Some("matic-network")
    case "DOT" => Some("polkadot")
    case "AVAX" => Some("avalanche-2")
    case "LINK" => Some("chainlink")
    case "LTC" => Some("litecoin")
    case "SHIB" => Some("shiba-inu")
    case _ => None
  }

  /** `currencyMapping[currency.toUpperCase()] || currency.toLowerCase()`. */
  function CoinId(currency: string): (id: string)
    ensures MappedCoin(ToUpper(currency)).Some? ==> id == MappedCoin(ToUpper(currency)).value
    ensures MappedCoin(ToUpper(currency)).None? ==> id == ToLower(currency)
  {
    match MappedCoin(ToUpper(currency))
    case Some(id) => id
    case None => ToLower(currency)
  }

  /** The id depends on the symbol only up to case. */
  lemma CoinIdIgnoresCase(c1: string, c2: string)
    requires ToLower(c1) == ToLower(c2)
    ensures CoinId(c1) == CoinId(c2)
  {
    UpperAfterCaseChange(c1);
    UpperAfterCaseChange(c2);
  }

  /** Mapped symbols, in any case, get their CoinGecko id. */
  lemma StablecoinIds()
    ensures CoinId("usdc") == "usd-coin" && CoinId("USDT") == "tether"
  {
    assert ToUpper("usdc") == "USDC";
    assert ToUpper("USDT") == "USDT";
  }

  // ---------------------------------------------------------------------
  // `toFixed` as a value

  /** `parseFloat(x.toFixed(places))`: the nearest multiple of
    * `10^-places`, halves rounded away from zero. */
  function RoundTo(x: real, places: nat): (r: real)
    ensures x >= 0.0 ==> r >= 0.0
  {
    Rounded(x, Pow10(places) as real)
  }

  /** Rounding to the nearest multiple of `1 / scale`, halves away from
    * zero. */
  function Rounded(x: real, scale: real): (r: real)
    requires scale > 0.0
    ensures x >= 0.0 ==> r >= 0.0
  {
    if x < 0.0 then -HalfUp(-x, scale) else HalfUp(x, scale)
  }

  /** `Math.round` of `x * scale`, scaled back. */
  function HalfUp(x: real, scale: real): (r: real)
    requires x >= 0.0 && scale > 0.0
    ensures r >= 0.0
  {
    NonNegativeProduct(x, scale);
    var f := (x * scale + 0.5).Floor as real;
    NonNegativeFactor(f / scale, scale);
    f / scale
  }

  lemma NonNegativeProduct(x: real, y: real)
    requires x >= 0.0 && y >= 0.0
    ensures x * y >= 0.0
  {
  }

  /** A non-negative figure moves by at most half a unit of the last place. */
  lemma RoundToNearest(x: real, places: nat)
    requires x >= 0.0
    ensures x - 0.5 / Pow10(places) as real < RoundTo(x, places) <= x + 0.5 / Pow10(places) as real
  {
    HalfUpNearest(x, Pow10(places) as real);
  }

  lemma HalfUpNearest(x: real, scale: real)
    requires x >= 0.0 && scale > 0.0
    ensures x - 0.5 / scale < HalfUp(x, scale) <= x + 0.5 / scale
  {
    var y := x * scale + 0.5;
    assert y - 1.0 < y.Floor as real <= y;
    DivBounds(y.Floor as real, x, scale);
  }

  lemma DivBounds(f: real, x: real, s: real)
    requires s > 0.0 && x * s - 0.5 < f <= x * s + 0.5
    ensures x - 0.5 / s < f / s <= x + 0.5 / s
  {
    var q, h := f / s, 0.5 / s;
    assert q * s == f && h * s == 0.5;
    assert (q - x + h) * s == f - x * s + 0.5;
    assert (x + h - q) * s == x * s + 0.5 - f;
    PositiveFactor(q - x + h, s);
    NonNegativeFactor(x + h - q, s);
  }

  lemma PositiveFactor(y: real, s: real)
    requires s > 0.0 && y * s > 0.0
    ensures y > 0.0
  {
  }

  lemma NonNegativeFactor(y: real, s: real)
    requires s > 0.0 && y * s >= 0.0
    ensures y >= 0.0
  {
  }

  /** A whole number of hundredths is its own rounding to two places. */
  lemma RoundHundredths(n: int)
    ensures n >= 0 ==> RoundTo(n as real / 100.0, 2) == n as real / 100.0
  {
    if n >= 0 {
      assert Pow10(2) == 100;
      assert (n as real / 100.0) * 100.0 == n as real;
      assert (n as real + 0.5).Floor == n;
    }
  }

  // ---------------------------------------------------------------------
  // `getWithdrawalFeeEstimate`

  /** `priceResponse.data[coinId]`: the USD and INR prices, either of which
    * may be missing. */
  datatype CoinQuote = CoinQuote(usd: Option<real>, inr: Option<real>)

  /** `inrInfo`: present only for Indian users. */
  datatype InrInfo = InrInfo(inrValue: real, receiveAmountInr: real, inrRate: real, approximate: bool)

  /** The two shapes of the result: priced from CoinGecko (`success: true`),
    * or the fallback built in the `catch` block (`success: false`). */
  datatype FeeEstimate =
    | Priced(usdPrice: real, inrPrice: real, usdValue: real, processingFeeUsd: real, totalFeeUsd: real,
             totalFeeInCurrency: real, receiveAmountUsd: real, receiveAmount: real, inrInfo: Option<InrInfo>)
    | Estimated(processingFee: real, totalFee: real, receiveAmount: real, inrInfo: Option<InrInfo>)

  const FixedFeeUsd: real := 2.0
  const ProcessingFeePercentage: real := 1.5
  const ApproximateInrRate: real := 83.0

  /** JavaScript truthiness of a fetched price: present and not zero. */
  predicate PriceTruthy(p: Option<real>)
  {
    p.Some? && p.value != 0.0
  }

  /** `country && (country.toLowerCase() === 'ind' || ... === 'india')`. */
  predicate IsIndianUser(country: Option<string>)
  {
    country.Some? && country.value != "" && (ToLower(country.value) == "ind" || ToLower(country.value) == "india")
  }

  /** The USD price: the quoted one when truthy, 1 otherwise. */
  function UsdPrice(quote: Option<CoinQuote>): (p: real)
    ensures p != 0.0
  {
    if quote.Some? && PriceTruthy(quote.value.usd) then quote.value.usd.value else 1.0
  }

  /** The INR price: the quoted one when truthy; without a quote, the tether
    * rate when that second request delivered a truthy one; 83 otherwise. */
  function InrPrice(quote: Option<CoinQuote>, tetherInr: Outcome<Option<real>>): real
  {
    if quote.Some? then
      (if PriceTruthy(quote.value.inr) then quote.value.inr.value else ApproximateInrRate)
    else if tetherInr.Success? && PriceTruthy(tetherInr.value) then tetherInr.value.value
    else ApproximateInrRate
  }

  /** The success path, for the parsed amount `amount`. */
  function PricedEstimate(amount: real, usdPrice: real, inrPrice: real, country: Option<string>): (r: FeeEstimate)
    requires usdPrice != 0.0
    ensures r.Priced?
  {
    var usdValue := amount * usdPrice;
    var inrValue := amount * inrPrice;
    var processingFee := usdValue * (ProcessingFeePercentage / 100.0);
    var totalFeeUsd := FixedFeeUsd + processingFee;
    var totalFeeInCurrency := totalFeeUsd / usdPrice;
    var receiveAmountUsd := usdValue - totalFeeUsd;
    var receiveAmount := amount - totalFeeInCurrency;
    var receiveAmountInr := receiveAmountUsd * (inrPrice / usdPrice);
    var inrInfo := if IsIndianUser(country) then Some(InrInfo(inrValue, receiveAmountInr, inrPrice, false)) else None;
    Priced(usdPrice, inrPrice, usdValue, processingFee, totalFeeUsd, totalFeeInCurrency,
           receiveAmountUsd, receiveAmount, inrInfo)
  }

  /** The `catch` path: the processing fee and the total are rounded to
    * cents and the receive amount to six places before they are reused. */
  function FallbackEstimate(amount: real, country: Option<string>): (r: FeeEstimate)
    ensures r.Estimated?
  {
    var processingFee := RoundTo(amount * ProcessingFeePercentage / 100.0, 2);
    var totalFee := RoundTo(FixedFeeUsd + processingFee, 2);
    var receiveAmount := RoundTo(if amount - totalFee > 0.0 then amount - totalFee else 0.0, 6);
    var inrValue := RoundTo(amount * ApproximateInrRate, 2);
    var receiveAmountInr := RoundTo(receiveAmount * ApproximateInrRate, 2);
    var inrInfo := if IsIndianUser(country) then Some(InrInfo(inrValue, receiveAmountInr, ApproximateInrRate, true)) else None;
    Estimated(processingFee, totalFee, receiveAmount, inrInfo)
  }

  /** `getWithdrawalFeeEstimate` for a parsed amount. `prices` is the first
    * CoinGecko response (its `data` map, or the error that sends the
    * computation to the `catch` block); `tetherInr` is the second request,
    * made only when the coin is missing from the first. */
  function FeeEstimateFor(amount: real, currency: string, country: Option<string>,
                          prices: Outcome<map<string, CoinQuote>>, tetherInr: Outcome<Option<real>>): (r: FeeEstimate)
    ensures r.Estimated? <==> prices.Failure?
  {
    match prices
    case Failure(_) => FallbackEstimate(amount, country)
    case Success(data) =>
      var id := CoinId(currency);
      var quote := if id in data then Some(data[id]) else None;
      PricedEstimate(amount, UsdPrice(quote), InrPrice(quote, tetherInr), country)
  }

  /** The fee is $2 plus 1.5% of the USD value, the receive amount is the
    * USD value less the fee, and the amount in the currency is the same
    * sum at the USD price. */
  lemma PricedFeeFormula(amount: real, currency: string, country: Option<string>,
                         prices: Outcome<map<string, CoinQuote>>, tetherInr: Outcome<Option<real>>)
    requires prices.Success?
    ensures var r := FeeEstimateFor(amount, currency, country, prices, tetherInr);
            && r.usdValue == amount * r.usdPrice
            && r.totalFeeUsd == 2.0 + 0.015 * r.usdValue
            && r.receiveAmountUsd == r.usdValue - r.totalFeeUsd
            && r.receiveAmount * r.usdPrice == r.receiveAmountUsd
            && r.totalFeeInCurrency * r.usdPrice == r.totalFeeUsd
  {
    var r := FeeEstimateFor(amount, currency, country, prices, tetherInr);
    assert r.usdPrice != 0.0;
    assert (amount - r.totalFeeUsd / r.usdPrice) * r.usdPrice == amount * r.usdPrice - r.totalFeeUsd;
  }

  /** On the priced path nothing clamps the receive amount: it is negative
    * exactly when the USD value is below 2 / 0.985. */
  lemma PricedReceiveNotClamped(amount: real, currency: string, country: Option<string>,
                                prices: Outcome<map<string, CoinQuote>>, tetherInr: Outcome<Option<real>>)
    requires prices.Success?
    ensures var r := FeeEstimateFor(amount, currency, country, prices, tetherInr);
            r.receiveAmountUsd < 0.0 <==> r.usdValue * 0.985 < 2.0
  {
  }

  /** A one-dollar withdrawal is offered a negative amount. */
  lemma OneDollarGoesNegative(currency: string, prices: map<string, CoinQuote>)
    requires CoinId(currency) !in prices
    ensures FeeEstimateFor(1.0, currency, None, Success(prices), Failure("offline")).receiveAmountUsd < 0.0
  {
  }

  /** The fallback never offers a negative amount, and its total is the
    * fixed fee plus the rounded processing fee. */
  lemma FallbackReceiveNonNegative(amount: real, country: Option<string>)
    requires amount >= 0.0
    ensures var r := FallbackEstimate(amount, country);
            r.receiveAmount >= 0.0 && r.totalFee == FixedFeeUsd + r.processingFee
  {
    var p := amount * ProcessingFeePercentage / 100.0;
    var n := (p * 100.0 + 0.5).Floor;
    assert Pow10(2) == 100;
    assert RoundTo(p, 2) == n as real / 100.0;
    assert FixedFeeUsd + n as real / 100.0 == (200 + n) as real / 100.0;
    RoundHundredths(200 + n);
  }

  /** The fallback's processing fee is 1.5% of the amount to the cent. */
  lemma FallbackProcessingFeeNear(amount: real, country: Option<string>)
    requires amount >= 0.0
    ensures var r := FallbackEstimate(amount, country);
            amount * 0.015 - 0.005 < r.processingFee <= amount * 0.015 + 0.005
  {
    assert Pow10(2) == 100;
    RoundToNearest(amount * ProcessingFeePercentage / 100.0, 2);
  }

  /** INR details are attached, on either path, exactly for a country that
    * lower-cases to "ind" or "india". */
  lemma InrInfoGated(amount: real, currency: string, country: Option<string>,
                     prices: Outcome<map<string, CoinQuote>>, tetherInr: Outcome<Option<real>>)
    ensures FeeEstimateFor(amount, currency, country, prices, tetherInr).inrInfo.Some? <==> IsIndianUser(country)
  {
  }

  /** "IND" and "India" count, "IN" does not. */
  lemma IndianCountryNames()
    ensures IsIndianUser(Some("IND")) && IsIndianUser(Some("India"))
    ensures !IsIndianUser(Some("IN")) && !IsIndianUser(None)
  {
    assert ToLower("IND") == "ind";
    assert ToLower("India") == "india";
  }

  /** The quoted prices are used when they are truthy; without a quote the
    * USD price is 1. */
  lemma PriceDefaults(quote: Option<CoinQuote>, tetherInr: Outcome<Option<real>>)
    ensures quote.None? ==> UsdPrice(quote) == 1.0
    ensures quote.Some? && !PriceTruthy(quote.value.inr) ==> InrPrice(quote, tetherInr) == 83.0
    ensures quote.None? && tetherInr.Failure? ==> InrPrice(quote, tetherInr) == 83.0
    ensures quote.Some? && PriceTruthy(quote.value.usd) ==> UsdPrice(quote) == quote.value.usd.value
  {
  }

  /** `getWithdrawalFeeEstimate` on the amount text: an amount `parseFloat`
    * cannot read makes every figure NaN (None here). */
  function GetWithdrawalFeeEstimate(amount: string, currency: string, country: Option<string>,
                                    prices: Outcome<map<string, CoinQuote>>,
                                    tetherInr: Outcome<Option<real>>): (r: Option<FeeEstimate>)
    ensures r.Some? <==> ParseFloat(amount).Finite?
    ensures r.Some? ==> r.value == FeeEstimateFor(ToReal(ParseFloat(amount).d), currency, country, prices, tetherInr)
  {
    match ParseFloat(amount)
    case Finite(d) => Some(FeeEstimateFor(ToReal(d), currency, country, prices, tetherInr))
    case _ => None
  }
}
