/** The validators of `src/utils/validation.ts`: wallet addresses (a table
  * of networks handed to an address library, with a pattern-based
  * fallback), the email pattern, and the common-domain typo check. */
module Validation {
  import opened Common
  import opened Strings
  import opened EditDistance

  // ---------------------------------------------------------------------
  // Character classes of the patterns

  predicate IsLowerLetter(c: char) { 'a' <= c <= 'z' }
  predicate IsUpperLetter(c: char) { 'A' <= c <= 'Z' }
  predicate IsDecimal(c: char) { '0' <= c <= '9' }
  predicate IsLetter(c: char) { IsLowerLetter(c) || IsUpperLetter(c) }

  /** `[a-zA-Z0-9]` */
  predicate IsAlnum(c: char) { IsLetter(c) || IsDecimal(c) }

  /** `[a-fA-F0-9]` */
  predicate IsHex(c: char) { IsDecimal(c) || ('a' <= c <= 'f') || ('A' <= c <= 'F') }

  /** `[a-km-zA-HJ-NP-Z1-9]`: the base58 alphabet, without `0`, `I`, `O`, `l`. */
  predicate IsBase58(c: char)
  {
    ('1' <= c <= '9') || ('a' <= c <= 'k') || ('m' <= c <= 'z')
    || ('A' <= c <= 'H') || ('J' <= c <= 'N') || ('P' <= c <= 'Z')
  }

  /** `[a-zA-Z0-9\-_]` */
  predicate IsGeneric(c: char) { IsAlnum(c) || c == '-' || c == '_' }

  predicate AllHex(s: string) { forall i :: 0 <= i < |s| ==> IsHex(s[i]) }
  predicate AllBase58(s: string) { forall i :: 0 <= i < |s| ==> IsBase58(s[i]) }
  predicate AllLowerAlnum(s: string) { forall i :: 0 <= i < |s| ==> IsLowerLetter(s[i]) || IsDecimal(s[i]) }
  predicate AllAlnum(s: string) { forall i :: 0 <= i < |s| ==> IsAlnum(s[i]) }
  predicate AllGeneric(s: string) { forall i :: 0 <= i < |s| ==> IsGeneric(s[i]) }

  // ---------------------------------------------------------------------
  // Address shapes of `fallbackValidation`

  /** `/^0x[a-fA-F0-9]{40}$/i`: the flag lets the `x` be upper case too. */
  predicate HexShape(a: string)
  {
    |a| == 42 && a[0] == '0' && (a[1] == 'x' || a[1] == 'X') && AllHex(a[2..])
  }

  /** `/^[123][a-km-zA-HJ-NP-Z1-9]{25,34}$/` */
  predicate Base58Shape(a: string)
  {
    26 <= |a| <= 35 && (a[0] == '1' || a[0] == '2' || a[0] == '3') && AllBase58(a[1..])
  }

  /** The prefixes of `/^(bc|tb|ltc|tltc|bch)[a-z0-9]{6,100}$/`. */
  const Bech32Prefixes: seq<string> := ["bc", "tb", "ltc", "tltc", "bch"]

  /** One of the prefixes, then 6 to 100 lower-case letters or digits. */
  predicate Bech32Shape(a: string)
  {
    exists k :: 0 <= k < |Bech32Prefixes| && StartsWith(a, Bech32Prefixes[k])
      && 6 <= |a| - |Bech32Prefixes[k]| <= 100 && AllLowerAlnum(a[|Bech32Prefixes[k]|..])
  }

  /** `/^T[a-zA-Z0-9]{33}$/` */
  predicate TronShape(a: string)
  {
    |a| == 34 && a[0] == 'T' && AllAlnum(a[1..])
  }

  /** `/^[a-zA-Z0-9\-_]+$/` */
  predicate GenericShape(a: string)
  {
    |a| >= 1 && AllGeneric(a)
  }

  /** `fallbackValidation`: a length between 25 and 100, and a character
    * check chosen by the address's look. The network is only logged. */
  function Fallback(address: string): (r: bool)
    ensures r ==> 25 <= |address| <= 100
    ensures StartsWith(address, "0x") ==> (r <==> HexShape(address))
  {
    var reasonableLength := 25 <= |address| <= 100;
    var validChars :=
      if StartsWith(address, "0x") then HexShape(address)
      else if Base58Shape(address) then true
      else if Bech32Shape(address) then true
      else if TronShape(address) then true
      else GenericShape(address);
    reasonableLength && validChars
  }

  /** Every special shape is also a generic one. */
  lemma ShapesAreGeneric(a: string)
    ensures Base58Shape(a) || Bech32Shape(a) || TronShape(a) ==> GenericShape(a)
  {
    if Base58Shape(a) {
      assert forall i :: 1 <= i < |a| ==> a[i] == a[1..][i - 1];
    }
    if TronShape(a) {
      assert forall i :: 1 <= i < |a| ==> a[i] == a[1..][i - 1];
    }
    if Bech32Shape(a) {
      var k :| 0 <= k < |Bech32Prefixes| && StartsWith(a, Bech32Prefixes[k])
        && 6 <= |a| - |Bech32Prefixes[k]| <= 100 && AllLowerAlnum(a[|Bech32Prefixes[k]|..]);
      var p := Bech32Prefixes[k];
      assert AllGeneric(p);
      assert forall i :: 0 <= i < |p| ==> a[i] == p[i];
      assert forall i :: |p| <= i < |a| ==> a[i] == a[|p|..][i - |p|];
    }
  }

  /** Outside the `0x` case the three special shapes add nothing: the
    * fallback accepts exactly the generic shape within the length bounds. */
  lemma FallbackOutsideHex(a: string)
    requires !StartsWith(a, "0x")
    ensures Fallback(a) <==> 25 <= |a| <= 100 && GenericShape(a)
  {
    ShapesAreGeneric(a);
  }

  /** A Tron, base58 or bech32 address of acceptable length passes. */
  lemma FallbackAcceptsShapes(a: string)
    requires !StartsWith(a, "0x") && 25 <= |a| <= 100
    requires Base58Shape(a) || Bech32Shape(a) || TronShape(a)
    ensures Fallback(a)
  {
  }

  // ---------------------------------------------------------------------
  // `validateWalletAddress`

  /** The `networkToCurrency` table: the currency code the address library
    * is asked about for a normalised network name. */
  function CurrencyCode(n: string): (code: Option<string>)
    ensures code.Some? ==> code.value in {"ETH", "BTC", "LTC", "BCH", "TRX", "XRP", "DOGE", "DASH", "ZEC", "BNB"}
  {
    match n
    case "ethereum" => Some("ETH")
    case "eth" => Some("ETH")
    case "polygon" => Some("ETH")
    case "matic" => Some("ETH")
    case "bsc" => Some("ETH")
    case "binance smart chain" => Some("ETH")
    case "arbitrum" => Some("ETH")
    case "optimism" => Some("ETH")
    case "avalanche" => Some("ETH")
    case "avax" => Some("ETH")
    case "bitcoin" => Some("BTC")
    case "btc" => Some("BTC")
    case "litecoin" => Some("LTC")
    case "ltc" => Some("LTC")
    case "bitcoin cash" => Some("BCH")
    case "bch" => Some("BCH")
    case "tron" => Some("TRX")
    case "trx" => Some("TRX")
    case "ripple" => Some("XRP")
    case "xrp" => Some("XRP")
    case "dogecoin" => Some("DOGE")
    case "doge" => Some("DOGE")
    case "dash" => Some("DASH")
    case "zcash" => Some("ZEC")
    case "zec" => Some("ZEC")
    case "binance chain" => Some("BNB")
    case "bnb" => Some("BNB")
    case _ => None
  }

  /** The EVM-compatible names the table sends to the "ETH" validator. */
  const EvmNetworks: seq<string> :=
    ["ethereum", "eth", "polygon", "matic", "bsc", "binance smart chain", "arbitrum", "optimism", "avalanche", "avax"]

  lemma EvmCodes()
    ensures forall k :: 0 <= k < |EvmNetworks| ==> CurrencyCode(EvmNetworks[k]) == Some("ETH")
  {
  }

  /** `network.toLowerCase().trim()` */
  function NormalizeNetwork(network: string): (n: string)
    ensures |n| <= |network|
  {
    Trim(ToLower(network))
  }

  /** The library's verdict on a currency code; an error it throws sends
    * the address to the fallback. */
  function AskLibrary(address: string, code: string, library: (string, string) -> Outcome<bool>): bool
  {
    match library(address, code)
    case Success(valid) => valid
    case Failure(_) => Fallback(address)
  }

  /** `validateWalletAddress`. `library(address, code)` is what the address
    * library answers for a currency code: its verdict, or the error it
    * threw. */
  function ValidateWalletAddress(address: string, network: string,
                                 library: (string, string) -> Outcome<bool>): (r: bool)
    ensures address == "" || network == "" ==> !r
  {
    if address == "" || network == "" then false
    else
      match CurrencyCode(NormalizeNetwork(network))
      case Some(code) => AskLibrary(address, code, library)
      case None => Fallback(address)
  }

  /** For a non-empty address and network the answer depends only on the
    * normalised network name: case and surrounding white space do not
    * matter. */
  lemma NetworkNameNormalised(address: string, n1: string, n2: string,
                              library: (string, string) -> Outcome<bool>)
    requires address != "" && n1 != "" && n2 != ""
    requires NormalizeNetwork(n1) == NormalizeNetwork(n2)
    ensures ValidateWalletAddress(address, n1, library) == ValidateWalletAddress(address, n2, library)
  {
  }

  /** The EVM networks all ask the library about "ETH", so they share one
    * verdict. */
  lemma EvmNetworksShareValidator(address: string, network: string,
                                  library: (string, string) -> Outcome<bool>)
    requires address != "" && NormalizeNetwork(network) in EvmNetworks
    ensures ValidateWalletAddress(address, network, library) == AskLibrary(address, "ETH", library)
  {
    EvmCodes();
  }

  /** An unmapped network, or a library that throws, leaves the decision to
    * the fallback. */
  lemma FallsBack(address: string, network: string, library: (string, string) -> Outcome<bool>)
    requires address != "" && network != ""
    requires var code := CurrencyCode(NormalizeNetwork(network));
             code == None || library(address, code.value).Failure?
    ensures ValidateWalletAddress(address, network, library) == Fallback(address)
  {
  }

  // ---------------------------------------------------------------------
  // `validateEmailFormat`

  /** `[a-zA-Z0-9._%+-]` */
  predicate IsLocalChar(c: char)
  {
    IsAlnum(c) || c == '.' || c == '_' || c == '%' || c == '+' || c == '-'
  }

  /** `[a-zA-Z0-9.-]` */
  predicate IsDomainChar(c: char)
  {
    IsAlnum(c) || c == '.' || c == '-'
  }

  /** `email` matches `^[a-zA-Z0-9._%+-]+@[a-zA-Z0-9.-]+\.[a-zA-Z]{2,}$`
    * with the `@` at `at` and the last dot at `dot`. */
  predicate EmailAt(email: string, at: int, dot: int)
  {
    0 < at && at + 1 < dot && dot + 3 <= |email|
    && email[at] == '@' && email[dot] == '.'
    && (forall i :: 0 <= i < at ==> IsLocalChar(email[i]))
    && (forall i :: at < i < dot ==> IsDomainChar(email[i]))
    && (forall i :: dot < i < |email| ==> IsLetter(email[i]))
  }

  /** `validateEmailFormat`: the empty string is refused before the
    * pattern is tried. */
  predicate ValidEmailFormat(email: string)
  {
    email != "" && exists at, dot :: 0 <= at < |email| && 0 <= dot < |email| && EmailAt(email, at, dot)
  }

  /** A valid address has exactly one `@`, with at least one character
    * before it, and ends in a top-level domain of two or more letters. */
  lemma ValidEmailShape(email: string)
    requires ValidEmailFormat(email)
    ensures exists at :: 0 < at < |email| && email[at] == '@'
              && '@' !in email[..at] && '@' !in email[at + 1..]
    ensures exists dot :: 0 <= dot < |email| - 2 && email[dot] == '.'
              && forall i :: dot < i < |email| ==> IsLetter(email[i])
  {
    var at, dot :| 0 <= at < |email| && 0 <= dot < |email| && EmailAt(email, at, dot);
    assert forall i :: 0 <= i < at ==> email[..at][i] == email[i];
    assert forall i :: at + 1 <= i < |email| ==> email[at + 1..][i - at - 1] == email[i];
    assert '@' !in email[..at];
    assert '@' !in email[at + 1..];
  }

  /** A top-level domain of one letter is refused. */
  lemma OneLetterDomainRefused()
    ensures !ValidEmailFormat("a@b.c")
  {
  }

  // ---------------------------------------------------------------------
  // `String.prototype.split` on one character

  /** `s.split(sep)` for a one-character separator. */
  function Split(s: string, sep: char): (parts: seq<string>)
    ensures |parts| >= 1
  {
    if s == [] then [""]
    else
      var rest := Split(s[1..], sep);
      if s[0] == sep then [""] + rest else [[s[0]] + rest[0]] + rest[1..]
  }

  /** Without the separator there is one part, the string itself. */
  lemma {:induction false} SplitWithout(s: string, sep: char)
    requires sep !in s
    ensures Split(s, sep) == [s]
  {
    if s != [] {
      assert s[0] != sep && sep !in s[1..];
      SplitWithout(s[1..], sep);
      assert [s[0]] + s[1..] == s;
    }
  }

  /** One separator gives the two parts around it. */
  lemma {:induction false} SplitOnce(s: string, sep: char, at: nat)
    requires at < |s| && s[at] == sep && sep !in s[..at] && sep !in s[at + 1..]
    ensures Split(s, sep) == [s[..at], s[at + 1..]]
  {
    if at == 0 {
      SplitWithout(s[1..], sep);
    } else {
      assert s[1..][..at - 1] == s[1..at];
      assert s[1..][at..] == s[at + 1..];
      SplitOnce(s[1..], sep, at - 1);
      assert [s[0]] + s[1..at] == s[..at];
    }
  }

  /** A valid address splits at its `@` into exactly two parts. */
  lemma ValidEmailSplits(email: string)
    requires ValidEmailFormat(email)
    ensures var parts := Split(email, '@');
            |parts| == 2 && parts[0] + "@" + parts[1] == email && parts[0] != ""
  {
    ValidEmailShape(email);
    var at :| 0 < at < |email| && email[at] == '@' && '@' !in email[..at] && '@' !in email[at + 1..];
    SplitOnce(email, '@', at);
    assert email[..at] + "@" + email[at + 1..] == email;
  }

  /** In a valid address any `@` is the one it splits at. */
  lemma SplitAtTheAt(email: string, at: nat)
    requires ValidEmailFormat(email) && at < |email| && email[at] == '@'
    ensures Split(email, '@') == [email[..at], email[at + 1..]]
  {
    ValidEmailShape(email);
    var a :| 0 < a < |email| && email[a] == '@' && '@' !in email[..a] && '@' !in email[a + 1..];
    assert at == a;
    SplitOnce(email, '@', at);
  }

  // ---------------------------------------------------------------------
  // `checkEmailTypos`

  /** The result object: whether a typo is suspected, the input, and the
    * suggested address. */
  datatype TypoCheck = TypoCheck(hasTypo: bool, original: string, suggestion: Option<string>)

  /** The `commonDomains` list, in the order it is searched. */
  const CommonDomains: seq<string> := ["gmail.com", "yahoo.com", "outlook.com", "hotmail.com", "aol.com",
                                       "icloud.com", "protonmail.com", "zoho.com", "yandex.com", "mail.com"]

  function NoTypo(email: string): TypoCheck
  {
    TypoCheck(false, email, None)
  }

  /** `s.substring(0, 3)` */
  function Prefix3(s: string): (p: string)
    ensures |p| == if |s| < 3 then |s| else 3
  {
    if |s| < 3 then s else s[..3]
  }

  /** What one common domain says about the user's domain. */
  datatype Verdict = Same | Similar | Unrelated

  /** The body of the domain loop: an exact match (ignoring case) ends the
    * search with no typo; an edit distance of at most two, or a shared
    * three-character prefix in either direction, ends it with a
    * suggestion; anything else moves on. */
  function Compare(domain: string, common: string): Verdict
  {
    var d, c := ToLower(domain), ToLower(common);
    if d == c then Same
    else if Distance(d, c) <= 2 then Similar
    else if Contains(d, ToLower(Prefix3(common))) || Contains(c, ToLower(Prefix3(domain))) then Similar
    else Unrelated
  }

  /** The loop over `domains`, in order: the first verdict that is not
    * `Unrelated` decides. */
  function Scan(email: string, username: string, domain: string, domains: seq<string>): (r: TypoCheck)
    ensures r.original == email
    ensures r.hasTypo <==> r.suggestion.Some?
    ensures r.hasTypo ==> exists k :: 0 <= k < |domains| && r.suggestion == Some(username + "@" + domains[k])
  {
    if domains == [] then NoTypo(email)
    else
      match Compare(domain, domains[0])
      case Same => NoTypo(email)
      case Similar => TypoCheck(true, email, Some(username + "@" + domains[0]))
      case Unrelated =>
        var r := Scan(email, username, domain, domains[1..]);
        assert r.hasTypo ==> exists k :: 1 <= k < |domains| && r.suggestion == Some(username + "@" + domains[k]) by {
          if r.hasTypo {
            var k :| 0 <= k < |domains[1..]| && r.suggestion == Some(username + "@" + domains[1..][k]);
            assert domains[k + 1] == domains[1..][k];
          }
        }
        r
  }

  /** `checkEmailTypos` as the code is written. */
  function TypoSpec(email: string): (r: TypoCheck)
    ensures r.original == email
    ensures !ValidEmailFormat(email) ==> r == NoTypo(email)
  {
    if !ValidEmailFormat(email) then NoTypo(email)
    else
      var parts := Split(email, '@');
      if |parts| != 2 then NoTypo(email)
      else Scan(email, parts[0], parts[1], CommonDomains)
  }

  /** The first domain, in list order, whose verdict is not `Unrelated`
    * decides the result. */
  lemma {:induction false} FirstVerdictDecides(email: string, username: string, domain: string,
                                               domains: seq<string>, k: nat)
    requires k < |domains| && Compare(domain, domains[k]) != Unrelated
    requires forall j :: 0 <= j < k ==> Compare(domain, domains[j]) == Unrelated
    ensures Scan(email, username, domain, domains) ==
            if Compare(domain, domains[k]) == Same then NoTypo(email)
            else TypoCheck(true, email, Some(username + "@" + domains[k]))
  {
    if k > 0 {
      assert forall j :: 0 <= j < k - 1 ==> domains[1..][j] == domains[j + 1];
      FirstVerdictDecides(email, username, domain, domains[1..], k - 1);
    }
  }

  /** With no decisive domain there is no typo. */
  lemma {:induction false} NoVerdictNoTypo(email: string, username: string, domain: string, domains: seq<string>)
    requires forall j :: 0 <= j < |domains| ==> Compare(domain, domains[j]) == Unrelated
    ensures Scan(email, username, domain, domains) == NoTypo(email)
  {
    if domains != [] {
      assert forall j :: 0 <= j < |domains| - 1 ==> domains[1..][j] == domains[j + 1];
      NoVerdictNoTypo(email, username, domain, domains[1..]);
    }
  }

  /** `user@mail.com` is a valid address splitting into `user` and
    * `mail.com`. */
  lemma MailComParts()
    ensures ValidEmailFormat("user@mail.com")
    ensures Split("user@mail.com", '@') == ["user", "mail.com"]
  {
    var e := "user@mail.com";
    assert EmailAt(e, 4, 9);
    assert e[..4] == "user" && e[5..] == "mail.com";
    SplitOnce(e, '@', 4);
  }

  /** `mail.com` is one edit away from `gmail.com`. */
  lemma MailGmailDistance()
    ensures Distance("mail.com", "gmail.com") == 1
  {
    assert "mail.com"[..7] == "mail.co" && "gmail.com"[..8] == "gmail.co";
    assert "mail.co"[..6] == "mail.c" && "gmail.co"[..7] == "gmail.c";
    assert "mail.c"[..5] == "mail." && "gmail.c"[..6] == "gmail.";
    assert "mail."[..4] == "mail" && "gmail."[..5] == "gmail";
    assert "mail"[..3] == "mai" && "gmail"[..4] == "gmai";
    assert "mai"[..2] == "ma" && "gmai"[..3] == "gma";
    assert "ma"[..1] == "m" && "gma"[..2] == "gm";
    assert "m"[..0] == "" && "gm"[..1] == "g";
  }

  /** As written, the typo check suggests the `gmail.com` address for any
    * address at `mail.com`, although `mail.com` is itself one of the common
    * domains: `gmail.com` comes first and is one edit away. */
  lemma MailComFlagged(email: string, at: nat)
    requires ValidEmailFormat(email) && at < |email| && email[at] == '@'
    requires email[at + 1..] == "mail.com"
    ensures TypoSpec(email) == TypoCheck(true, email, Some(email[..at] + "@gmail.com"))
  {
    SplitAtTheAt(email, at);
    var domain := email[at + 1..];
    MailGmailDistance();
    LowerOfLower(domain);
    LowerOfLower(CommonDomains[0]);
    assert Compare(domain, CommonDomains[0]) == Similar;
    FirstVerdictDecides(email, email[..at], domain, CommonDomains, 0);
    assert CommonDomains[0] == "gmail.com";
    assert email[..at] + "@" + "gmail.com" == email[..at] + "@gmail.com";
    assert TypoSpec(email) == Scan(email, email[..at], domain, CommonDomains);
  }

  /** Lower-case text is its own lower case. */
  lemma LowerOfLower(s: string)
    requires forall i :: 0 <= i < |s| ==> !IsUpperLetter(s[i])
    ensures ToLower(s) == s
  {
  }

  /** The intended check: a domain that is itself one of the common domains
    * (ignoring case) is never reported, wherever it sits in the list; the
    * other domains are searched as before. */
  function TypoSpecFixed(email: string): (r: TypoCheck)
    ensures r.original == email
  {
    if !ValidEmailFormat(email) then NoTypo(email)
    else
      var parts := Split(email, '@');
      if |parts| != 2 then NoTypo(email)
      else if ToLower(parts[1]) in CommonDomains then NoTypo(email)
      else Scan(email, parts[0], parts[1], CommonDomains)
  }

  /** With the correction, an address at a common domain has no typo. */
  lemma KnownDomainNotFlagged(email: string, at: nat)
    requires ValidEmailFormat(email) && at < |email| && email[at] == '@'
    requires ToLower(email[at + 1..]) in CommonDomains
    ensures TypoSpecFixed(email) == NoTypo(email)
  {
    SplitAtTheAt(email, at);
  }

  /** The correction changes nothing for a domain outside the list. */
  lemma FixedAgreesElsewhere(email: string, at: nat)
    requires at < |email| && email[at] == '@'
    requires ToLower(email[at + 1..]) !in CommonDomains
    ensures TypoSpecFixed(email) == TypoSpec(email)
  {
    if ValidEmailFormat(email) {
      SplitAtTheAt(email, at);
    }
  }

  /** The body of the domain loop, with the distance computed by the
    * matrix. */
  method CompareDomain(domain: string, common: string) returns (v: Verdict)
    ensures v == Compare(domain, common)
  {
    if ToLower(domain) == ToLower(common) {
      return Same;
    }
    var distance := GetEditDistance(ToLower(domain), ToLower(common));
    if distance <= 2 {
      return Similar;
    }
    if Contains(ToLower(domain), ToLower(Prefix3(common))) || Contains(ToLower(common), ToLower(Prefix3(domain))) {
      return Similar;
    }
    return Unrelated;
  }

  /** `checkEmailTypos`: the domains are tried in order and the first
    * decisive one returns at once. */
  method CheckEmailTypos(email: string) returns (r: TypoCheck)
    ensures r == TypoSpec(email)
  {
    if !ValidEmailFormat(email) {
      return NoTypo(email);
    }
    var parts := Split(email, '@');
    if |parts| != 2 {
      return NoTypo(email);
    }
    var username, domain := parts[0], parts[1];
    for k := 0 to |CommonDomains|
      invariant forall j :: 0 <= j < k ==> Compare(domain, CommonDomains[j]) == Unrelated
    {
      var verdict := CompareDomain(domain, CommonDomains[k]);
      if verdict != Unrelated {
        FirstVerdictDecides(email, username, domain, CommonDomains, k);
        if verdict == Same {
          return NoTypo(email);
        }
        return TypoCheck(true, email, Some(username + "@" + CommonDomains[k]));
      }
    }
    NoVerdictNoTypo(email, username, domain, CommonDomains);
    r := NoTypo(email);
  }
}
