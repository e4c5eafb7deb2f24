/** The message decorators of `src/utils/theme.ts`, which
  * `src/constants/themes/default.ts` repeats character for character
  * (that file has no network-icon helper). */
module Theme {
  import opened Strings
  import opened Numbers
  import Icons

  // the `SECTION` decorators
  const Header := "\U{1F539} "
  const Subheader := "  \U{25FD}\U{FE0F} "
  const Success := "\U{2705} "
  const Error := "\U{274C} "
  const Warning := "\U{26A0}\U{FE0F} "
  const Info := "\U{1F4DD} "
  const Loading := "\U{1F504} "

  /** `*<decorator><text>*`: the shape of the header and subheader. */
  function Starred(decorator: string, text: string): (r: string)
    ensures |r| == |decorator| + |text| + 2
    ensures r[0] == '*' && r[|r| - 1] == '*' && r[1..|r| - 1] == decorator + text
  {
    "*" + decorator + text + "*"
  }

  /** `<indicator>*<text>*`: the shape of success, error and warning. */
  function Flagged(indicator: string, text: string): (r: string)
    ensures |r| == |indicator| + |text| + 2
    ensures r[..|indicator|] == indicator && r[|indicator|] == '*' && r[|r| - 1] == '*'
    ensures r[|indicator| + 1..|r| - 1] == text
  {
    indicator + "*" + text + "*"
  }

  function FormatHeader(text: string): (r: string)
    ensures r == Starred(Header, text)
  {
    "*" + Header + text + "*"
  }

  function FormatSubheader(text: string): (r: string)
    ensures r == Starred(Subheader, text)
  {
    "*" + Subheader + text + "*"
  }

  function FormatSuccess(text: string): (r: string)
    ensures r == Flagged(Success, text)
  {
    Success + "*" + text + "*"
  }

  function FormatError(text: string): (r: string)
    ensures r == Flagged(Error, text)
  {
    Error + "*" + text + "*"
  }

  function FormatWarning(text: string): (r: string)
    ensures r == Flagged(Warning, text)
  {
    Warning + "*" + text + "*"
  }

  /** `formatInfo` and `formatLoading`: the indicator and the text as it is. */
  function FormatInfo(text: string): (r: string)
    ensures |r| == |Info| + |text| && r[..|Info|] == Info && r[|Info|..] == text
  {
    Info + text
  }

  function FormatLoading(text: string): (r: string)
    ensures |r| == |Loading| + |text| && r[..|Loading|] == Loading && r[|Loading|..] == text
  {
    Loading + text
  }

  /** The decorated text can be read back: every decorator is injective. */
  lemma DecoratorsInjective(a: string, b: string)
    ensures FormatHeader(a) == FormatHeader(b) ==> a == b
    ensures FormatSubheader(a) == FormatSubheader(b) ==> a == b
    ensures FormatSuccess(a) == FormatSuccess(b) ==> a == b
    ensures FormatError(a) == FormatError(b) ==> a == b
    ensures FormatWarning(a) == FormatWarning(b) ==> a == b
    ensures FormatInfo(a) == FormatInfo(b) ==> a == b
    ensures FormatLoading(a) == FormatLoading(b) ==> a == b
  {
    if FormatHeader(a) == FormatHeader(b) {
      assert (Header + a)[|Header|..] == a && (Header + b)[|Header|..] == b;
    }
    if FormatSubheader(a) == FormatSubheader(b) {
      assert (Subheader + a)[|Subheader|..] == a && (Subheader + b)[|Subheader|..] == b;
    }
  }

  /** A success, an error and a warning can never be confused: their first
    * characters differ. */
  lemma VerdictsDistinct(a: string, b: string)
    ensures FormatSuccess(a) != FormatError(b)
    ensures FormatSuccess(a) != FormatWarning(b)
    ensures FormatError(a) != FormatWarning(b)
  {
    assert FormatSuccess(a)[0] == '\U{2705}';
    assert FormatError(b)[0] == '\U{274C}';
    assert FormatWarning(b)[0] == '\U{26A0}';
    assert FormatError(a)[0] == '\U{274C}';
  }

  /** The text a template literal shows for `string | number`. */
  function AmountText(amount: Amount): string
  {
    match amount
    case AmountText(s) => s
    case AmountNumber(x) => NumberToString(x)
  }

  /** `formatAmount(amount, symbol)`: `*amount* symbol`, trimmed. */
  function FormatAmount(amount: Amount, symbol: string): (r: string)
  {
    AmountLabel(AmountText(amount), symbol)
  }

  function AmountLabel(text: string, symbol: string): string
  {
    Trim("*" + text + "* " + symbol)
  }

  /** Without a symbol no space is left over. */
  lemma FormatAmountBare(amount: Amount)
    ensures FormatAmount(amount, "") == "*" + AmountText(amount) + "*"
  {
    BareLabel(AmountText(amount));
  }

  lemma BareLabel(text: string)
    ensures AmountLabel(text, "") == "*" + text + "*"
  {
    var u := "*" + text + "*";
    var s := "*" + text + "* " + "";
    assert s[|s| - 1] == ' ' && s[..|s| - 1] == u;
    assert TrimStart(s) == s;
    assert TrimEnd(u) == u;
  }

  /** With a symbol that does not end in white space, the space before it
    * stays. */
  lemma FormatAmountWithSymbol(amount: Amount, symbol: string)
    requires symbol != "" && !IsSpace(symbol[|symbol| - 1])
    ensures FormatAmount(amount, symbol) == "*" + AmountText(amount) + "* " + symbol
  {
    SymbolLabel(AmountText(amount), symbol);
  }

  lemma SymbolLabel(text: string, symbol: string)
    requires symbol != "" && !IsSpace(symbol[|symbol| - 1])
    ensures AmountLabel(text, symbol) == "*" + text + "* " + symbol
  {
    var s := "*" + text + "* " + symbol;
    assert TrimStart(s) == s;
    assert s[|s| - 1] == symbol[|symbol| - 1];
  }

  /** `formatNetworkIcon` of the theme, over its own copy of the icon table. */
  function FormatNetworkIcon(network: string): (icon: string)
    ensures icon == Icons.GetNetworkIcon(network)
  {
    var lower := ToLower(network);
    if Contains(lower, "ethereum") then "\U{1F539}"
    else if Contains(lower, "polygon") then "\U{1F49C}"
    else if Contains(lower, "arbitrum") then "\U{1F535}"
    else if Contains(lower, "optimism") then "\U{2764}\U{FE0F}"
    else if Contains(lower, "base") then "\U{1F537}"
    else if Contains(lower, "bnb") then "\U{1F7E1}"
    else "\U{1F310}"
  }
}
