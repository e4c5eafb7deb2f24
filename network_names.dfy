/** `src/constants/networks/index.ts`: the second, richer set of network
  * tables, and its display formatter with substring rules. */
module NetworkNames {
  import opened Common
  import opened Strings

  /** The `NETWORK_NAMES` table, keyed by chain id or lower-case name. */
  function NameFor(key: string): (name: Option<string>)
    ensures name.Some? ==> name.value != ""
  {
    match key
    case "1" => Some("Ethereum")
    case "137" => Some("Polygon")
    case "42161" => Some("Arbitrum")
    case "10" => Some("Optimism")
    case "8453" => Some("Base")
    case "ethereum" => Some("Ethereum")
    case "polygon" => Some("Polygon")
    case "arbitrum" => Some("Arbitrum")
    case "optimism" => Some("Optimism")
    case "base" => Some("Base")
    case "mainnet" => Some("Ethereum Mainnet")
    case _ => None
  }

  /** The `NETWORK_IDS` table. */
  function IdFor(name: string): (id: Option<string>)
    ensures id.Some? ==> id.value != ""
  {
    match name
    case "ethereum" => Some("1")
    case "polygon" => Some("137")
    case "arbitrum" => Some("42161")
    case "optimism" => Some("10")
    case "base" => Some("8453")
    case _ => None
  }

  /** The two tables agree: a name and its id have the same display name. */
  lemma IdsNamedAlike(name: string)
    requires IdFor(name).Some?
    ensures NameFor(IdFor(name).value) == NameFor(name) && NameFor(name).Some?
  {
  }

  /** `formatNetworkForDisplay`: the table entry for the input exactly as
    * given; then the substring rules on the lower-cased input, in order;
    * then the input with only its first character upper-cased. */
  function FormatNetworkForDisplay(network: string): (r: string)
    ensures NameFor(network).Some? ==> r == NameFor(network).value
  {
    var networkKey := ToLower(network);
    if NameFor(network).Some? then NameFor(network).value
    else if Contains(networkKey, "ethereum") || Contains(networkKey, "eth") then "Ethereum"
    else if Contains(networkKey, "polygon") || Contains(networkKey, "matic") then "Polygon"
    else if Contains(networkKey, "arbitrum") || Contains(networkKey, "arb") then "Arbitrum"
    else if Contains(networkKey, "optimism") || Contains(networkKey, "opt") then "Optimism"
    else if Contains(networkKey, "base") then "Base"
    else UpperFirst(network)
  }

  /** The long names in the rules add nothing: each contains its short
    * form, so "ethereum", "arbitrum" and "optimism" are caught by "eth",
    * "arb" and "opt". */
  lemma LongNamesRedundant(s: string)
    ensures Contains(s, "ethereum") ==> Contains(s, "eth")
    ensures Contains(s, "arbitrum") ==> Contains(s, "arb")
    ensures Contains(s, "optimism") ==> Contains(s, "opt")
  {
    if Contains(s, "ethereum") {
      ContainsPrefixOf(s, "ethereum", "eth");
    }
    if Contains(s, "arbitrum") {
      ContainsPrefixOf(s, "arbitrum", "arb");
    }
    if Contains(s, "optimism") {
      ContainsPrefixOf(s, "optimism", "opt");
    }
  }

  /** Outside the table, any input containing "eth" in any case is shown
    * as Ethereum, whatever else it contains. */
  lemma EthWins(network: string)
    requires NameFor(network).None? && Contains(ToLower(network), "eth")
    ensures FormatNetworkForDisplay(network) == "Ethereum"
  {
  }

  /** The table lookup is case-sensitive: "Ethereum" is no key and reaches
    * the substring rules, which still name it Ethereum. */
  lemma CapitalizedNameUsesRules()
    ensures NameFor("Ethereum").None?
    ensures FormatNetworkForDisplay("Ethereum") == "Ethereum"
  {
    assert ToLower("Ethereum") == "ethereum";
    assert StartsWith("ethereum", "eth");
  }

  /** An input no rule matches keeps everything but its first character. */
  lemma FallbackKeepsRest(network: string)
    requires NameFor(network).None?
    requires !Contains(ToLower(network), "eth") && !Contains(ToLower(network), "polygon")
    requires !Contains(ToLower(network), "matic") && !Contains(ToLower(network), "arb")
    requires !Contains(ToLower(network), "opt") && !Contains(ToLower(network), "base")
    ensures var r := FormatNetworkForDisplay(network);
            |r| == |network| && (network != [] ==> r[0] == ToUpperChar(network[0]) && r[1..] == network[1..])
  {
    LongNamesRedundant(ToLower(network));
  }

  /** The result is a table name, one of the rule names, or the input with
    * its first character upper-cased. */
  lemma DisplayRange(network: string)
    ensures var r := FormatNetworkForDisplay(network);
            (exists key :: NameFor(key) == Some(r))
            || r in {"Ethereum", "Polygon", "Arbitrum", "Optimism", "Base"} || r == UpperFirst(network)
  {
    var r := FormatNetworkForDisplay(network);
    if NameFor(network).Some? {
      assert NameFor(network) == Some(r);
    }
  }

  /** `getNetworkId`: the id of the lower-cased name, the input otherwise. */
  function GetNetworkId(networkName: string): (r: string)
    ensures IdFor(ToLower(networkName)).Some? ==> r == IdFor(ToLower(networkName)).value
    ensures IdFor(ToLower(networkName)).None? ==> r == networkName
  {
    match IdFor(ToLower(networkName))
    case Some(id) => id
    case None => networkName
  }

  /** The lookup ignores the case of the name. */
  lemma NetworkIdIgnoresCase(n1: string, n2: string)
    requires ToLower(n1) == ToLower(n2) && IdFor(ToLower(n1)).Some?
    ensures GetNetworkId(n1) == GetNetworkId(n2)
  {
  }

  datatype SupportedNetwork = SupportedNetwork(name: string, id: string)

  /** The keys `getSupportedNetworks` reads from the id table, in order. */
  const SupportedKeys: seq<string> := ["ethereum", "polygon", "arbitrum", "optimism", "base"]

  /** `getSupportedNetworks`: five entries, each id taken from the id table
    * and each named as the name table names that id. */
  function GetSupportedNetworks(): (r: seq<SupportedNetwork>)
    ensures |r| == 5
    ensures forall i :: 0 <= i < 5 ==> IdFor(SupportedKeys[i]) == Some(r[i].id)
    ensures forall i :: 0 <= i < 5 ==> NameFor(r[i].id) == Some(r[i].name)
    ensures forall i, j :: 0 <= i < j < 5 ==> r[i].id != r[j].id
  {
    [SupportedNetwork("Ethereum", IdFor("ethereum").value),
     SupportedNetwork("Polygon", IdFor("polygon").value),
     SupportedNetwork("Arbitrum", IdFor("arbitrum").value),
     SupportedNetwork("Optimism", IdFor("optimism").value),
     SupportedNetwork("Base", IdFor("base").value)]
  }
}
