/** `src/utils/networks.ts`: chain ids and names, and the display name the
  * keyboards put on network buttons. */
module NetworkUtils {
  import opened Common
  import opened Strings

  /** The `NETWORKS` table: chain id to display name. */
  function NetworkById(id: string): (name: Option<string>)
    ensures name.Some? ==> name.value != ""
  {
    match id
    case "1" => Some("Ethereum")
    case "10" => Some("Optimism")
    case "56" => Some("BNB Chain")
    case "137" => Some("Polygon")
    case "8453" => Some("Base")
    case "42161" => Some("Arbitrum")
    case _ => None
  }

  /** The `NETWORK_IDS` table: lower-case name to chain id. */
  function IdByName(name: string): (id: Option<string>)
    ensures id.Some? ==> id.value != ""
  {
    match name
    case "ethereum" => Some("1")
    case "optimism" => Some("10")
    case "bnb" => Some("56")
    case "polygon" => Some("137")
    case "base" => Some("8453")
    case "arbitrum" => Some("42161")
    case _ => None
  }

  /** Every id the name table hands out has a name. */
  lemma IdsHaveNames(name: string)
    requires IdByName(name).Some?
    ensures NetworkById(IdByName(name).value).Some?
  {
  }

  /** `getNetworkName`: the table name of a known id, the upper-cased input
    * otherwise. */
  function GetNetworkName(id: string): (r: string)
    ensures NetworkById(id).Some? ==> r == NetworkById(id).value
    ensures NetworkById(id).None? ==> r == ToUpper(id)
  {
    match NetworkById(id)
    case Some(name) => name
    case None => ToUpper(id)
  }

  /** `getNetworkId`: the id of the lower-cased name, the input itself when
    * the name is unknown. */
  function GetNetworkId(name: string): (r: string)
    ensures IdByName(ToLower(name)).Some? ==> r == IdByName(ToLower(name)).value
    ensures IdByName(ToLower(name)).None? ==> r == name
  {
    match IdByName(ToLower(name))
    case Some(id) => id
    case None => name
  }

  /** The id lookup ignores the case of a known name. */
  lemma NetworkIdIgnoresCase(n1: string, n2: string)
    requires ToLower(n1) == ToLower(n2) && IdByName(ToLower(n1)).Some?
    ensures GetNetworkId(n1) == GetNetworkId(n2)
  {
  }

  /** `formatNetworkForDisplay`: an id shows its table name, a known name
    * (in any case) and anything else show capitalized, the rest of the
    * string lower-cased. */
  function FormatNetworkForDisplay(network: string): (r: string)
    ensures NetworkById(network).Some? ==> r == NetworkById(network).value
  {
    if NetworkById(network).Some? then NetworkById(network).value
    else
      var networkName := ToLower(network);
      if IdByName(networkName).Some? then Capitalize(networkName)
      else Capitalize(network)
  }

  /** Whatever is not an id shows as `capitalizeFirstLetter` of the input:
    * the name branch gives the same text as the fallback. */
  lemma DisplayOfNonId(network: string)
    requires NetworkById(network).None?
    ensures FormatNetworkForDisplay(network) == Capitalize(network)
    ensures |FormatNetworkForDisplay(network)| == |network|
  {
    CapitalizeIgnoresCase(network);
  }

  /** Ids start with a digit and names with a letter, so no string is
    * both an id and (in lower case) a name. */
  lemma IdIsNoName(network: string)
    requires IdByName(ToLower(network)).Some?
    ensures NetworkById(network).None?
  {
    NameStartsWithLetter(ToLower(network));
    assert ToLower(network)[0] == ToLowerChar(network[0]);
  }

  lemma NameStartsWithLetter(name: string)
    requires IdByName(name).Some?
    ensures |name| > 0 && 'a' <= name[0] <= 'z'
  {
  }

  /** A table name is the capitalized name, except for "bnb". */
  lemma NamedKey(key: string)
    requires IdByName(key).Some? && key != "bnb"
    ensures Capitalize(key) == GetNetworkName(IdByName(key).value)
  {
    match key
    case "ethereum" => Capitalized("ethereum", "Ethereum");
    case "optimism" => Capitalized("optimism", "Optimism");
    case "polygon" => Capitalized("polygon", "Polygon");
    case "base" => Capitalized("base", "Base");
    case "arbitrum" => Capitalized("arbitrum", "Arbitrum");
  }

  /** A lower-case word capitalizes to its first letter upper-cased. */
  lemma Capitalized(word: string, name: string)
    requires |word| > 0 && (forall i :: 1 <= i < |word| ==> 'a' <= word[i] <= 'z')
    requires name == [ToUpperChar(word[0])] + word[1..]
    ensures Capitalize(word) == name
  {
    assert ToLower(word[1..]) == word[1..];
  }

  /** The display name of a name is the table name of its id, except for
    * "bnb", which shows as "Bnb" while its id is named "BNB Chain". */
  lemma DisplayMatchesIdName(network: string)
    requires IdByName(ToLower(network)).Some? && ToLower(network) != "bnb"
    ensures FormatNetworkForDisplay(network) == GetNetworkName(GetNetworkId(network))
  {
    IdIsNoName(network);
    NamedKey(ToLower(network));
  }

  /** The one disagreement between the two tables. */
  lemma BnbShownDifferently()
    ensures FormatNetworkForDisplay("bnb") == "Bnb"
    ensures GetNetworkName(GetNetworkId("bnb")) == "BNB Chain"
  {
    assert ToLower("bnb") == "bnb";
    assert Capitalize("bnb") == "Bnb";
  }
}
