/** `getNetworkIcon` of `src/constants/icons/index.ts` and the copy of it,
  * `formatNetworkIcon`, in `src/constants/index.ts`. */
module Icons {
  import opened Strings

  // the network entries of the `ICON` table
  const EthereumIcon := "\U{1F539}"
  const PolygonIcon := "\U{1F49C}"
  const ArbitrumIcon := "\U{1F535}"
  const OptimismIcon := "\U{2764}\U{FE0F}"
  const BaseIcon := "\U{1F537}"
  const BnbIcon := "\U{1F7E1}"
  const NetworkIcon := "\U{1F310}"

  /** The keywords tried, in order, and the icon each selects. */
  const Keywords: seq<string> := ["ethereum", "polygon", "arbitrum", "optimism", "base", "bnb"]
  const KeywordIcons: seq<string> := [EthereumIcon, PolygonIcon, ArbitrumIcon, OptimismIcon, BaseIcon, BnbIcon]

  /** `getNetworkIcon`: the icon of the first keyword the lower-cased name
    * contains, the generic network icon when it contains none. */
  function GetNetworkIcon(network: string): (icon: string)
    ensures icon in KeywordIcons || icon == NetworkIcon
  {
    var networkLower := ToLower(network);
    if Contains(networkLower, "ethereum") then EthereumIcon
    else if Contains(networkLower, "polygon") then PolygonIcon
    else if Contains(networkLower, "arbitrum") then ArbitrumIcon
    else if Contains(networkLower, "optimism") then OptimismIcon
    else if Contains(networkLower, "base") then BaseIcon
    else if Contains(networkLower, "bnb") then BnbIcon
    else NetworkIcon
  }

  /** The first-match rule over the keyword list: keyword `k` decides
    * exactly when the name contains it and none of the keywords before it. */
  lemma FirstKeywordDecides(network: string, k: nat)
    requires k < |Keywords| && Contains(ToLower(network), Keywords[k])
    requires forall j :: 0 <= j < k ==> !Contains(ToLower(network), Keywords[j])
    ensures GetNetworkIcon(network) == KeywordIcons[k]
  {
    if k > 0 { assert !Contains(ToLower(network), Keywords[0]); }
    if k > 1 { assert !Contains(ToLower(network), Keywords[1]); }
    if k > 2 { assert !Contains(ToLower(network), Keywords[2]); }
    if k > 3 { assert !Contains(ToLower(network), Keywords[3]); }
    if k > 4 { assert !Contains(ToLower(network), Keywords[4]); }
  }

  /** The generic icon exactly when no keyword occurs. */
  lemma DefaultIcon(network: string)
    ensures GetNetworkIcon(network) == NetworkIcon <==>
            forall j :: 0 <= j < |Keywords| ==> !Contains(ToLower(network), Keywords[j])
  {
    if GetNetworkIcon(network) == NetworkIcon {
      forall j | 0 <= j < |Keywords|
        ensures !Contains(ToLower(network), Keywords[j])
      {
      }
    } else {
      assert exists j :: 0 <= j < |Keywords| && Contains(ToLower(network), Keywords[j]) by {
        var networkLower := ToLower(network);
        if Contains(networkLower, "ethereum") { assert Contains(networkLower, Keywords[0]); }
        else if Contains(networkLower, "polygon") { assert Contains(networkLower, Keywords[1]); }
        else if Contains(networkLower, "arbitrum") { assert Contains(networkLower, Keywords[2]); }
        else if Contains(networkLower, "optimism") { assert Contains(networkLower, Keywords[3]); }
        else if Contains(networkLower, "base") { assert Contains(networkLower, Keywords[4]); }
        else { assert Contains(networkLower, Keywords[5]); }
      }
    }
  }

  /** The icon does not depend on the case of the name. */
  lemma IconIgnoresCase(n1: string, n2: string)
    requires ToLower(n1) == ToLower(n2)
    ensures GetNetworkIcon(n1) == GetNetworkIcon(n2)
    ensures GetNetworkIcon(ToUpper(n1)) == GetNetworkIcon(n1)
  {
    LowerAfterCaseChange(n1);
  }

  /** `formatNetworkIcon` of `src/constants/index.ts`, with its own emoji
    * literals. */
  function FormatNetworkIcon(network: string): (icon: string)
    ensures icon == GetNetworkIcon(network)
  {
    var networkLower := ToLower(network);
    if Contains(networkLower, "ethereum") then "\U{1F539}"
    else if Contains(networkLower, "polygon") then "\U{1F49C}"
    else if Contains(networkLower, "arbitrum") then "\U{1F535}"
    else if Contains(networkLower, "optimism") then "\U{2764}\U{FE0F}"
    else if Contains(networkLower, "base") then "\U{1F537}"
    else if Contains(networkLower, "bnb") then "\U{1F7E1}"
    else "\U{1F310}"
  }
}
