/** Shared value types: optional values, collaborator outcomes, the values the
  * bot keeps in its session scratch space, and the shape of HTTP errors. */
module Common {

  datatype Option<T> = None | Some(value: T)
  {
    function GetOr(default: T): T
    {
      match this
      case None => default
      case Some(v) => v
    }
  }

  /** What an awaited call into a collaborator (the HTTP API, the OTP service)
    * delivered: its value, or the message of the Error it threw. */
  datatype Outcome<T> = Success(value: T) | Failure(message: string)

  /** A value stored in the session's `tempData`: a string or a list of strings. */
  datatype Value = Text(s: string) | List(items: seq<string>)

  /** Comma-joined rendering, as `Array.prototype.join` with no argument. */
  function Join(items: seq<string>): string
  {
    if |items| == 0 then ""
    else if |items| == 1 then items[0]
    else Join(items[..|items| - 1]) + "," + items[|items| - 1]
  }

  /** A value interpolated in a template literal: `undefined`, the string
    * itself, or the comma-joined list. */
  function Display(v: Option<Value>): string
  {
    match v
    case None => "undefined"
    case Some(Text(s)) => s
    case Some(List(xs)) => Join(xs)
  }

  /** JavaScript truthiness of a stored value: the empty string and a missing
    * value are falsy, any other string and every array are truthy. */
  predicate Truthy(v: Option<Value>)
  {
    match v
    case None => false
    case Some(Text(s)) => s != ""
    case Some(List(_)) => true
  }

  /** The body of an HTTP error response, as far as the code looks at it. */
  datatype ErrorData = ErrorData(message: Option<Value>, error: Option<Value>)

  /** An HTTP response that carried an error status. */
  datatype ErrorResponse = ErrorResponse(data: Option<ErrorData>, status: int, statusText: string)

  /** An error thrown by the HTTP client: an optional response and the
    * client's own message. */
  datatype ApiError = ApiError(response: Option<ErrorResponse>, message: string)

  /** One entry of the balances endpoint (`Balance` in `src/types/index.ts`). */
  datatype Balance = Balance(token: string, network: string, balance: string, formattedBalance: Option<string>)

  /** `balances.filter((b) => b.network === network)`. */
  function OnNetwork(bs: seq<Balance>, network: string): (r: seq<Balance>)
    ensures |r| <= |bs|
    ensures forall b :: b in r <==> b in bs && b.network == network
  {
    if bs == [] then []
    else (if bs[0].network == network then [bs[0]] else []) + OnNetwork(bs[1..], network)
  }

  /** `balances.map((b) => b.network)`. */
  function NetworksOf(bs: seq<Balance>): (r: seq<string>)
    ensures |r| == |bs| && forall i :: 0 <= i < |bs| ==> r[i] == bs[i].network
  {
    seq(|bs|, i requires 0 <= i < |bs| => bs[i].network)
  }
}
