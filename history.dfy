/** The transaction history of `src/bot/commands/history.ts`: the transfers
  * are taken from the response, sorted newest first, cut to ten and written
  * out row by row. */
module History {
  import opened Common
  import opened Strings
  import opened Numbers
  import opened Sorting
  import Format
  import Keyboards

  datatype Receiver = Receiver(email: Option<string>, address: Option<string>)

  datatype BankAccount = BankAccount(name: Option<string>)

  /** A transfer as the history endpoint returns it; `createdAt` is the
    * timestamp `new Date(createdAt).getTime()` gives, `kind` is `type`. */
  datatype Transfer = Transfer(createdAt: int, amount: Amount, token: string, network: string,
                               status: string, kind: string,
                               receiver: Option<Receiver>, bankAccount: Option<BankAccount>)

  /** The `data` of the history response: an array, an object that may hold
    * an `items` array, or nothing. */
  datatype HistoryData = TransferArray(transfers: seq<Transfer>) | Paginated(items: Option<seq<Transfer>>) | NoData

  /** The transfers are `data` when it is an array, else `data.items` when
    * that is an array, else none. */
  function ExtractTransfers(data: HistoryData): (r: seq<Transfer>)
    ensures data.TransferArray? ==> r == data.transfers
    ensures data.Paginated? && data.items.Some? ==> r == data.items.value
    ensures data.NoData? || data == Paginated(None) ==> r == []
  {
    match data
    case TransferArray(ts) => ts
    case Paginated(Some(items)) => items
    case _ => []
  }

  function CreatedAt(t: Transfer): int
  {
    t.createdAt
  }

  /** `[...transfers].sort((a, b) => b.createdAt - a.createdAt)`. */
  function SortedTransfers(transfers: seq<Transfer>): (r: seq<Transfer>)
    ensures |r| == |transfers| && multiset(r) == multiset(transfers)
  {
    SortDesc(transfers, CreatedAt)
  }

  const MaxShown: nat := 10

  /** `sortedTransfers.slice(0, 10)`. */
  function RecentTransfers(transfers: seq<Transfer>): (r: seq<Transfer>)
    ensures |r| == if |transfers| < MaxShown then |transfers| else MaxShown
    ensures r == SortedTransfers(transfers)[..|r|]
  {
    Keyboards.Slice(SortedTransfers(transfers), 0, MaxShown)
  }

  /** The shown transfers are newest first, none older than any left out,
    * and transfers made at the same moment keep their order from the
    * response. */
  lemma NewestShown(transfers: seq<Transfer>, time: int)
    ensures var shown := RecentTransfers(transfers);
            var sorted := SortedTransfers(transfers);
            && (forall i, j :: 0 <= i < j < |shown| ==> shown[i].createdAt >= shown[j].createdAt)
            && (forall i, j :: 0 <= i < |shown| <= j < |sorted| ==> shown[i].createdAt >= sorted[j].createdAt)
            && WithKey(sorted, CreatedAt, time) == WithKey(transfers, CreatedAt, time)
  {
    var sorted := SortedTransfers(transfers);
    SortDescSorted(transfers, CreatedAt);
    SortDescStable(transfers, CreatedAt, time);
    var shown := RecentTransfers(transfers);
    forall i, j | 0 <= i < j < |shown|
      ensures shown[i].createdAt >= shown[j].createdAt
    {
      assert shown[i] == sorted[i] && shown[j] == sorted[j];
      assert CreatedAt(sorted[i]) >= CreatedAt(sorted[j]);
    }
    forall i, j | 0 <= i < |shown| <= j < |sorted|
      ensures shown[i].createdAt >= sorted[j].createdAt
    {
      assert shown[i] == sorted[i];
      assert CreatedAt(sorted[i]) >= CreatedAt(sorted[j]);
    }
  }

  /** The `To:` line: the receiver's email for an email transfer, its
    * address for a wallet transfer, the account name for a bank transfer,
    * and nothing when that object is missing or the type is another. */
  function ToLine(t: Transfer): string
  {
    if t.kind == "email" && t.receiver.Some? then "To: " + Keyboards.Shown(t.receiver.value.email) + "\n"
    else if t.kind == "wallet" && t.receiver.Some? then "To: " + Keyboards.Shown(t.receiver.value.address) + "\n"
    else if t.kind == "bank" && t.bankAccount.Some? then "To: " + Keyboards.Shown(t.bankAccount.value.name) + "\n"
    else ""
  }

  /** Who a transfer went to, when the history names anyone. */
  function Recipient(t: Transfer): Option<Option<string>>
  {
    match t.kind
    case "email" => if t.receiver.Some? then Some(t.receiver.value.email) else None
    case "wallet" => if t.receiver.Some? then Some(t.receiver.value.address) else None
    case "bank" => if t.bankAccount.Some? then Some(t.bankAccount.value.name) else None
    case _ => None
  }

  /** A `To:` line is written exactly when there is a recipient, and it
    * names that recipient. */
  lemma ToLineNamesRecipient(t: Transfer)
    ensures ToLine(t) == "" <==> Recipient(t).None?
    ensures Recipient(t).Some? ==> ToLine(t) == "To: " + Keyboards.Shown(Recipient(t).value) + "\n"
  {
  }

  /** `s.charAt(0).toUpperCase() + s.slice(1)`: the first letter
    * upper-cased and the rest unchanged. */
  lemma UpperFirstKeepsRest(s: string)
    ensures |UpperFirst(s)| == |s|
    ensures s != "" ==> UpperFirst(s)[0] == ToUpperChar(s[0]) && UpperFirst(s)[1..] == s[1..]
  {
  }

  /** One entry of the list; `showDate` is `toLocaleDateString`, which the
    * model leaves to the caller. */
  function RowText(index: nat, t: Transfer, showDate: int -> string): string
  {
    "*" + NatToString(index + 1) + ". " + UpperFirst(t.kind) + " - " + showDate(t.createdAt) + "*\n"
    + "Amount: " + Format.FormatAmount2(t.amount) + " " + t.token + "\n"
    + "Network: " + t.network + "\n"
    + "Status: " + UpperFirst(t.status) + "\n"
    + ToLine(t)
    + "\n"
  }

  /** The rows of a list, numbered from one. */
  function RowsText(rows: seq<Transfer>, showDate: int -> string): string
  {
    if rows == [] then ""
    else RowsText(rows[..|rows| - 1], showDate) + RowText(|rows| - 1, rows[|rows| - 1], showDate)
  }

  const HistoryHeader := "\U{1F4DC} *Your Transaction History*\n\n"

  /** The closing line, present exactly when transfers were left out. */
  function Footer(total: nat): (r: string)
    ensures r != "" <==> total > MaxShown
  {
    if total > MaxShown then "_Showing 10 most recent out of " + NatToString(total) + " transactions._" else ""
  }

  /** The message: the header, a row per recent transfer, the footer. */
  function HistoryMessage(transfers: seq<Transfer>, showDate: int -> string): string
  {
    HistoryHeader + RowsText(RecentTransfers(transfers), showDate) + Footer(|transfers|)
  }

  /** The `forEach` that appends the rows, then the footer. */
  method BuildHistoryMessage(transfers: seq<Transfer>, showDate: int -> string) returns (message: string)
    ensures message == HistoryMessage(transfers, showDate)
  {
    message := AppendRows(HistoryHeader, RecentTransfers(transfers), showDate);
    if |transfers| > 10 {
      message := message + Footer(|transfers|);
    } else {
      assert Footer(|transfers|) == "";
      assert message + "" == message;
    }
  }

  /** `rows.forEach((transfer, index) => { message += ... })`. */
  method AppendRows(prefix: string, rows: seq<Transfer>, showDate: int -> string) returns (message: string)
    ensures message == prefix + RowsText(rows, showDate)
  {
    message := prefix;
    for i := 0 to |rows|
      invariant message == prefix + RowsText(rows[..i], showDate)
    {
      var row := RowText(i, rows[i], showDate);
      RowsTextOneMore(rows, i, showDate);
      Appended(prefix, RowsText(rows[..i], showDate), row);
      message := message + row;
    }
    assert rows[..|rows|] == rows;
  }

  lemma RowsTextOneMore(rows: seq<Transfer>, n: nat, showDate: int -> string)
    requires n < |rows|
    ensures RowsText(rows[..n + 1], showDate) == RowsText(rows[..n], showDate) + RowText(n, rows[n], showDate)
  {
    assert rows[..n + 1][..n] == rows[..n];
  }

  datatype Reply = Reply(text: string, markdown: bool, keyboard: Option<Keyboards.Keyboard>)

  const FetchingReply := Reply("\U{1F504} Fetching your transaction history...", false, None)
  const NoTransactionsReply := Reply("\U{1F4DC} *No transactions found*\n\nYou don't have any transactions yet.", true, None)
  const BackReply := Reply("Return to main menu:", false, Some(Keyboards.BackButtonKeyboard(None)))

  function FailedReply(message: string): Reply
  {
    Reply("\U{274C} Failed to fetch transaction history: " + message + "\n\nPlease try again later.", false, None)
  }

  /** `fetchAndDisplayHistory` given the outcome of the history request
    * (a failure carries the error message, or "Unknown error"). */
  function HistoryReplies(fetch: Outcome<HistoryData>, showDate: int -> string): (r: seq<Reply>)
    ensures |r| == 3 && r[0] == FetchingReply && r[2] == BackReply
  {
    match fetch
    case Failure(message) => [FetchingReply, FailedReply(message), BackReply]
    case Success(data) =>
      var transfers := ExtractTransfers(data);
      if |transfers| == 0 then [FetchingReply, NoTransactionsReply, BackReply]
      else [FetchingReply, Reply(HistoryMessage(transfers, showDate), true, None), BackReply]
  }

  /** The reply in the middle is the "No transactions" notice exactly when
    * the request succeeded with no transfers, the failure notice exactly
    * when it failed, and the history otherwise. */
  lemma HistoryOutcomes(fetch: Outcome<HistoryData>, showDate: int -> string)
    ensures var r := HistoryReplies(fetch, showDate);
            && (r[1] == NoTransactionsReply <==> fetch.Success? && ExtractTransfers(fetch.value) == [])
            && (fetch.Failure? ==> r[1] == FailedReply(fetch.message))
            && (fetch.Success? && ExtractTransfers(fetch.value) != [] ==>
                  r[1] == Reply(HistoryMessage(ExtractTransfers(fetch.value), showDate), true, None))
  {
    var r := HistoryReplies(fetch, showDate);
    if fetch.Failure? {
      var prefix := "\U{274C} Failed to fetch transaction history: ";
      assert FailedReply(fetch.message).text[0] == prefix[0];
    } else if ExtractTransfers(fetch.value) != [] {
      var transfers := ExtractTransfers(fetch.value);
      var rows := RowsText(RecentTransfers(transfers), showDate);
      Appended(HistoryHeader, rows, Footer(|transfers|));
      assert r[1].text == HistoryHeader + (rows + Footer(|transfers|));
      assert r[1].text[3] == HistoryHeader[3];
    }
  }
}
