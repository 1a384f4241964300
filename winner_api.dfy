/** The winner endpoint: given a LINE id, find its row through column C of the Users
    sheet and mark the prize in column E of that row. */
module WinnerApi {
  import opened Common
  import opened Text
  import opened SheetRows

  /** The answer of a call to the Sheets update: `ok` and the status text. */
  datatype UpdateAnswer = UpdateAnswer(ok: bool, statusText: string)

  /** The responses of the endpoint: 405, 400, 404, 500 with a message, or success with
      the sheet row that was marked. */
  datatype WinnerReply =
    | MethodNotAllowed
    | MissingLineId
    | NotFound
    | ServerError(error: string)
    | Marked(row: nat)

  /** The reply and the range of the cell written, if an update was sent. */
  datatype WinnerResult = WinnerResult(reply: WinnerReply, written: Option<string>)

  /** `row => row[0] === lineId` on the rows of Users!C:C. */
  function IdIndex(rows: seq<Row>, lineId: string): (i: int)
    ensures -1 <= i < |rows|
    ensures i == -1 <==> forall j :: 0 <= j < |rows| ==> Cell(rows[j], 0) != Some(lineId)
    ensures 0 <= i ==> Cell(rows[i], 0) == Some(lineId)
    ensures 0 <= i ==> forall j :: 0 <= j < i ==> Cell(rows[j], 0) != Some(lineId)
  {
    FindIndex(rows, (row: Row) => Cell(row, 0) == Some(lineId))
  }

  /** The A1 range of column E in a 1-based sheet row. */
  function PrizeCell(sheetRow: nat): string
  {
    "Users!E" + Decimal(sheetRow)
  }

  /** The prize range names the row it was built from. */
  lemma PrizeCellNamesRow(sheetRow: nat)
    ensures var r := PrizeCell(sheetRow);
      && r[..7] == "Users!E" && AllDigits(r[7..]) && Value(r[7..]) == sheetRow
  {
    var r := PrizeCell(sheetRow);
    assert r[7..] == Decimal(sheetRow);
    ValueOfDecimal(sheetRow);
  }

  /** Distinct rows get distinct prize ranges. */
  lemma PrizeCellInjective(a: nat, b: nat)
    requires PrizeCell(a) == PrizeCell(b)
    ensures a == b
  {
    PrizeCellNamesRow(a);
    PrizeCellNamesRow(b);
  }

  /** `onRequest`. `lineId` is the decoded request body's `lineId` (or the parse error),
      `column` the `values` of the read of Users!C:C (or the error thrown while reading),
      `update` the answer of the update (or the error thrown while sending it). */
  function MarkWinner(httpMethod: string, lineId: Result<Option<string>>,
                      column: Result<Option<seq<Row>>>, update: Result<UpdateAnswer>): (r: WinnerResult)
    ensures httpMethod != "POST" ==> r == WinnerResult(MethodNotAllowed, None)
    ensures httpMethod == "POST" && lineId.Ok? && !Truthy(lineId.value) ==> r == WinnerResult(MissingLineId, None)
    ensures httpMethod == "POST" && (lineId.Err? || (Truthy(lineId.value) && column.Err?)) ==>
      r.reply.ServerError? && r.written == None
    ensures r.reply == NotFound <==>
      && httpMethod == "POST" && lineId.Ok? && Truthy(lineId.value) && column.Ok?
      && IdIndex(if column.value.Some? then column.value.value else [], lineId.value.value) == -1
    ensures r.reply.Marked? ==>
      && lineId.Ok? && Truthy(lineId.value) && column.Ok? && update.Ok? && update.value.ok
      && var rows := if column.value.Some? then column.value.value else [];
         && 1 <= r.reply.row <= |rows|
         && r.reply.row == IdIndex(rows, lineId.value.value) + 1
         && r.written == Some(PrizeCell(r.reply.row))
    ensures r.written.Some? ==> r.reply.Marked? || r.reply.ServerError?
    ensures httpMethod == "POST" && lineId.Ok? && Truthy(lineId.value) && column.Ok? ==>
      var rows := if column.value.Some? then column.value.value else [];
      var i := IdIndex(rows, lineId.value.value);
      0 <= i ==>
        && r.written == Some(PrizeCell(i + 1))
        && (r.reply.Marked? <==> update.Ok? && update.value.ok)
        && (!r.reply.Marked? ==> r.reply.ServerError?)
  {
    if httpMethod != "POST" then WinnerResult(MethodNotAllowed, None)
    else match lineId
      case Err(msg) => WinnerResult(ServerError(msg), None)
      case Ok(id) =>
        if !Truthy(id) then WinnerResult(MissingLineId, None)
        else match column
          case Err(msg) => WinnerResult(ServerError(msg), None)
          case Ok(values) =>
            var rows := if values.Some? then values.value else [];
            var rowIndex := IdIndex(rows, id.value);
            if rowIndex == -1 then WinnerResult(NotFound, None)
            else
              var sheetRow := rowIndex + 1;
              var written := Some(PrizeCell(sheetRow));
              match update
              case Err(msg) => WinnerResult(ServerError(msg), written)
              case Ok(answer) =>
                if !answer.ok then WinnerResult(ServerError("Failed to update sheet: " + answer.statusText), written)
                else WinnerResult(Marked(sheetRow), written)
  }
}
