/** The maintenance script that deletes one registered LINE user from the Users sheet:
    it finds the first data row whose column C holds the id and deletes that row. */
module DeleteUser {
  import opened Common
  import opened SheetRows

  /** The LINE id the script deletes. */
  const UserIdToDelete: string := "Ua3d4362ea8964b8ccd08608feee4a886"

  /** A sheet of the spreadsheet, as listed in its metadata. */
  datatype SheetMeta = SheetMeta(title: string, sheetId: nat)

  /** A `deleteDimension` request over rows `[startIndex, endIndex)`, 0-based. */
  datatype DeleteRange = DeleteRange(sheetId: nat, startIndex: nat, endIndex: nat)

  /** How the script ends: an error (exit code 1), an empty sheet, an unknown id, or the
      deletion of the named user. */
  datatype DeleteOutcome = Failed(error: string) | NoUsers | NotFound | Deleted(userName: Option<string>)

  /** `s.properties.title === 'Users'`. */
  predicate IsUsersSheet(s: SheetMeta)
  {
    s.title == "Users"
  }

  /** `row[2] === id`: column C holds the id. */
  predicate HoldsId(row: Row, id: string)
  {
    Cell(row, 2) == Some(id)
  }

  /** The 1-based sheet row of the first data row (header skipped) holding `id`, or -1. */
  function UserRow(rows: seq<Row>, id: string): (rowIndex: int)
    requires |rows| >= 1
    ensures rowIndex == -1 || 2 <= rowIndex <= |rows|
  {
    var j := FindIndex(rows[1..], (row: Row) => HoldsId(row, id));
    if j == -1 then -1 else j + 2
  }

  /** The search loop: from index 1, the first row whose column C is `id`, as a 1-based
      sheet row, with its column A. */
  method FindUserRow(rows: seq<Row>, id: string) returns (rowIndex: int, userName: Option<string>)
    requires |rows| >= 1
    ensures rowIndex == UserRow(rows, id)
    ensures rowIndex == -1 <==> forall i :: 1 <= i < |rows| ==> !HoldsId(rows[i], id)
    ensures rowIndex != -1 ==>
      && HoldsId(rows[rowIndex - 1], id)
      && (forall i :: 1 <= i < rowIndex - 1 ==> !HoldsId(rows[i], id))
      && userName == Cell(rows[rowIndex - 1], 0)
  {
    rowIndex := -1;
    userName := None;
    var i := 1;
    while i < |rows|
      invariant 1 <= i <= |rows|
      invariant forall k :: 1 <= k < i ==> !HoldsId(rows[k], id)
    {
      if HoldsId(rows[i], id) {
        rowIndex := i + 1;
        userName := Cell(rows[i], 0);
        break;
      }
      i := i + 1;
    }
    assert forall k :: 0 <= k < |rows| - 1 ==> rows[1..][k] == rows[k + 1];
  }

  /** `deleteUser`. `configured` says whether the sheet id is set; the other parameters are
      the answers of the metadata read, of the read of Users!A:D and of the batch update. */
  method DeleteUser(configured: bool, sheets: Result<seq<SheetMeta>>,
                    values: Result<Option<seq<Row>>>, batch: Result<()>)
    returns (outcome: DeleteOutcome, request: Option<DeleteRange>)
    ensures !configured ==> outcome.Failed? && request == None
    ensures request.Some? ==>
      && configured && sheets.Ok? && values.Ok? && values.value.Some?
      && var rows, r := values.value.value, request.value;
         && |rows| >= 2
         && r.endIndex == r.startIndex + 1
         && r.startIndex + 1 == UserRow(rows, UserIdToDelete)
         && HoldsId(rows[r.startIndex], UserIdToDelete)
         && 1 <= r.startIndex
         && (forall i :: 1 <= i < r.startIndex ==> !HoldsId(rows[i], UserIdToDelete))
         && exists k :: 0 <= k < |sheets.value| && sheets.value[k] == SheetMeta("Users", r.sheetId)
    ensures configured && sheets.Ok? && (forall k :: 0 <= k < |sheets.value| ==> sheets.value[k].title != "Users") ==>
      outcome == Failed("Users sheet not found") && request == None
    ensures outcome.Deleted? ==>
      && request.Some? && batch.Ok? && values.Ok? && values.value.Some?
      && request.value.startIndex < |values.value.value|
      && outcome.userName == Cell(values.value.value[request.value.startIndex], 0)
    ensures outcome == NoUsers <==>
      && configured && sheets.Ok?
      && (exists k :: 0 <= k < |sheets.value| && sheets.value[k].title == "Users")
      && values.Ok? && (values.value.None? || |values.value.value| <= 1)
    ensures configured && sheets.Ok? && FindIndex(sheets.value, IsUsersSheet) != -1
            && values.Ok? && values.value.Some? && |values.value.value| >= 2
            && UserRow(values.value.value, UserIdToDelete) != -1 ==>
      var row := UserRow(values.value.value, UserIdToDelete);
      && request == Some(DeleteRange(sheets.value[FindIndex(sheets.value, IsUsersSheet)].sheetId, row - 1, row))
      && outcome == (if batch.Ok? then Deleted(Cell(values.value.value[row - 1], 0)) else Failed(batch.msg))
    ensures configured && sheets.Err? ==> outcome == Failed(sheets.msg) && request == None
    ensures outcome == NotFound ==>
      && configured && sheets.Ok? && FindIndex(sheets.value, IsUsersSheet) != -1
      && values.Ok? && values.value.Some? && request == None
      && forall i :: 1 <= i < |values.value.value| ==> !HoldsId(values.value.value[i], UserIdToDelete)
  {
    request := None;
    if !configured {
      return Failed("GOOGLE_SHEET_ID not found in .env"), None;
    }
    if sheets.Err? {
      return Failed(sheets.msg), None;
    }
    var k := FindIndex(sheets.value, IsUsersSheet);
    if k == -1 {
      return Failed("Users sheet not found"), None;
    }
    var sheetId := sheets.value[k].sheetId;
    if values.Err? {
      return Failed(values.msg), None;
    }
    if values.value.None? || |values.value.value| <= 1 {
      return NoUsers, None;
    }
    var rows := values.value.value;
    var rowIndex, userName := FindUserRow(rows, UserIdToDelete);
    if rowIndex == -1 {
      return NotFound, None;
    }
    request := Some(DeleteRange(sheetId, rowIndex - 1, rowIndex));
    if batch.Err? {
      return Failed(batch.msg), request;
    }
    outcome := Deleted(userName);
  }
}
