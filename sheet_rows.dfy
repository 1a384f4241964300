/** Rows of the "Users" sheet (columns: name, picture URL, LINE id, timestamp, prize) and
    the two read endpoints over them: the guest list and the guest count. */
module SheetRows {
  import opened Common

  /** One row of cell values as the Sheets API returns it; trailing empty cells are
      omitted, so a row may be shorter than the range asked for. */
  type Row = seq<string>

  /** `row[i]`: the cell, or undefined past the end of the row. */
  function Cell(row: Row, i: nat): (c: Option<string>)
    ensures c.Some? <==> i < |row|
    ensures c.Some? ==> c.value == row[i]
  {
    if i < |row| then Some(row[i]) else None
  }

  /** `{ name: row[0], pictureUrl: row[1] || null }`; a missing name reads as "". */
  function RowToGuest(row: Row): (g: Guest)
    ensures Truthy(Cell(row, 0)) <==> g.name != ""
    ensures Truthy(Cell(row, 0)) ==> g.name == row[0]
    ensures g.pictureUrl == if Truthy(Cell(row, 1)) then Cell(row, 1) else None
    ensures g.lineId == None
  {
    Guest(if |row| > 0 then row[0] else "",
          if Truthy(Cell(row, 1)) then Cell(row, 1) else None,
          None)
  }

  /** `.filter(g => g.name && g.name !== 'Name')` */
  predicate Listed(g: Guest)
  {
    g.name != "" && g.name != "Name"
  }

  function RowsToGuests(rows: seq<Row>): (gs: seq<Guest>)
    ensures |gs| == |rows|
    ensures forall i :: 0 <= i < |rows| ==> gs[i] == RowToGuest(rows[i])
  {
    seq(|rows|, i requires 0 <= i < |rows| => RowToGuest(rows[i]))
  }

  /** The guest list built from the `values` of a read of columns A:C: nothing when the
      values are missing or empty, otherwise each row mapped to a guest, keeping those
      with a name other than the header's "Name". */
  function DecodeGuests(values: Option<seq<Row>>): (gs: seq<Guest>)
    ensures values.None? ==> gs == []
    ensures values.Some? ==> |gs| <= |values.value|
    ensures forall g :: g in gs ==> Listed(g) && g.lineId == None
  {
    if values.None? || |values.value| == 0 then []
    else Filter(RowsToGuests(values.value), Listed)
  }

  /** A row yields a guest exactly when its name cell is filled and is not "Name". */
  lemma DecodeGuestsComplete(rows: seq<Row>, g: Guest)
    ensures g in DecodeGuests(Some(rows)) <==>
      exists i :: 0 <= i < |rows| && RowToGuest(rows[i]) == g && Listed(g)
  {
    if rows != [] {
      var gs := RowsToGuests(rows);
      if g in DecodeGuests(Some(rows)) {
        var i :| 0 <= i < |gs| && gs[i] == g;
      }
    }
  }

  /** A header row in front of the data changes nothing: it is filtered out. */
  lemma HeaderIsDropped(header: Row, rows: seq<Row>)
    requires Cell(header, 0) == Some("Name")
    ensures DecodeGuests(Some([header] + rows)) == DecodeGuests(Some(rows))
  {
    assert RowsToGuests([header] + rows) == [RowToGuest(header)] + RowsToGuests(rows);
    FilterAppend([RowToGuest(header)], RowsToGuests(rows), Listed);
  }

  /** The response of the guests endpoint: the list, or status 500 with the error. */
  datatype GuestsResponse = GuestList(guests: seq<Guest>) | Failure(status: nat, error: string)

  /** `onRequest` of the guests endpoint, given the outcome of the read of Users!A:C. */
  function GuestsEndpoint(read: Result<Option<seq<Row>>>): (r: GuestsResponse)
    ensures r.Failure? <==> read.Err?
    ensures read.Err? ==> r == Failure(500, read.msg)
    ensures read.Ok? ==> r == GuestList(DecodeGuests(read.value))
  {
    match read
    case Err(msg) => Failure(500, msg)
    case Ok(values) => GuestList(DecodeGuests(values))
  }

  /** `rows ? Math.max(0, rows.length - 1) : 0`: the rows of column A minus the header. */
  function UserCount(values: Option<seq<Row>>): (n: nat)
    ensures values.None? ==> n == 0
    ensures values.Some? && |values.value| <= 1 ==> n == 0
    ensures values.Some? && |values.value| >= 1 ==> n == |values.value| - 1
  {
    if values.None? || |values.value| == 0 then 0 else |values.value| - 1
  }

  /** When the first row is the header, the count is at least the number of guests the
      list shows: only the header is discounted, and it is never shown. */
  lemma CountCoversListedGuests(header: Row, rows: seq<Row>)
    requires Cell(header, 0) == Some("Name")
    ensures |DecodeGuests(Some([header] + rows))| <= UserCount(Some([header] + rows))
  {
    if rows != [] {
      HeaderIsDropped(header, rows);
    } else {
      assert !Listed(RowToGuest(header));
      assert RowsToGuests([header]) == [RowToGuest(header)];
    }
  }

  /** The response of the count endpoint: `{count}`, or status 500 with the error. */
  datatype CountResponse = Count(count: nat) | CountFailure(status: nat, error: string)

  function CountEndpoint(read: Result<Option<seq<Row>>>): (r: CountResponse)
    ensures r.CountFailure? <==> read.Err?
    ensures read.Err? ==> r == CountFailure(500, read.msg)
    ensures read.Ok? ==> r == Count(UserCount(read.value))
  {
    match read
    case Err(msg) => CountFailure(500, msg)
    case Ok(values) => Count(UserCount(values))
  }
}
