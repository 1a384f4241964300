/** The Express server: the guest list with its local-file fallback, the registration of a
    LINE user (in the sheet, or in the local file when the sheet is not configured), and
    the redirect the LINE login callback answers with. */
module Server {
  import opened Common
  import opened SheetRows

  /** The local `guests.json`: absent, not a JSON list, or a list of names and records. */
  datatype LocalFile = Missing | Unreadable | Stored(entries: seq<Entry>)

  /** `getLocalGuests`: the stored entries with names turned into records; nothing when
      the file is absent or unreadable. */
  function LocalGuests(file: LocalFile): (gs: seq<Guest>)
    ensures file.Stored? ==> gs == NormaliseAll(file.entries)
    ensures !file.Stored? ==> gs == []
  {
    match file
    case Stored(entries) => NormaliseAll(entries)
    case _ => []
  }

  /** Records stored as records read back unchanged. */
  lemma LocalGuestsOfRecords(gs: seq<Guest>)
    ensures LocalGuests(Stored(seq(|gs|, i requires 0 <= i < |gs| => Record(gs[i])))) == gs
  {
  }

  /** `GET /api/guests`. Without a Sheets client or sheet id, and when the read fails,
      the local guests; otherwise the rows decoded as the guests endpoint does. */
  function GuestsRoute(configured: bool, read: Result<Option<seq<Row>>>, file: LocalFile): (gs: seq<Guest>)
    ensures !configured || read.Err? ==> gs == LocalGuests(file)
    ensures configured && read.Ok? ==> gs == DecodeGuests(read.value)
  {
    if !configured then LocalGuests(file)
    else match read
      case Err(_) => LocalGuests(file)
      case Ok(values) => DecodeGuests(values)
  }

  /** `guests.some(g => g.lineId === lineId)`; an absent id on both sides compares equal. */
  predicate Registered(guests: seq<Guest>, lineId: Option<string>)
  {
    exists i :: 0 <= i < |guests| && guests[i].lineId == lineId
  }

  /** What the local fallback of `saveGuestToSheet` writes and answers: the list it read
      (names already turned into records) plus the new guest, or nothing when a stored
      guest already carries that LINE id. */
  datatype LocalSave = LocalSave(written: Option<seq<Guest>>, added: bool)

  function SaveLocal(file: LocalFile, name: string, pictureUrl: Option<string>, lineId: Option<string>): (s: LocalSave)
    ensures s.added <==> !Registered(LocalGuests(file), lineId)
    ensures s.added ==> s.written == Some(LocalGuests(file) + [Guest(name, pictureUrl, lineId)])
    ensures !s.added ==> s.written == None
  {
    var guests := LocalGuests(file);
    if Registered(guests, lineId) then LocalSave(None, false)
    else LocalSave(Some(guests + [Guest(name, pictureUrl, lineId)]), true)
  }

  /** The file as the server writes it: every guest as a record. */
  function AsFile(gs: seq<Guest>): LocalFile
  {
    Stored(seq(|gs|, i requires 0 <= i < |gs| => Record(gs[i])))
  }

  /** Each LINE user is registered once locally: saving again with the same id, even under
      another name or picture, writes nothing and answers false. */
  lemma SaveLocalOnce(file: LocalFile, name: string, pic: Option<string>, lineId: Option<string>,
                      name2: string, pic2: Option<string>)
    requires SaveLocal(file, name, pic, lineId).added
    ensures var again := SaveLocal(AsFile(SaveLocal(file, name, pic, lineId).written.value), name2, pic2, lineId);
      !again.added && again.written == None
  {
    var gs := SaveLocal(file, name, pic, lineId).written.value;
    LocalGuestsOfRecords(gs);
    assert gs[|gs| - 1].lineId == lineId;
  }

  /** The Sheets calls `saveGuestToSheet` makes, each answered or throwing. `titles` are the
      sheet titles of the spreadsheet; `read` is the `values` of the read of Users!A:C. */
  datatype SheetCalls = SheetCalls(
    titles: Result<seq<string>>,
    addSheet: Result<()>,
    addHeader: Result<()>,
    read: Result<Option<seq<Row>>>,
    append: Result<()>)

  /** What `saveGuestToSheet` returns: true, false, or undefined after a caught error. */
  datatype SaveOutcome = Added | AlreadyPresent | Undefined

  /** The outcome and the rows appended, in order, by the Sheets path. */
  datatype SheetSave = SheetSave(outcome: SaveOutcome, appended: seq<Row>)

  const HeaderRow: Row := ["Name", "Picture URL", "Line ID"]

  /** `rows.some(row => row[2] === lineId)`: some row's column C holds the id. */
  predicate HasLineId(rows: seq<Row>, lineId: Option<string>)
  {
    exists i :: 0 <= i < |rows| && Cell(rows[i], 2) == lineId
  }

  /** The Sheets path of `saveGuestToSheet`: create the Users sheet with its header when
      it is missing, read the rows, and append the guest unless some row's column C
      already holds its LINE id. Any failing call ends it with undefined. */
  function SaveToSheet(calls: SheetCalls, name: string, pictureUrl: Option<string>, lineId: Option<string>): (s: SheetSave)
    ensures s.outcome == Added ==>
      && calls.read.Ok?
      && !HasLineId(if calls.read.value.Some? then calls.read.value.value else [], lineId)
      && |s.appended| >= 1
      && s.appended[|s.appended| - 1] == [name, OrEmpty(pictureUrl), OrEmpty(lineId)]
      && forall k :: 0 <= k < |s.appended| - 1 ==> s.appended[k] == HeaderRow
    ensures s.outcome == AlreadyPresent ==>
      && calls.read.Ok? && calls.read.value.Some?
      && HasLineId(calls.read.value.value, lineId)
    ensures |s.appended| <= 2
    ensures s.outcome != Added ==> forall r :: r in s.appended ==> r == HeaderRow
    ensures calls.titles.Ok? && calls.read.Ok?
            && ("Users" in calls.titles.value || (calls.addSheet.Ok? && calls.addHeader.Ok?)) ==>
      var rows := if calls.read.value.Some? then calls.read.value.value else [];
      var header := if "Users" in calls.titles.value then [] else [HeaderRow];
      && (HasLineId(rows, lineId) ==> s == SheetSave(AlreadyPresent, header))
      && (!HasLineId(rows, lineId) && calls.append.Ok? ==>
            s == SheetSave(Added, header + [[name, OrEmpty(pictureUrl), OrEmpty(lineId)]]))
      && (!HasLineId(rows, lineId) && calls.append.Err? ==> s == SheetSave(Undefined, header))
    ensures calls.titles.Err? || calls.read.Err?
            || ("Users" !in calls.titles.value && (calls.addSheet.Err? || calls.addHeader.Err?)) ==>
      s.outcome == Undefined
  {
    match calls.titles
    case Err(_) => SheetSave(Undefined, [])
    case Ok(titles) =>
      if "Users" !in titles && calls.addSheet.Err? then SheetSave(Undefined, [])
      else if "Users" !in titles && calls.addHeader.Err? then SheetSave(Undefined, [])
      else
        var header := if "Users" in titles then [] else [HeaderRow];
        match calls.read
        case Err(_) => SheetSave(Undefined, header)
        case Ok(values) =>
          var rows := if values.Some? then values.value else [];
          if HasLineId(rows, lineId) then SheetSave(AlreadyPresent, header)
          else if calls.append.Err? then SheetSave(Undefined, header)
          else SheetSave(Added, header + [[name, OrEmpty(pictureUrl), OrEmpty(lineId)]])
  }

  /** Each LINE user is registered once in the sheet: once its row is in the sheet, a
      later save with the same id appends nothing and answers false. */
  lemma SaveToSheetOnce(calls: SheetCalls, rows: seq<Row>, name: string, pic: Option<string>, lineId: Option<string>)
    requires calls.titles.Ok? && "Users" in calls.titles.value
    requires calls.read == Ok(Some(rows + [[name, OrEmpty(pic), OrEmpty(lineId)]]))
    requires lineId.Some?
    ensures SaveToSheet(calls, name, pic, lineId) == SheetSave(AlreadyPresent, [])
  {
    var all := rows + [[name, OrEmpty(pic), OrEmpty(lineId)]];
    assert Cell(all[|all| - 1], 2) == lineId;
  }

  /** `saveGuestToSheet`: the local fallback when the Sheets client or sheet id is missing,
      the Sheets path otherwise. */
  function SaveGuest(configured: bool, file: LocalFile, calls: SheetCalls,
                     name: string, pictureUrl: Option<string>, lineId: Option<string>): (o: SaveOutcome)
    ensures !configured ==> (o == Added <==> !Registered(LocalGuests(file), lineId))
    ensures !configured ==> o != Undefined
    ensures configured ==> o == SaveToSheet(calls, name, pictureUrl, lineId).outcome
  {
    if !configured then (if SaveLocal(file, name, pictureUrl, lineId).added then Added else AlreadyPresent)
    else SaveToSheet(calls, name, pictureUrl, lineId).outcome
  }

  /** The answers of the callback: 400 without a code, or a redirect to the registration
      page with a status. */
  datatype CallbackReply = NoCode | Redirect(status: string)

  /** `GET /auth/line/callback`. `login` is the token exchange and profile read; `saved`
      is what `saveGuestToSheet` returned, or the error it threw. */
  function Callback(code: Option<string>, login: Result<Profile>, saved: Result<SaveOutcome>): (r: CallbackReply)
    ensures !Truthy(code) <==> r == NoCode
    ensures Truthy(code) && (login.Err? || saved.Err?) ==> r == Redirect("error")
    ensures r == Redirect("success") <==> Truthy(code) && login.Ok? && saved == Ok(Added)
    ensures Truthy(code) && login.Ok? && saved.Ok? && saved.value != Added ==> r == Redirect("already_registered")
  {
    if !Truthy(code) then NoCode
    else if login.Err? || saved.Err? then Redirect("error")
    else if saved.value == Added then Redirect("success")
    else Redirect("already_registered")
  }

  /** A sheet failure caught inside `saveGuestToSheet` is reported to the user as
      "already registered", not as an error. */
  lemma SheetFailureReadsAsRegistered(code: string, p: Profile, calls: SheetCalls)
    requires code != "" && calls.titles.Err?
    ensures Callback(Some(code), Ok(p), Ok(SaveToSheet(calls, p.displayName, p.pictureUrl, p.userId).outcome))
      == Redirect("already_registered")
  {
  }
}
