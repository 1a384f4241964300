/** The LINE login callback of the hosted functions: exchange the code, read the profile,
    and append the user to the Users sheet unless its LINE id is already in column C. */
module LineCallback {
  import opened Common
  import opened SheetRows

  /** An answered append: its JSON body was read; `ok` is the HTTP status check the
      source does not look at. */
  datatype AppendAnswer = AppendAnswer(ok: bool)

  /** The answers the callback depends on, each answered or throwing. `token` is the
      `access_token` of the token answer, `existing` the `values` of Users!C:C. */
  datatype Calls = Calls(
    token: Result<Option<string>>,
    profile: Result<Profile>,
    existing: Result<Option<seq<Row>>>,
    append: Result<AppendAnswer>)

  /** 400 without a code, or a 302 to the registration page with a status. */
  datatype Reply = NoCode | Redirect(status: string)

  /** The reply and the row appended to Users!A:D, if one was sent. */
  datatype Outcome = Outcome(reply: Reply, appended: Option<Row>)

  /** `values.flat()`: the cells of column C, row after row. */
  function Flatten(rows: seq<Row>): (ids: seq<string>)
    ensures forall i, j :: 0 <= i < |rows| && 0 <= j < |rows[i]| ==> rows[i][j] in ids
    ensures forall id :: id in ids ==> exists i :: 0 <= i < |rows| && id in rows[i]
  {
    if rows == [] then [] else rows[0] + Flatten(rows[1..])
  }

  /** `existingIds.includes(userId)`; an absent id is never among the cells. */
  predicate Known(ids: seq<string>, userId: Option<string>)
  {
    userId.Some? && userId.value in ids
  }

  /** The ids already registered: the flattened column, or none when it has no values. */
  function ExistingIds(values: Option<seq<Row>>): seq<string>
  {
    if values.Some? then Flatten(values.value) else []
  }

  /** The row appended for a new user. */
  function NewRow(p: Profile, timestamp: string): Row
  {
    [p.displayName, OrEmpty(p.pictureUrl), OrEmpty(p.userId), timestamp]
  }

  /** The code, the token and the profile were answered, column C was read, and the
      profile's id is not among the ids already there. */
  predicate NewUser(code: Option<string>, calls: Calls)
  {
    && Truthy(code) && calls.token.Ok? && Truthy(calls.token.value) && calls.profile.Ok?
    && calls.existing.Ok?
    && !Known(ExistingIds(calls.existing.value), calls.profile.value.userId)
  }

  /** `onRequest` as written: an answered append counts as a registration whatever its
      status. `timestamp` is the Bangkok time string of the append. */
  function Callback(code: Option<string>, calls: Calls, timestamp: string): (o: Outcome)
    ensures !Truthy(code) <==> o.reply == NoCode
    ensures o.appended.Some? <==> NewUser(code, calls)
    ensures NewUser(code, calls) ==>
      && o.appended == Some(NewRow(calls.profile.value, timestamp))
      && o.reply == (if calls.append.Ok? then Redirect("success") else Redirect("error"))
    ensures o.reply == Redirect("already_registered") <==>
      && Truthy(code) && calls.token.Ok? && Truthy(calls.token.value) && calls.profile.Ok?
      && calls.existing.Ok?
      && Known(ExistingIds(calls.existing.value), calls.profile.value.userId)
    ensures o.reply == Redirect("success") <==> o.appended.Some? && calls.append.Ok?
    ensures o.reply.Redirect? ==> o.reply.status in {"success", "already_registered", "error"}
  {
    if !Truthy(code) then Outcome(NoCode, None)
    else if calls.token.Err? || !Truthy(calls.token.value) || calls.profile.Err? || calls.existing.Err? then
      Outcome(Redirect("error"), None)
    else
      var p := calls.profile.value;
      if Known(ExistingIds(calls.existing.value), p.userId) then
        Outcome(Redirect("already_registered"), None)
      else
        var row := Some(NewRow(p, timestamp));
        match calls.append
        case Err(_) => Outcome(Redirect("error"), row)
        case Ok(_) => Outcome(Redirect("success"), row)
  }

  /** A new user whose append the sheet rejected (answered, but not ok) is still told
      that the registration succeeded. */
  lemma RejectedAppendReportsSuccess()
    ensures var calls := Calls(Ok(Some("token")), Ok(Profile(Some("U1"), "Guest", None)),
                               Ok(None), Ok(AppendAnswer(false)));
      Callback(Some("code"), calls, "now").reply == Redirect("success")
  {
  }

  /** The callback with the append's status checked: a rejected append is an error. */
  function CheckedCallback(code: Option<string>, calls: Calls, timestamp: string): (o: Outcome)
    ensures o.appended == Callback(code, calls, timestamp).appended
    ensures calls.append.Ok? && !calls.append.value.ok && o.appended.Some? ==> o.reply == Redirect("error")
    ensures !(calls.append.Ok? && !calls.append.value.ok && o.appended.Some?) ==>
      o.reply == Callback(code, calls, timestamp).reply
    ensures NewUser(code, calls) && calls.append.Ok? && calls.append.value.ok ==>
      o == Outcome(Redirect("success"), Some(NewRow(calls.profile.value, timestamp)))
  {
    var o := Callback(code, calls, timestamp);
    if o.appended.Some? && calls.append.Ok? && !calls.append.value.ok then Outcome(Redirect("error"), o.appended)
    else o
  }

  /** With the status checked, "success" means the sheet accepted the new row, and a
      user whose id is already listed is never appended twice. */
  lemma CheckedSuccessMeansStored(code: Option<string>, calls: Calls, timestamp: string)
    ensures var o := CheckedCallback(code, calls, timestamp);
      o.reply == Redirect("success") <==>
        o.appended.Some? && calls.append.Ok? && calls.append.value.ok
    ensures (calls.profile.Ok? && calls.existing.Ok?
             && Known(ExistingIds(calls.existing.value), calls.profile.value.userId)) ==>
      CheckedCallback(code, calls, timestamp).appended == None
  {
  }

  /** Once the user's row is in the sheet, a later login is answered "already registered"
      and appends nothing. */
  lemma RegisteredOnce(code: string, calls: Calls, rows: seq<Row>, timestamp: string)
    requires code != "" && calls.token.Ok? && Truthy(calls.token.value) && calls.profile.Ok?
    requires calls.profile.value.userId.Some?
    requires calls.existing == Ok(Some(rows + [[calls.profile.value.userId.value]]))
    ensures CheckedCallback(Some(code), calls, timestamp) == Outcome(Redirect("already_registered"), None)
  {
    var all := rows + [[calls.profile.value.userId.value]];
    assert all[|all| - 1][0] == calls.profile.value.userId.value;
  }
}
