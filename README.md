# Wedding lucky draw and guest registration, in Dafny

This project models the decision logic of a wedding web application. Guests register through
LINE login. Their rows are kept in the "Users" sheet of a Google spreadsheet. Several browser
pages draw a lucky winner from that list. The project has these parts:

- **Slot reel draw** (`SlotReel`, public/luckydraw_1.js). A `Slot` keeps the name list and the
  parallel list of guest records. A spin shuffles the names by swapping an index array in place.
  It doubles the shuffled list until it fills the reel, then cuts the reel one item short when
  the previous winner is still on show. The last reel item is the winner. On request, the winner
  is removed from both lists at one index.
- **Stepwise cursor draw** (`StepDraw`, public/randomdraw.js).
  - A cursor walks the guest list once per timer tick, for a budget of 30 to 49 ticks.
  - The timer slows after 70% of the budget.
  - The guest under the cursor at the end is the winner.
- **Grid draw** (`GridDraw`, public/luckydraw.js). Guests with a name and a picture get a card.
  Twenty ticks highlight one random card each. Then a separately drawn winner's card is the
  only one left highlighted.
- **Single-reel draw** (`ReelDraw`, public/script.js and the identical script.js lines 1-219).
  It models the guest-list polling rules and the spin guards. The winner index is drawn in range.
- **Countdown** (`Countdown`, public/script.js). The milliseconds left are split into days,
  hours, minutes and seconds. Each part is padded to two digits.
- **Sheet rows** (`SheetRows`, functions/api/guests.js, functions/api/user-count.js). Rows are
  decoded into guests, and the guest count leaves out the header row.
- **Express server** (`Server`, server.js).
  - The guest route, with its local-file fallback.
  - Registration once per LINE id, in the sheet or in the local file.
  - The redirect of the LINE callback.
- **Winner endpoint** (`WinnerApi`, functions/api/winner.js). It looks up a LINE id in column C
  and marks the prize cell in column E.
- **User deletion script** (`DeleteUser`, scripts/delete-user.js). It searches the rows, skipping
  the header, and builds the row-delete range.
- **Hosted LINE callback** (`LineCallback`, functions/auth/line/callback.js). It decides whether
  the user is new or already registered, and handles the error paths.
- **Mock data script** (`MockUsers`, scripts/populate-mock-users.js). It builds names, avatar
  URLs and LINE ids, and fills 600 rows.

`Common` holds the shared values (guests, options, results, `filter` and `findIndex`). `Text`
holds decimal rendering, `padStart` and reading digits back. `Modular` holds facts about
Euclidean division.

**How the outside world is modelled:**
- Randomness is a parameter. Each `Math.floor(Math.random() * n)` becomes a natural number with
  the precondition that it is below `n`.
- Every HTTP request, file read and Sheets call is a `Result`. `Ok` carries what the program
  decodes from the answer. `Err` stands for the exception it catches.
- An undefined JavaScript value is `None`. A missing name reads as the empty string, which is
  falsy in the same way.

**How the code is modelled:**
- State the pages mutate becomes classes with fields:
  - `Slot`, with `modifies` clauses on its methods;
  - `Picker` and `Reel`;
  - `Grid`, whose card highlights are an `array<bool>` with one cell per card.
- Loops become `while`/`for` loops with invariants:
  - the in-place shuffle;
  - the doubling of the reel;
  - the 20 highlight ticks;
  - the timer ticks;
  - the header-skipping row search;
  - the 600-row loop.

  Each is proved against a function that specifies it (`Draws`, `ReelOf`, `OnlyAt`, `UserRow`,
  `MockRows`).

**Integer forms of float expressions:**
- The slow-down test `iterations > maxIterations * 0.7` is modelled as the integer test
  `10 * iterations > 7 * maxIterations`.
- `Math.floor(maxIterations * 0.7)` is modelled as `7 * maxIterations / 10`.
- For every budget the page can draw (30 to 49), both integer forms agree with IEEE double
  arithmetic.

## Model

| member | source | states |
|---|---|---|
| Common.NormaliseAll | server.js:158 | a string entry becomes a guest with that name and no picture; a record passes through unchanged; the length is kept |
| Text.PadStart | scripts/populate-mock-users.js:43 | the result is `max(len, width)` long, ends with the input, and is filled with the pad character before it |
| Text.ValueOfDecimal | scripts/populate-mock-users.js:43 | reading the decimal rendering of `n` back as digits gives `n` |
| Text.ValueOfPadded | scripts/populate-mock-users.js:43 | a number left-padded with zeros is still all digits and still reads back as the number |
| Text.PaddedDecimalInjective | scripts/populate-mock-users.js:43 | two numbers with the same zero-padded rendering are equal |
| SlotReel.Names | public/luckydraw_1.js:173 | the name list has one entry per user, and entry `i` is the name of user `i` |
| SlotReel.SwapRemoveMultiset | public/luckydraw_1.js:188-194 | one step of the shuffle takes out exactly the chosen element from the pool |
| SlotReel.DrawsPermutation | public/luckydraw_1.js:184-197 | whatever the random choices, the shuffle emits a permutation of the names (same multiset) |
| SlotReel.Slot.ShuffleNames | public/luckydraw_1.js:184-197 | the in-place swap loop over the index array emits exactly the swap-remove draw order `Draws(names, picks)`, a permutation of the names |
| SlotReel.Slot.PadReel | public/luckydraw_1.js:217-219 | after the doubling loop the list is empty for no names, otherwise at least `maxReelItems` long, and position `j` holds `shuffled[j mod n]` |
| SlotReel.Slot.BuildReel | public/luckydraw_1.js:215-221 | the reel is the shuffled names repeated and cut to `maxReelItems` minus one when a previous winner is shown |
| SlotReel.ReelItemsAreNames | public/luckydraw_1.js:215-233 | every reel item, the winner included, is one of the names at spin start |
| SlotReel.IndexOfName | public/luckydraw_1.js:242 | -1 exactly when the name is absent; otherwise the first position holding it |
| SlotReel.FindByName | public/luckydraw_1.js:238 | no record exactly when no user has the name; otherwise the record at the first position with that name |
| SlotReel.WinnerRecord | public/luckydraw_1.js:236-239 | the record always carries the winner's name: the first user with that name when there is one, otherwise a bare record without picture |
| SlotReel.RemoveAt | public/luckydraw_1.js:243-246 | an index in range removes exactly the element there and keeps the others in order (putting it back at that index gives the old list); -1 leaves the list as it is |
| SlotReel.RemoveFirstMatch | public/luckydraw_1.js:241-246 | removing the winner takes out exactly its first occurrence, keeps the rest in order, and removes one copy from the multiset |
| SlotReel.RemovalKeepsListsParallel | public/luckydraw_1.js:241-247 | splicing both lists at the same index keeps the name list equal to the names of the records |
| SlotReel.Slot.constructor | public/luckydraw_1.js:114-131 | empty lists, no previous winner, no current winner, an empty reel, the configured reel length and removal flag |
| SlotReel.Slot.SetNames | public/luckydraw_1.js:150-164 | the name list is replaced, the reel emptied, `havePreviousWinner` reset and `onNameListChanged` fired; records and winner kept |
| SlotReel.Slot.SetUsers | public/luckydraw_1.js:171-174 | records replaced and names set to their names in order; `havePreviousWinner`, reel and hooks untouched |
| SlotReel.Slot.SetShouldRemoveWinner | public/luckydraw_1.js:176-178 | only the removal flag changes |
| SlotReel.Slot.Spin | public/luckydraw_1.js:199-273 | an empty list returns false with nothing changed and no hook; a page without a reel fires `onSpinStart` and returns false; otherwise the reel is `ReelOf(Draws(...))` and the reel container ends with only the reel's last item on show, which is the winner; the winner's record, the removal of its first match from both lists, `havePreviousWinner` set and both hooks in order |
| SlotReel.Slot.Settle | public/luckydraw_1.js:233-267 | the end of a spin: the winner record is the first user with the last reel name (or a bare record), both lists lose the winner's first match when removal is on, and only the reel's last item stays on show |
| StepDraw.NamedGuests | public/randomdraw.js:69 | keeps exactly the guests with a non-empty name, in order |
| StepDraw.DelaySchedule | public/randomdraw.js:146-154 | the period is 50 ms until the 70% threshold; past it, the comparison agrees with the floored threshold, the period is at least 70 ms and grows by 20 ms per tick |
| StepDraw.Picker.constructor | public/randomdraw.js:2-5 | no guests, not spinning, cursor 0, no winner |
| StepDraw.Picker.FetchGuests | public/randomdraw.js:65-97 | a decoded list replaces the guests by its named guests; a failure keeps the list |
| StepDraw.Picker.StartSpin | public/randomdraw.js:100-118 | a no-op while spinning or with no guests; otherwise spinning with a budget of `30 + pick` (30..49), zero ticks and a 50 ms period |
| StepDraw.Picker.Tick | public/randomdraw.js:120-152 | the cursor moves one place with wrap-around, `startIndex + iterations` places from where the spin started; the spin stops exactly when the budget is used up, and the winner is then the guest under the cursor |
| StepDraw.Picker.StopSpin | public/randomdraw.js:158-165 | not spinning, so a later start is accepted; the winner is the guest under the cursor |
| StepDraw.Picker.RunToEnd | public/randomdraw.js:139-154 | exactly `maxIterations` ticks run, and the winner is `guests[(start + maxIterations) mod n]` |
| GridDraw.PicturedGuests | public/luckydraw.js:10 | keeps exactly the guests with both a name and a picture URL |
| GridDraw.OnlyAtIsSingle | public/luckydraw.js:67-71 | the state after a tick has exactly one highlighted card, and it is the chosen one |
| GridDraw.Grid.constructor | public/luckydraw.js:2-3 | no guests, no cards, not drawing |
| GridDraw.Grid.FetchGuests | public/luckydraw.js:6-48 | the pictured guests with one unhighlighted card each; a failure leaves no guests and no cards |
| GridDraw.Grid.ClearHighlights | public/luckydraw.js:60 | no card is highlighted |
| GridDraw.Grid.HighlightOnly | public/luckydraw.js:67-71 | exactly card `i` is highlighted |
| GridDraw.Grid.DrawWinner | public/luckydraw.js:51-79 | a no-op while drawing or with no guests; otherwise drawing is set, tick `k` of the 20 shows only card `picks[k]`, and at the end only the winner's card is highlighted and the winner is `guests[finalPick]` |
| GridDraw.Grid.SelectFinalWinner | public/luckydraw.js:81-91 | only the winner's card stays highlighted; the selected guest is `guests[finalPick]` |
| GridDraw.Grid.FinishDraw | public/luckydraw.js:101-109 | the selected guest is announced and drawing is released |
| ReelDraw.Reel.constructor | public/script.js:1-2 | no guests, not spinning |
| ReelDraw.Reel.FetchGuests | public/script.js:37-58 | nothing changes while spinning or on a failure; otherwise the normalised list replaces the guests only when its length differs (script.js:37-58 is the same code) |
| ReelDraw.Reel.Spin | public/script.js:117-132 | no guests: alert and no change; spinning: no change; otherwise spinning towards `guests[pick]`, a listed guest (script.js:117-132 is the same code) |
| ReelDraw.Reel.FinishSpin | public/script.js:155-157 | the pending winner is shown, it is one of the guests, and spinning is released |
| ReelDraw.SpinSurvivesPolling | public/script.js:8 | any number of refreshes started during a spin leave the list and the winner alone, so the spin ends on `guests[pick]` |
| Countdown.Split | public/script.js:257-260 | hours below 24, minutes and seconds below 60 |
| Countdown.SplitIsExact | public/script.js:257-260 | the four parts add up to the distance, less the milliseconds below one second |
| Countdown.TwoDigits | public/script.js:264-267 | all digits, at least two characters, exactly two for values below 100 |
| Countdown.Render | public/script.js:247-255 | a passed date shows "00" in all four fields |
| Countdown.RenderReadsBack | public/script.js:257-267 | each field reads back as its part; hours, minutes and seconds are two characters, days at least two |
| SheetRows.RowToGuest | functions/api/guests.js:18-20 | the name is column A when filled; the picture is column B when filled, otherwise none |
| SheetRows.DecodeGuests | functions/api/guests.js:8-21 | no values or no rows give no guests; never more guests than rows; every guest has a name other than "Name" |
| SheetRows.DecodeGuestsComplete | functions/api/guests.js:18-21 | a guest is listed exactly when some row maps to it and its name is neither empty nor "Name" |
| SheetRows.HeaderIsDropped | functions/api/guests.js:21 | a header row in front of the data (or alone) changes nothing |
| SheetRows.GuestsEndpoint | functions/api/guests.js:3-32 | status 500 with the error exactly when the read throws; otherwise the decoded list (a read answered with an error body has no values and gives the empty list) |
| SheetRows.UserCount | functions/api/user-count.js:57 | no values, no rows or only the header give 0; `n` rows give `n - 1` |
| SheetRows.CountCoversListedGuests | functions/api/user-count.js:55-57 | with a header row, the count is never below the number of guests the list shows |
| SheetRows.CountEndpoint | functions/api/user-count.js:47-68 | status 500 with the error exactly when the read throws; otherwise the count (a read answered with an error body has no values and gives 0) |
| Server.LocalGuests | server.js:152-162 | the stored entries normalised; a missing or unreadable file gives no guests |
| Server.LocalGuestsOfRecords | server.js:158 | records written as records read back unchanged |
| Server.GuestsRoute | server.js:117-149 | the local guests when not configured or when the read fails; otherwise the rows decoded as the guests endpoint does |
| Server.SaveLocal | server.js:217-228 | appends the guest and answers true exactly when no stored guest has that LINE id; otherwise writes nothing |
| Server.SaveLocalOnce | server.js:220-227 | after a save, saving the same LINE id again writes nothing and answers false |
| Server.SaveToSheet | server.js:230-277 | with the sheet present or created and the rows read: false with no data row when some row's column C is the id; otherwise the guest row `[name, picture, id]` is appended after the header rows of a created sheet and the answer is true, or undefined when that append throws; a failing metadata read, sheet creation, header append or row read gives undefined; true only after a read showing no row with the id |
| Server.SaveToSheetOnce | server.js:257-263 | once the guest's row is in the sheet, saving again appends nothing and answers false |
| Server.SaveGuest | server.js:215-278 | not configured: the local save, never undefined; configured: the sheet save |
| Server.Callback | server.js:176-213 | 400 exactly without a code; "success" exactly when the save answered true; an exception gives "error"; any other answer "already_registered" |
| Server.SheetFailureReadsAsRegistered | server.js:275-277 | a sheet failure caught inside the save is reported as "already_registered" |
| WinnerApi.IdIndex | functions/api/winner.js:26-31 | -1 exactly when no row's first cell is the id; otherwise the first such row |
| WinnerApi.PrizeCellNamesRow | functions/api/winner.js:41-44 | the prize range is "Users!E" followed by the digits of the sheet row, which read back as the row |
| WinnerApi.PrizeCellInjective | functions/api/winner.js:44 | distinct rows get distinct prize ranges |
| WinnerApi.MarkWinner | functions/api/winner.js:3-72 | 405 for a method other than POST, 400 without a LINE id, 404 exactly when no row holds the id; for the first row `i` holding it, the cell of sheet row `i + 1` is written and the reply is success with that row exactly when the update is ok, 500 otherwise; an unparsable body or a thrown column read is 500 with nothing written |
| DeleteUser.UserRow | scripts/delete-user.js:50-59 | -1, or a sheet row between 2 and the row count |
| DeleteUser.FindUserRow | scripts/delete-user.js:50-59 | the loop from index 1 finds the first data row whose column C is the id, returns it 1-based with its column A, and -1 exactly when no data row has the id |
| DeleteUser.DeleteUser | scripts/delete-user.js:6-101 | no sheet id, a thrown metadata read or no "Users" sheet is an error; no rows or only the header delete nothing; "not found" only after the "Users" sheet was found and no data row holds the id, with no request; a matched row sends the delete request for exactly `[row - 1, row)` of the first "Users" sheet, and reports the deleted user's name when the batch update succeeds, its error otherwise; a request is sent only for the first matching data row |
| LineCallback.Flatten | functions/auth/line/callback.js:103 | every cell of every row is among the ids, and every id comes from some row |
| LineCallback.Callback | functions/auth/line/callback.js:63-120 | 400 exactly without a code; a row `[displayName, picture, id, timestamp]` is appended exactly for a logged-in user whose id is not listed, with "success" when the append was answered and "error" when it threw; "already_registered" exactly for a listed id; otherwise "error" |
| LineCallback.RejectedAppendReportsSuccess | functions/auth/line/callback.js:34-48 | an append answered with a non-ok status still redirects with "success" |
| LineCallback.CheckedCallback | functions/auth/line/callback.js:105-115 | the callback with the append status checked: the same rows appended, a rejected append gives "error", and a new user whose append is accepted gets the row and "success" |
| LineCallback.CheckedSuccessMeansStored | functions/auth/line/callback.js:105-115 | with the status checked, "success" holds exactly when the row was appended and accepted; a listed id is never appended |
| LineCallback.RegisteredOnce | functions/auth/line/callback.js:101-114 | once the id is in column C and the read returns the column's values, a later login appends nothing and answers "already_registered" |
| MockUsers.GenerateThaiName | scripts/populate-mock-users.js:27-31 | the chosen first name, one space, then the chosen last name |
| MockUsers.ThaiNameIsListed | scripts/populate-mock-users.js:27-31 | a generated name is shown as a guest: it is not empty and is not "Name" |
| MockUsers.UrlSuffix | scripts/populate-mock-users.js:36-38 | the text after the index starts with '&', which is not a digit, and carries the colour `colors[index mod 8]` as background |
| MockUsers.GenerateProfileUrl | scripts/populate-mock-users.js:34-39 | the avatar URL of `User+index`: the fixed prefix, then digits that read back as the index, then the colour suffix of the index |
| MockUsers.ProfileUrlInjective | scripts/populate-mock-users.js:34-39 | distinct indexes get distinct avatar URLs |
| MockUsers.GenerateLineId | scripts/populate-mock-users.js:42-44 | "U" then digits that read back as the index; 33 characters when the index has at most 32 digits |
| MockUsers.LineIdInjective | scripts/populate-mock-users.js:43 | distinct indexes get distinct LINE ids |
| MockUsers.MockRows | scripts/populate-mock-users.js:65-75 | the rows for indexes 1 to `n`, one per index |
| MockUsers.MockRowAt | scripts/populate-mock-users.js:68-75 | row `k` is the user with index `k + 1`, the `k`-th name choice and the shared timestamp |
| MockUsers.BuildUsers | scripts/populate-mock-users.js:65-75 | exactly 600 rows, row `k` being `[name, avatar URL, LINE id]` of index `k + 1` with the shared timestamp |
| MockUsers.MockIdsDistinct | scripts/populate-mock-users.js:68-72 | the 600 mock LINE ids are 33 characters each and pairwise distinct |
| MockUsers.MockUsersAreListed | scripts/populate-mock-users.js:79-95 | under the kept header row, the guest list is exactly the 600 mock rows decoded in order, and the count endpoint reports 600 |

## Left out

- Web Audio sound, confetti, CSS transitions, `scrollIntoView`, alerts, the float pixel maths of the reel strip, and the other DOM updates are left out. They do not affect which guest wins.
- The timers themselves are left out. Each timer callback is a method, and a spin is the sequence of those calls. The `Slot` animation and hook awaits are taken as one step.
- Randomness is a parameter with a range precondition. Whether `Math.random` is uniform or fair is not modelled.
- Sheets, Drive and LINE HTTP calls, file reads and writes, and `process.exit` are not modelled. Each answer is a `Result` parameter.
- OAuth token exchange and the service-account JWT grant (`getAccessToken`) are not modelled. They are foreign cryptographic and HTTP calls.
- Date parsing and the Thai `toLocaleString` timestamp are not modelled. The countdown takes `distance` as an integer, and timestamps are opaque strings.
- The click and keyboard handlers that start a draw or reload users (public/luckydraw_1.js:466-524, public/script.js:16-21) are not modelled. Nor is the UI button disabling that keeps a second `Slot` spin from starting.
- SlotReel.Slot.constructor requires `maxReelItems >= 1`. For a smaller value, JavaScript's `slice` with a negative end is not modelled.
- SlotReel.WinnerRecord: when the reel is empty, the winner name is undefined. The model then gives the bare record with an empty name. It does not search for a user whose name is itself undefined.
- StepDraw.Picker.FetchGuests requires that no spin is running. The page fetches once, at load, before the first spin can start.
- GridDraw.Grid.FetchGuests requires an empty list. The page fetches once, at load. After a failed fetch, the message replaces the grid and there are no cards.
- ReelDraw.Reel.FetchGuests applies the refresh atomically. The asynchronous gap between the `isSpinning` test and the assignment, during which a spin could start, is not modelled.
- ReelDraw.Reel.Spin assumes that the page's HTML contains the `.reel-strip` element. The only code that builds it, `initializeReels` (public/script.js:60-81), is never called, because its call at public/script.js:52 is commented out. Without the element, `spin` throws at public/script.js:148 after setting `isSpinning` at :125, and the page then stays busy: every later `fetchGuests` returns at :38. That path is not modelled.
- ReelDraw.SpinSurvivesPolling covers refreshes started during a spin. A fetch that passed the test at public/script.js:38 before the spin began can still replace `guests` at :50 while the spin runs; that interleaving is not modelled.
- SheetRows.GuestsEndpoint, SheetRows.CountEndpoint and LineCallback.RegisteredOnce: the hosted `getSheetValues` (functions/utils/google.js:50-60, functions/auth/line/callback.js:50-60) does not check `response.ok`. A read the Sheets API rejects is modelled as an answered read without values (`Ok(None)`), not as `Err`. The guests endpoint then answers 200 with no guests, the count answers 0, and the LINE callback treats every id as new and appends a duplicate row. The contracts cover this input, but no corrected version of the read is modelled.
- The draw button reloads the users before every draw (public/luckydraw_1.js:474-478) and calls `setUsers` with the fresh list. When the API answers, this undoes earlier winner removals. `setUsers` also keeps the caller's `usersData` array itself, which `splice` then changes. The page wiring is outside the model, and `SlotReel.Slot.SetUsers` copies the list as a value, so this aliasing is not captured.
- Sheet cells are strings. An undefined cell written to the sheet is written as the empty string.
- The clear and update requests of `populateMockUsers` (scripts/populate-mock-users.js:80-95) are not modelled. The 600 rows are assumed to be written under the kept header row.
- MockUsers.GenerateThaiName does not state that the two parts can be recovered from the name by splitting at the space. That would need the fact that no listed name contains a space, checked over 120 literal strings.
- Uploads, the QR route, the envelope endpoint, the rich-menu scripts and the storage tests are not part of this model.

## Findings

| source | as written | input that shows it | evidently intended | confidence | as-written member | corrected member |
|---|---|---|---|---|---|---|
| functions/auth/line/callback.js:34-48 | `appendToSheet` returns the JSON body without checking `response.ok`, and the callback then reports `status=success` | an append answered with an error status and a JSON error body (for example a rejected token or a missing sheet) for a new user | a rejected append should end in the error redirect, as a thrown error does | not executed | LineCallback.RejectedAppendReportsSuccess | LineCallback.CheckedSuccessMeansStored |
