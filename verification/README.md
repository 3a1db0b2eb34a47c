# Nurse duty roster — a Dafny model

This project models the browser-side and proxy-side logic of a nurse duty-roster web front end.

- The user picks a date range and lists nurses. Each nurse has a name, a position code and preferred days off, stored as offsets from the range's first day.
- The user submits the list. A Next.js route forwards it to a remote scheduling service.
- The page shows the returned per-day shift table in blocks of seven days. It can export the table as CSV (with a byte-order mark) or as a spreadsheet.

The remote scheduling algorithm is not part of this model.

Modules, one per source file (plus three for the JavaScript built-ins they rely on):

| module | file | source |
|---|---|---|
| `Types` | types.dfy | types/index.ts |
| `Utils` | utils.dfy | lib/utils.ts |
| `ScheduleTable` | schedule_table.dfy | components/schedule-table.tsx |
| `ScheduleRoute` | schedule_route.dfy | app/api/schedule/route.ts |
| `RosterPage` | roster_page.dfy | app/page.tsx |
| `Text` | text.dfy | `trim`, `includes`, `join`, `split`, `String(n)` |
| `JsValues` | js_values.dfy | JSON values, truthiness, `v.message`, `String(v)` |
| `Wrappers` | wrappers.dfy | optional values (`undefined`, `null`) |

How the model represents the source:

- **Dates.** A calendar day is an integer day number. `addDays(d, 1)` is `d + 1` and `differenceInDays(a, b)` is `a - b`.
- **Date formats.** The local calendar (which year, month and day a day number falls on) is the function parameter `calendar`, yielding a `CivilDate`.
  - The two date-fns patterns, `yyyy-MM-dd` and `MM월 dd일`, are written out over it (`Utils.IsoText`, `Utils.MonthDayText`), with date-fns zero-padding (`Utils.Padded`).
  - Where a property depends on the calendar, a requires clause states that it yields months 1 to 12 and days 1 to 31 (`Utils.IsCalendar`) and never puts two day numbers on the same day (`Utils.OneToOne`).
  - The schedule table takes the two renderings as function parameters `iso` and `display`; the page's own are `Utils.IsoRendering` and `Utils.DisplayRendering`. Lemmas show that they meet what the table's properties require: yyyy-MM-dd tells days apart (`Utils.Injective`), and a day label holds no comma or newline.
- **Per-day mapping.** The per-day mapping `{ [nurseName]: shift }` is an ordered sequence of `Assignment`s, so that `Object.keys` order (the row order) is kept.
- **Proxy inputs.** The proxy sees two things from outside:
  - the upstream exchange, as an `Upstream` value: a transport error, or a status, a status text and the body text (none when reading it failed);
  - `JSON.parse`, as a function parameter that yields `None` for text that is not JSON.
- **Page inputs.** The page receives two things from outside:
  - the reply from `/api/schedule`, as a `ClientReply` value;
  - `crypto.randomUUID()`, as an id argument that is fresh among the listed nurses.
- **Imperative code.** The page's state is a class, `RosterPage.RosterForm`, with one field per `useState`. Its handlers are methods.
- **Loops.** The `forEach`/`push` loops of the exports and the `i += 7` loop of the on-screen table are `for`/`while` loops. Each is proved equal to a grid function (`ExportGrid`, `ScreenTable`) whose properties are proved separately.

Behaviour of the code worth knowing:

- **Upstream error message.** For a failed upstream status, the reply's `message` is not always the message mapped from the status. The code returns the body's `message` when it is truthy and the mapped message only otherwise (app/api/schedule/route.ts:119).
  - A blank or unreadable error body becomes `{message: "HTTP <status>: <statusText>"}`, whose message is truthy. So a 404 with an empty body shows "HTTP 404: ..." and never "API 엔드포인트를 찾을 수 없습니다." (`ScheduleRoute.BlankErrorBodyShowsHttpLine`).
  - The mapped message shows only when the body is JSON without a truthy `message`.
- **5xx statuses.** Only 500, 502, 503 and 504 have fixed messages. Every other 5xx status gets the generic `서버 오류 (<status>): <statusText>` line.
- **`null` error body.** An upstream error body that is the JSON text `null` makes `errorData.message` throw. The outer `catch` then replies with status 500, not the upstream status.
- **Upstream 304.** A failed upstream status is passed to `NextResponse.json` as the reply's status (app/api/schedule/route.ts:117-126). For 304, a null body status, building a reply with a JSON body throws a TypeError, so the outer `catch` replies with 500 (`ScheduleRoute.ReplyInitError`, `ScheduleRoute.Post`).
- **Falsy ok body.** The proxy relays any JSON with status 200, including `null`, `false`, `0` and `""`. The page stores such a value with `setScheduleResult` (app/page.tsx:84-85), and the result card is shown only for a truthy result (app/page.tsx:144). The page then ends with neither a schedule nor an error (`RosterPage.ClientOutcome`, `RosterPage.RosterForm.HandleGenerateSchedule`).

## Model

| member | source | states |
|---|---|---|
| Types.ShiftFromWire | types/index.ts:17 | exactly the four strings "day", "evening", "night" and "off" are shift values, and each reads back to its own wire name |
| Types.WireNameRoundTrip | types/index.ts:17 | every shift value's wire string reads back as that value |
| Types.Abbreviation | types/index.ts:34-39 | SHIFT_DISPLAY_MAP is total over the four shifts; it maps them into {D, E, N, OFF}, contains no comma or newline, and each abbreviation reads back as its shift |
| Types.AbbreviationInjective | types/index.ts:34-39 | two shifts with the same abbreviation are equal |
| Types.PositionCodes | types/index.ts:27-32 | POSITION_OPTIONS has four entries, the code of entry i is i, codes are pairwise distinct, and the set of codes is {0,1,2,3} |
| Types.Names | app/page.tsx:106 | `Object.keys` of a day's mapping: one name per entry, in entry order |
| Utils.Padded | lib/utils.ts:11 | a numeric date field is at least as wide as its pattern |
| Utils.PaddedDigits | lib/utils.ts:11 | a numeric date field is all digits and reads back as its number, leading zeros included |
| Utils.PaddedInjective | lib/utils.ts:11 | two fields of the same width are equal exactly when their numbers are |
| Utils.PaddedFits | lib/utils.ts:11 | a number below 10 to the width takes exactly the width |
| Utils.IsoTextInjective | lib/utils.ts:11 | two plausible days have the same yyyy-MM-dd text exactly when they are the same day, whatever the number of year digits; the text is at least 10 characters |
| Utils.MonthDayTextInjective | lib/utils.ts:15 | two plausible days have the same "MM월 dd일" label exactly when they agree in month and day (the year is dropped); the label is 7 characters |
| Utils.IsoRenderingInjective | components/schedule-table.tsx:69 | with a one-to-one calendar, different day numbers get different yyyy-MM-dd texts, as the table's lookups by date string need |
| Utils.FormatDate | lib/utils.ts:10-12 | the result is "" exactly when the day is absent, and otherwise is the day's yyyy-MM-dd text, at least 10 characters |
| Utils.FormatDisplayDate | lib/utils.ts:14-16 | the result is "" exactly when the day is absent, and otherwise is the day's "MM월 dd일" label, 7 characters or more |
| Utils.FindOption | lib/utils.ts:19 | `find`: no result exactly when no option has the code; a result is the FIRST option of the list with that code (no earlier option has it) |
| Utils.PositionLabel | lib/utils.ts:18-21 | codes 0..3 give their POSITION_OPTIONS label; every other code gives "알 수 없음" |
| Utils.Offsets | lib/utils.ts:25 | one offset per selected day, in selection order, each being the day minus the start day |
| Utils.Insert | lib/utils.ts:25 | inserting into an ascending list keeps it ascending and adds exactly that element |
| Utils.SortAscending | lib/utils.ts:25 | `sort((a, b) => a - b)` yields an ascending permutation of its input |
| Utils.CalculateOffDays | lib/utils.ts:23-26 | empty when the selection or the start day is absent; otherwise it has the same length, is ascending, and is a permutation of the day-minus-start offsets |
| Utils.DaysInRange | lib/utils.ts:28-36 | has length end-start+1 when start <= end and 0 otherwise; element i is start+i |
| Utils.GetDatesInRange | lib/utils.ts:28-36 | the while loop produces exactly the days of the inclusive range |
| Utils.RangeEnds | lib/utils.ts:30-34 | a non-empty range starts at the start day, ends at the end day, and neighbours are one day apart |
| Utils.RangeDistinct | lib/utils.ts:28-36 | the days of a range are pairwise different |
| ScheduleTable.FirstDayIndex | components/schedule-table.tsx:70 | `scheduleData.find` by date: the found item carries the date and no earlier item does; none only when no item does |
| ScheduleTable.FirstNameIndex | components/schedule-table.tsx:71 | `nurses[nurseName]`: the found entry has the name and no earlier entry does |
| ScheduleTable.Lookup | components/schedule-table.tsx:70-71 | `scheduleData.find(...)?.nurses[nurseName]`: no shift exactly when no item has the date or the first such item has no entry for the name; a found shift is that name's entry in the first item with the date |
| ScheduleTable.CsvCell | components/schedule-table.tsx:69-72 | an export cell is "" exactly when the lookup finds no shift, and otherwise is an abbreviation that reads back as the found shift |
| ScheduleTable.ScreenCell | components/schedule-table.tsx:181-189 | an on-screen cell is "-" exactly when the lookup finds no shift, and otherwise equals the export cell |
| ScheduleTable.AlignedLookup | components/schedule-table.tsx:68-72 | when the response lists the range's distinct days in order and the yyyy-MM-dd rendering tells days apart, day c's cell is read from response item c |
| ScheduleTable.FillNurseRow | components/schedule-table.tsx:67-73 | the push loop builds the row: the nurse name, then one lookup cell per day, and so equals the grid row |
| ScheduleTable.CsvRoundTrip | components/schedule-table.tsx:79-83 | the BOM-prefixed text splits back into the grid when no cell contains a comma or newline |
| ScheduleTable.MonthDayTextCsvSafe | components/schedule-table.tsx:60 | a "MM월 dd일" day label never holds a comma or a newline |
| ScheduleTable.ExportGridSafe | components/schedule-table.tsx:61-75 | every export cell is comma- and newline-free when the nurse names and day labels are |
| ScheduleTable.ExportRoundTrip | components/schedule-table.tsx:61-83 | the CSV export reads back as the header "간호사" plus the day labels, followed by one row per nurse name in the given order |
| ScheduleTable.CalendarExportRoundTrip | components/schedule-table.tsx:58-96 | with the page's own date renderings, the CSV export reads back as its grid whenever no nurse name holds a comma or a newline |
| ScheduleTable.CsvContent | components/schedule-table.tsx:61-83 | the header line and nurse loop produce exactly BOM + the grid's lines joined by "\n" |
| ScheduleTable.BuildTableData | components/schedule-table.tsx:116-133 | the spreadsheet rows are the CSV grid, row for row and cell for cell: a header row, then one row per nurse starting with the name |
| ScheduleTable.ColWidths | components/schedule-table.tsx:139 | 1 + number of days widths; the first is 15 and all others are 10 |
| ScheduleTable.ExportFileName | components/schedule-table.tsx:94 | the file name starts with "간호사_근무표_", holds the yyyy-MM-dd texts of both range ends, and ends with "." + the extension |
| ScheduleTable.SaveAsCsv | components/schedule-table.tsx:56-101 | returns nothing exactly when the data is empty; otherwise returns a `간호사_근무표_<start>_<end>.csv` file of type text/csv holding the BOM-prefixed CSV of the grid |
| ScheduleTable.SaveAsExcel | components/schedule-table.tsx:108-154 | returns nothing exactly when the data is empty; otherwise returns a workbook (sheet "근무표", the grid, the column widths, an .xlsx file name), or the CSV download when the library fails |
| ScheduleTable.RenderTableChunks | components/schedule-table.tsx:157-200 | the chunks laid end to end are exactly the days; each chunk has 1..7 days and all but the last have 7; each block is the screen table of its chunk |
| ScheduleTable.ScreenMatchesExport | components/schedule-table.tsx:180-189 | the on-screen cell is the export cell, with "-" in place of "" |
| JsValues.MessageOf | app/api/schedule/route.ts:119 | `v.message` is defined exactly for an object that has the field, and then is that field |
| JsValues.Or | app/api/schedule/route.ts:119 | the logical-or of an optional a and b is a when a is present and truthy, and b otherwise; it is truthy exactly when a truthy a is present or b is truthy |
| JsValues.ToJsString | app/page.tsx:80-81 | `String(v)`: a string is itself, null is "null", a number is its decimal text; a truthy value other than an array never prints as "", and the empty array is truthy yet prints as "" |
| JsValues.FalsyJson | app/page.tsx:144 | each of null, false, 0 and "" is falsy |
| JsValues.FalsyJsonExactly | app/page.tsx:144 | a JSON value is falsy exactly when it is one of null, false, 0 and "" |
| ScheduleRoute.TransportMessage | app/api/schedule/route.ts:35-43 | in priority order: AbortError gives the timeout message; a TypeError mentioning "fetch" gives the connection message; "certificate" or "SSL" gives the TLS message; otherwise "네트워크 오류: " + the message |
| ScheduleRoute.TransportMessageIdentifiesKind | app/api/schedule/route.ts:35-43 | the four transport messages are told apart: the message determines which branch was taken |
| ScheduleRoute.StatusMessage | app/api/schedule/route.ts:84-115 | never empty; an unmapped status gives `서버 오류 (<status>): <statusText>` |
| ScheduleRoute.StatusMessageInjective | app/api/schedule/route.ts:84-115 | for one status text, different statuses get different messages |
| ScheduleRoute.DefaultMessageShape | app/api/schedule/route.ts:114 | every default message starts with "서버 오" |
| ScheduleRoute.MappedMessageShape | app/api/schedule/route.ts:86-112 | none of the nine fixed messages starts with "서버 오" |
| ScheduleRoute.DefaultMessageInjective | app/api/schedule/route.ts:114 | two default messages with the same status text are equal only for the same status |
| ScheduleRoute.DecimalInjective | app/api/schedule/route.ts:114 | different statuses are printed differently |
| ScheduleRoute.ErrorData | app/api/schedule/route.ts:58-81 | an unreadable or blank error body becomes {message: "HTTP s: t"}; non-JSON text becomes {message: text}; parsed JSON is used as it is |
| ScheduleRoute.Caught | app/api/schedule/route.ts:155-168 | the outer catch replies with 500 and the error's name; the message is the error's message when that is non-empty and the fixed fallback "서버에서 알 수 없는 오류가 발생했습니다." when it is empty |
| ScheduleRoute.Post | app/api/schedule/route.ts:5-169 | per path: a request-parse failure or a transport failure gives a 500 with its message; an upstream error gives the upstream status with message = the body's truthy message, else the status message, plus details and raw text (a null body gives a 500 TypeError; a status `NextResponse.json` refuses, such as 304, gives the 500 reply of that error); a blank, unreadable or non-JSON success body gives a 500 parse failure; otherwise the JSON is relayed with 200. The status is 2xx exactly when the body is relayed, and every reply status is one a reply can carry |
| ScheduleRoute.ReplyInitError | app/api/schedule/route.ts:117-126 | building a reply throws exactly for a status outside 200..599 (a RangeError) or a null body status 101, 103, 204, 205 or 304 (a TypeError), with a non-empty message |
| ScheduleRoute.UpstreamMessageChoice | app/api/schedule/route.ts:117-119 | for a non-blank error body, the message is the parsed object's truthy `message` if there is one, else the status message |
| ScheduleRoute.BlankErrorBodyShowsHttpLine | app/api/schedule/route.ts:75-81 | with a blank or unreadable error body the reply message is "HTTP s: t", never the mapped status message |
| RosterPage.RemoveById | app/page.tsx:52 | keeps exactly the nurses whose id differs; the list is unchanged when no nurse has the id; a one-nurse list is emptied or kept whole |
| RosterPage.RemoveByIdAppend | app/page.tsx:52 | filtering a concatenation is concatenating the filtered parts, so the kept nurses stay in their order |
| RosterPage.RemoveByIdSnoc | app/page.tsx:52 | filtering a list with one more nurse at the end adds that nurse at the end exactly when its id differs |
| RosterPage.RemoveAddedNurse | app/page.tsx:42-52 | removing the id of the nurse just appended gives back the previous list |
| RosterPage.RemoveKeepsDistinct | app/page.tsx:52 | removal keeps ids pairwise distinct |
| RosterPage.AppendFreshId | app/page.tsx:42-45 | appending a nurse with a fresh id keeps ids pairwise distinct |
| RosterPage.Entries | app/page.tsx:66 | one entry per nurse, in order, carrying exactly name, position and off |
| RosterPage.EntriesKeepEverythingButIds | types/index.ts:8-12 | stripping ids loses nothing else: each nurse is its id plus its entry |
| RosterPage.CaughtMessage | app/page.tsx:87 | the error text is the caught message when that message is non-empty and "근무표 생성 중 오류가 발생했습니다." when it is empty |
| RosterPage.ClientOutcome | app/page.tsx:69-91 | a schedule is shown exactly for an ok reply whose parsed body is a schedule; the result is cleared with no error exactly for an ok reply whose parsed body is falsy; every failure has a non-empty text; a rejected fetch shows its message; an unparsable error reply shows "응답을 파싱할 수 없습니다." |
| RosterPage.ProxyMessageReachesForm | app/page.tsx:78-81 | the proxy's failure message arrives as the form's error text (as text, with the empty-text fallback only for an empty array) |
| RosterPage.RosterForm.constructor | app/page.tsx:24-32 | the initial state: no range, empty name, no position, no off-days, no nurses, no result, not loading, no error |
| RosterPage.RosterForm.SetNurseName | app/page.tsx:241 | sets the name and changes nothing else |
| RosterPage.RosterForm.SelectPosition | app/page.tsx:251-254 | sets the position to the chosen POSITION_OPTIONS code and changes nothing else |
| RosterPage.RosterForm.SelectOffDays | app/page.tsx:306 | sets the selected off-days and changes nothing else |
| RosterPage.RosterForm.IsAddNurseDisabled | app/page.tsx:99 | enabled only with a non-blank name, a position and a range start; disabled only when one of these is missing |
| RosterPage.RosterForm.IsSubmitDisabled | app/page.tsx:375 | disabled while loading; otherwise disabled exactly when the range has no start or no end or no nurse is listed |
| RosterPage.RosterForm.HandleAddNurse | app/page.tsx:37-49 | a no-op when the add button is disabled; otherwise appends exactly one nurse at the end (fresh id, trimmed name, position, sorted offsets from the range start), leaves earlier nurses unchanged, and clears name, position and off-days; the ids stay distinct |
| RosterPage.RosterForm.HandleRemoveNurse | app/page.tsx:51-53 | the list becomes the filter by id: the same nurses minus those with that id, in order (`RemoveByIdAppend`); nothing else changes |
| RosterPage.RosterForm.HandleGenerateSchedule | app/page.tsx:55-92 | sends nothing exactly when submit is disabled, and then sets the validation message; otherwise sends the formatted range and the id-less entries and ends not loading; a falsy ok body leaves neither schedule nor error, and every other reply leaves either the schedule with no error or an error with no schedule |
| RosterPage.RosterForm.HandleRedo | app/page.tsx:94-97 | clears both result and error and keeps the form |
| RosterPage.RosterForm.HandleDateRangeSelect | app/page.tsx:123-139 | a click on a complete range restarts it at the clicked day with no end; otherwise the picker's range is taken |
| RosterPage.RosterForm.ClickRangeDay | app/page.tsx:100 | while nurses are listed the range picker is disabled (app/page.tsx:188-220) and the range does not change |
| RosterPage.RosterForm.NurseNamesForTable | app/page.tsx:102-109 | no names for a missing or empty result; else the first day's names in order when there are any; else the listed nurses' names |
| Text.Trim | app/page.tsx:38 | `trim()` is empty exactly for blank text and otherwise starts and ends with a non-blank character |
| Text.TrimStripsOnlyEnds | app/page.tsx:38 | `trim()` removes a blank prefix and a blank suffix and nothing else: the result is a slice of the text with only blanks before and after it |
| Text.TrimIsInfix | app/page.tsx:44 | the trimmed name is a part of the typed name |
| Text.SplitJoin | components/schedule-table.tsx:74-79 | splitting joined pieces gives them back when no piece contains the separator |

## Left out

- The health-check route and the layout are not part of this model. JSX rendering, animation variants, popover open flags and `cn` are rendering-only and are also left out.
- The empty-data card (components/schedule-table.tsx:25-40) is markup. Its guard appears in the model as the `|data| == 0` cases of `SaveAsCsv` and `SaveAsExcel`.
- Left out as foreign libraries or browser side effects:
  - the `html2canvas` image export and its `.png` file name;
  - `Blob`, object URLs, anchor clicks, `alert` and console logging;
  - the `xlsx` calls. What the spreadsheet library does is reduced to a boolean `libraryWorks`.
- `fetch`, `AbortController`, the 30-second timeout and `await` are left out.
  - The upstream exchange and the browser's reply are values.
  - Forwarding the request body (`JSON.stringify(body)`), the request headers and the service URL are not modelled.
- The outer catch's `timestamp` field is omitted from `ProxyFailure`.
- `date-fns` and time of day are left out.
  - Days are integers, and the calendar that maps them to a year, month and day is a parameter.
  - Years are natural numbers: date-fns' rendering of years before 1 CE is not modelled.
  - `AlignedLookup` assumes that the yyyy-MM-dd rendering tells days apart; `IsoRenderingInjective` derives this from a one-to-one calendar.
- `crypto.randomUUID`: `HandleAddNurse` requires the id it is given to be fresh among the listed nurses.
- JSON numbers are integers; fractional numbers are not modelled.
- ClientOutcome: an ok reply's parsed body is either a `ScheduleResponse`, as the source's type annotation says, or one of the falsy JSON values. A truthy body of another shape (an object, a number, a non-empty string) is not modelled; the source does not check it either.
- ProxyMessageReachesForm: assumes that `NextResponse.json` followed by `response.json()` gives back the body object (`BodyJson`).
- Per-day mappings:
  - A mapping is taken as already parsed: distinct names in `Object.keys` order.
  - Duplicate JSON keys are not modelled.
  - Nor is the engine placing integer-like keys first.
  - Nor are names that hit `Object.prototype` properties, such as "constructor".
- Duplicate nurse names are not guarded against, as in the source. Their rows read the same response entry.
