# WCAC time cards: a Dafny model of the front end's time-card logic

This project models the logic of the employee time-card front end and proves properties of that model. The logic covered is:

- the two-week pay period: snapping a reference date to its Monday, then the ten weekdays that follow;
- worked time, from four optional `HH:MM` fields, under both live component variants;
- reconciling the fetched records with the period's rows;
- editing, saving and submitting rows;
- the small formatters of the calendar, the local card and the report pages.

Dates are integer day numbers counted from 1970-01-01, a Thursday, so the day of the week is `(d + 4) % 7` with 0 for Sunday. Times of day are integer minutes since midnight. Everything the components fetch, post or store is a parameter. Each answer from the server is an input: the fetched list, the answer to each creation, and the success of each PUT.

Modules:

- `Options`, `Text`, `Calendar`, `Clock` and `TimeEntries` are shared vocabulary:
  - `Options` and `Text`: option values, digits, `split`, `join` and `trim`;
  - `Calendar`: the pay period;
  - `Clock`: `HH:MM` times;
  - `TimeEntries`: the entry record, the `{h}h {m}m` label and the save requests.
- `ActiveTimeCard` is `src/components/pages/ActiveTimeCard/ActiveTimeCard.js`, lines 1–325. It holds the class `TimeCard` with the card's entries and submit flag.
- `PresentTimeCard` is `src/components/pages/presentTimeCard/ActiveTimeCard.js`. It holds the class `TimeCard` with the card, the loading flag and the "submitted" button flag.
- `TimeAndDateUtils`, `TimeCardsIndex`, `CurrentTimeCard` and `ReportPage` are the files of those names. Their code is pure, so they are functions and lemmas. `ReportPage.HandleSaveCsv` is the exception: it assigns `headers` and `dataRows` per branch, as the source does.
- `TimeCardReports` is `reports/TimeCardReports.js`. It holds the class `ReportForm` with the form's state fields.

Two places where the code does not do what its own comments and structure intend. The model's components do what the code does, and the intended rule is defined and proved beside it (see "Findings"):

- Variant 1 asks the server for a range that starts at the reference date, not at the Monday the rows start from.
- Variant 2 compares its failure count with the number of rows, not with the number of rows it sent.

Variant 1 also reads `total_time.hours` of a matched record without a null check. The resulting TypeError lands in the catch block, which shows the blank rows; the model does the same (`ActiveTimeCard.MergeEntry` gives `None` and the fetch falls back to the skeleton).

## Model

| member | source | states |
|---|---|---|
| Calendar.PreviousMonday | src/components/pages/ActiveTimeCard/ActiveTimeCard.js:18-22 | the result is a Monday; a Sunday goes to the next day, a Monday stays, and any other day goes back at most five days to its week's Monday |
| Calendar.IsWeekday | src/components/pages/ActiveTimeCard/ActiveTimeCard.js:155-158 | a weekday is a day numbered Monday (1) to Friday (5) |
| Calendar.PeriodEnd | src/components/pages/ActiveTimeCard/ActiveTimeCard.js:24-26 | the end lies after the start, and the period from a Monday ends on a Sunday |
| Calendar.WeekdaysIn | src/components/pages/ActiveTimeCard/ActiveTimeCard.js:98-116 | the loop collects at most one date per day of the window |
| Calendar.PreviousMondayUnique | src/components/pages/presentTimeCard/ActiveTimeCard.js:32-43 | the Monday is the only one whose Sunday-start week, or the Sunday before it, holds the date |
| Calendar.WeekdaysInMembers | src/components/pages/ActiveTimeCard/ActiveTimeCard.js:101-114 | the loop collects exactly the weekdays of the window |
| Calendar.WeekdaysInAscending | src/components/pages/ActiveTimeCard/ActiveTimeCard.js:101-114 | the collected dates lie in the window and strictly ascend |
| Calendar.MondayPeriod | src/components/pages/ActiveTimeCard/ActiveTimeCard.js:24-26 | the 14 days from a Monday hold Monday to Friday of both weeks, in order |
| Calendar.PeriodWeekdaysShape | src/components/pages/presentTimeCard/ActiveTimeCard.js:73-80 | the period has ten ascending weekdays, all in [Monday, Monday + 13], and it covers every weekday there |
| Clock.ParseClock | src/components/pages/ActiveTimeCard/ActiveTimeCard.js:129 | an empty field is absent; a present time lies within the day |
| Clock.ParseClockText | src/components/pages/ActiveTimeCard/ActiveTimeCard.js:129 | every time of day reads back from its `HH:MM` text |
| Clock.ClockTextOfParse | src/components/pages/ActiveTimeCard/ActiveTimeCard.js:129 | a text that reads as a time is exactly that time's `HH:MM` text |
| TimeEntries.SetField | src/components/pages/ActiveTimeCard/ActiveTimeCard.js:170 | `entry[field] = value` sets that field and no other |
| TimeEntries.OrDefault | src/components/pages/ActiveTimeCard/ActiveTimeCard.js:72-75 | `v \|\| d`: a present non-empty value, otherwise the default |
| TimeEntries.OrNull | src/components/pages/ActiveTimeCard/ActiveTimeCard.js:194-198 | `s \|\| null`: null exactly when the text is empty |
| TimeEntries.HoursMinutesLabelInjective | src/components/pages/ActiveTimeCard/ActiveTimeCard.js:150 | distinct hour/minute pairs give distinct `{h}h {m}m` labels |
| TimeEntries.DurationLabelParts | src/components/pages/ActiveTimeCard/ActiveTimeCard.js:147-150 | the label of a total shows `h` and `m` exactly when `m < 60` and `60 h + m` is the total |
| TimeEntries.DurationLabelInjective | src/components/pages/ActiveTimeCard/ActiveTimeCard.js:147-150 | the label determines the total |
| TimeEntries.TimecardsPath | src/components/pages/ActiveTimeCard/ActiveTimeCard.js:189 | `/timecards`, with `/{id}` appended exactly when the entry has an id |
| ActiveTimeCard.WorkedMinutesFullDay | src/components/pages/ActiveTimeCard/ActiveTimeCard.js:135-145 | with four ordered times the worked time is the span minus lunch |
| ActiveTimeCard.WorkedMinutesNoLunch | src/components/pages/ActiveTimeCard/ActiveTimeCard.js:135-145 | start and end without lunch times count nothing in this variant |
| ActiveTimeCard.WorkedMinutesClampsSum | src/components/pages/ActiveTimeCard/ActiveTimeCard.js:135-145 | the clamp applies to the sum: a negative afternoon cancels part of the morning |
| ActiveTimeCard.WorkedMinutes | src/components/pages/ActiveTimeCard/ActiveTimeCard.js:128-153 | with neither segment complete nothing is worked; with only the morning segment complete the morning span is the worked time |
| ActiveTimeCard.CalculateTotalTime | src/components/pages/ActiveTimeCard/ActiveTimeCard.js:128-153 | the accumulating method yields the label of the segment-sum rule |
| ActiveTimeCard.Placeholders | src/components/pages/ActiveTimeCard/ActiveTimeCard.js:103-111 | one blank row per date, in order |
| ActiveTimeCard.Skeleton | src/components/pages/ActiveTimeCard/ActiveTimeCard.js:98-116 | ten rows, each without id, status or total |
| ActiveTimeCard.SkeletonShape | src/components/pages/ActiveTimeCard/ActiveTimeCard.js:98-116 | ten blank rows with strictly ascending weekday dates in [Monday, Monday + 13], covering every weekday there |
| ActiveTimeCard.GenerateInitialEntries | src/components/pages/ActiveTimeCard/ActiveTimeCard.js:98-116 | the 14-step loop yields the skeleton: ten rows |
| ActiveTimeCard.FirstWithDate | src/components/pages/ActiveTimeCard/ActiveTimeCard.js:51-64 | `find` by date: the first record with the row's date, or none when no record has it |
| ActiveTimeCard.Adopt | src/components/pages/ActiveTimeCard/ActiveTimeCard.js:69-79 | a matched row keeps its own id and date |
| ActiveTimeCard.MergeEntry | src/components/pages/ActiveTimeCard/ActiveTimeCard.js:50-80 | an unmatched row is unchanged; a matched row adopts its first record, or throws when that record has no `total_time` |
| ActiveTimeCard.Merge | src/components/pages/ActiveTimeCard/ActiveTimeCard.js:50-80 | the map succeeds exactly when every row does, and then has one merged row per row, in order |
| ActiveTimeCard.MergePreservesRows | src/components/pages/ActiveTimeCard/ActiveTimeCard.js:46-81 | the merge keeps the number of rows, their dates and their ids; an unmatched row is unchanged; a matched row carries the first matching record |
| ActiveTimeCard.MergedSkeletonShape | src/components/pages/ActiveTimeCard/ActiveTimeCard.js:46-84 | a merged skeleton still has ten ascending weekday rows without ids |
| ActiveTimeCard.FetchRangeAsWritten | src/components/pages/ActiveTimeCard/ActiveTimeCard.js:30-37 | the range the GET asks for; it is the aligned range when the reference date is a Monday |
| ActiveTimeCard.FetchRange | src/components/pages/ActiveTimeCard/ActiveTimeCard.js:17-26 | the range the rows span: from a Monday to the Sunday 13 days later |
| ActiveTimeCard.FetchRangeAsWrittenMissesRows | src/components/pages/ActiveTimeCard/ActiveTimeCard.js:32-37 | the requested range holds every row exactly when the reference date is a Sunday or a Monday; from Tuesday to Saturday the first row lies before it |
| ActiveTimeCard.FetchRangeCoversRows | src/components/pages/ActiveTimeCard/ActiveTimeCard.js:32-37 | the aligned range contains every row's date |
| ActiveTimeCard.Editable | src/components/pages/ActiveTimeCard/ActiveTimeCard.js:163-167 | an editable row exists and is not submitted |
| ActiveTimeCard.EditEntry | src/components/pages/ActiveTimeCard/ActiveTimeCard.js:170-179 | an edit sets its field and no other, recomputes the total from the new fields, forces `active`, and keeps the id and date |
| ActiveTimeCard.SaveRequest | src/components/pages/ActiveTimeCard/ActiveTimeCard.js:187-200 | PUT exactly when the row has an id, otherwise POST; empty fields are sent as null, and the status as it is |
| ActiveTimeCard.EditAfterCreateUsesPut | src/components/pages/ActiveTimeCard/ActiveTimeCard.js:214-219 | once a row holds an id, every later edit of it is a PUT to `/timecards/{id}` |
| ActiveTimeCard.SubmitRequest | src/components/pages/ActiveTimeCard/ActiveTimeCard.js:239-251 | a submit sends the row as it is, with status `submitted`, by PUT or POST as a save would |
| ActiveTimeCard.SubmitRequests | src/components/pages/ActiveTimeCard/ActiveTimeCard.js:227-258 | at most one request per row, each with status `submitted` |
| ActiveTimeCard.SubmitRequestsShape | src/components/pages/ActiveTimeCard/ActiveTimeCard.js:227-258 | every request has status `submitted`; each unsubmitted row is sent; none is sent exactly when all rows are submitted (an empty card included) |
| ActiveTimeCard.TimeCard.constructor | src/components/pages/ActiveTimeCard/ActiveTimeCard.js:14 | the card starts with no rows and not submitted |
| ActiveTimeCard.TimeCard.FetchTimeCardData | src/components/pages/ActiveTimeCard/ActiveTimeCard.js:30-90 | the rows are the skeleton when the fetch fails or is empty, otherwise the merge, falling back to the skeleton when the merge throws; the requested range starts at the reference date, and from Tuesday to Saturday the first row lies before it |
| ActiveTimeCard.TimeCard.HandleChange | src/components/pages/ActiveTimeCard/ActiveTimeCard.js:160-185 | a missing or submitted row leaves the state as it was and saves nothing; otherwise only that row changes, by `EditEntry`, and it is saved |
| ActiveTimeCard.TimeCard.ApplySaveResponse | src/components/pages/ActiveTimeCard/ActiveTimeCard.js:213-220 | after a successful POST on a row still without an id the returned id is stored on it, so its next save is a PUT; a row that already holds an id keeps it; anything else changes nothing |
| ActiveTimeCard.TimeCard.HandleReset | src/components/pages/ActiveTimeCard/ActiveTimeCard.js:270-279 | once confirmed, the card is a fresh, unsubmitted skeleton; declined, nothing changes |
| ActiveTimeCard.TimeCard.HandleSubmit | src/components/pages/ActiveTimeCard/ActiveTimeCard.js:226-268 | nothing is sent when all rows are submitted or the user declines; otherwise each unsubmitted row is sent, and all of them succeeding, and only that, clears the card and marks it submitted |
| PresentTimeCard.CalculateTotalTime | src/components/pages/presentTimeCard/ActiveTimeCard.js:211-246 | the overwriting method yields the label of this variant's rule: the no-lunch override and the partial-day override over the segment sum, clamped at 0 |
| PresentTimeCard.VariantsDiffer | src/components/pages/presentTimeCard/ActiveTimeCard.js:220-238 | the two variants differ exactly when start and end are present, both lunch times are absent and the end is after the start |
| PresentTimeCard.PartialDayIsMorning | src/components/pages/presentTimeCard/ActiveTimeCard.js:234-236 | the partial-day override agrees with the segment sum |
| PresentTimeCard.WorkedMinutes | src/components/pages/presentTimeCard/ActiveTimeCard.js:211-246 | start and end with no lunch times count the whole span; every other combination counts what variant 1 counts |
| PresentTimeCard.AllWeekdays | src/components/pages/presentTimeCard/ActiveTimeCard.js:72-80 | the 14-step loop yields the period's ten ascending weekdays |
| PresentTimeCard.FromRecord | src/components/pages/presentTimeCard/ActiveTimeCard.js:86-102 | a record keeps its id and date; a missing total becomes `0h 0m`; a missing status becomes `active` |
| PresentTimeCard.FetchedMap | src/components/pages/presentTimeCard/ActiveTimeCard.js:84-103 | the map's keys are exactly the fetched records' dates |
| PresentTimeCard.KeyOrder | src/components/pages/presentTimeCard/ActiveTimeCard.js:84-103 | the map's keys, in insertion order, are exactly its dates |
| PresentTimeCard.LastWithDate | src/components/pages/presentTimeCard/ActiveTimeCard.js:85-103 | the last record with a date, or none when no record has it |
| PresentTimeCard.FetchedMapLastWins | src/components/pages/presentTimeCard/ActiveTimeCard.js:84-103 | a date is a key exactly when some record has it, and it maps to the last such record: later records overwrite earlier ones |
| PresentTimeCard.KeyOrderKeys | src/components/pages/presentTimeCard/ActiveTimeCard.js:84-103 | no key is listed twice |
| PresentTimeCard.BuildFetchedMap | src/components/pages/presentTimeCard/ActiveTimeCard.js:84-103 | the `forEach`/`set` loop builds that map and that key order |
| PresentTimeCard.MapValues | src/components/pages/presentTimeCard/ActiveTimeCard.js:178 | `Array.from(map.values())`: one value per key, in key order |
| PresentTimeCard.FetchedValuesShape | src/components/pages/presentTimeCard/ActiveTimeCard.js:178 | the map contributes one row per distinct date, each made from the last record with that date |
| PresentTimeCard.MissingDates | src/components/pages/presentTimeCard/ActiveTimeCard.js:107-109 | exactly the period's weekdays with no key, never more of them than there are weekdays |
| PresentTimeCard.MissingDatesAscending | src/components/pages/presentTimeCard/ActiveTimeCard.js:107-109 | the filter keeps the weekdays' order |
| PresentTimeCard.MissingDatesPartition | src/components/pages/presentTimeCard/ActiveTimeCard.js:107-109 | the missing dates are disjoint from the keys, ascend, and together with the keys cover every weekday of the period |
| PresentTimeCard.CreateRequests | src/components/pages/presentTimeCard/ActiveTimeCard.js:113-123 | one POST of a blank `active` record per missing date, in order |
| PresentTimeCard.FromCreated | src/components/pages/presentTimeCard/ActiveTimeCard.js:148-157 | a created row carries the returned id and date |
| PresentTimeCard.Successes | src/components/pages/presentTimeCard/ActiveTimeCard.js:169-173 | at most one row per missing date |
| PresentTimeCard.SuccessesShape | src/components/pages/presentTimeCard/ActiveTimeCard.js:162-173 | each kept row answers a missing date; all creations succeeding keeps one row per date, in order; all failing keeps none |
| PresentTimeCard.StatusRequests | src/components/pages/presentTimeCard/ActiveTimeCard.js:361-389 | at most one request per row, each a PUT of status `submitted` |
| PresentTimeCard.Failures | src/components/pages/presentTimeCard/ActiveTimeCard.js:361-389 | at most one failure per row |
| PresentTimeCard.FailuresCount | src/components/pages/presentTimeCard/ActiveTimeCard.js:358-389 | one PUT per active row; no more failures than PUTs; no failure exactly when every PUT succeeded; as many failures as PUTs exactly when every PUT failed |
| PresentTimeCard.ClassifyAsWritten | src/components/pages/presentTimeCard/ActiveTimeCard.js:393-418 | the source's outcome: success exactly when there is no failure, total failure exactly when the failures equal the number of rows |
| PresentTimeCard.Classify | src/components/pages/presentTimeCard/ActiveTimeCard.js:393-418 | the intended outcome: success exactly when there is no failure, total failure exactly when the failures equal the number of PUTs sent |
| PresentTimeCard.ClassifyAsWrittenMisreports | src/components/pages/presentTimeCard/ActiveTimeCard.js:409 | whenever some row was sent, every PUT failed and some row was already submitted, the source reports partial failure, yet nothing was submitted; the intended rule reports total failure |
| PresentTimeCard.AttemptedBound | src/components/pages/presentTimeCard/ActiveTimeCard.js:361-389 | no more PUTs than rows, and as many only when every row is active |
| PresentTimeCard.ClassifyMeaning | src/components/pages/presentTimeCard/ActiveTimeCard.js:393-418 | the corrected outcome is success exactly when every PUT succeeded, total failure exactly when PUTs were sent and all failed, and partial failure exactly when some failed and some succeeded |
| PresentTimeCard.ClassifyAgreesWhenAllActive | src/components/pages/presentTimeCard/ActiveTimeCard.js:409 | when every row is active the source's comparison and the corrected one agree |
| PresentTimeCard.AttemptedAllActive | src/components/pages/presentTimeCard/ActiveTimeCard.js:363 | with every row active every row is sent |
| PresentTimeCard.EditEntry | src/components/pages/presentTimeCard/ActiveTimeCard.js:258-271 | an edit sets its field and no other, recomputes the total under this variant's rule, forces `active`, and keeps the id and date, with no submitted check |
| PresentTimeCard.UpdateRequest | src/components/pages/presentTimeCard/ActiveTimeCard.js:284-299 | always a PUT to `/timecards/{id}`; empty time fields are null, the total defaults to `0h 0m` and the status to `active` |
| PresentTimeCard.Assembled | src/components/pages/presentTimeCard/ActiveTimeCard.js:177-186 | the assembled card has as many rows as the map has keys plus the successful creations |
| PresentTimeCard.TimeCard.constructor | src/components/pages/presentTimeCard/ActiveTimeCard.js:16-20 | an empty, unsubmitted card, loading, with the button flag off |
| PresentTimeCard.TimeCard.FetchTimeCardData | src/components/pages/presentTimeCard/ActiveTimeCard.js:50-193 | a failed fetch empties the card; otherwise one POST per missing weekday is sent, and the rows are the map's values followed by the successful creations, as many as the map's size plus the successes |
| PresentTimeCard.TimeCard.HandleChange | src/components/pages/presentTimeCard/ActiveTimeCard.js:255-278 | only the row at the index changes, by `EditEntry`, and its PUT is returned |
| PresentTimeCard.Displayed | src/components/pages/presentTimeCard/ActiveTimeCard.js:453 | the table shows no more rows than the card holds, and only weekday rows |
| PresentTimeCard.DisplayedAllWeekdays | src/components/pages/presentTimeCard/ActiveTimeCard.js:453 | when every row is a weekday the table shows the card unchanged, so a table position is a card index |
| PresentTimeCard.RowOfDisplayed | src/components/pages/presentTimeCard/ActiveTimeCard.js:521 | the card row behind the table's `k`-th row is a weekday row with exactly `k` shown rows before it, and is that shown row |
| PresentTimeCard.EditDisplayed | src/components/pages/presentTimeCard/ActiveTimeCard.js:521-550 | the corrected edit keeps the number of rows |
| PresentTimeCard.EditDisplayedShowsEdit | src/components/pages/presentTimeCard/ActiveTimeCard.js:521-550 | after the corrected edit the table shows the edited row at the position the user edited, and every other shown row as it was |
| PresentTimeCard.HandleChangeAsWrittenEditsHiddenRow | src/components/pages/presentTimeCard/ActiveTimeCard.js:255-258 | with a Saturday record ahead of a Monday row, editing the table's only row changes the hidden Saturday row and the table still shows the Monday row unchanged |
| PresentTimeCard.TimeCard.HandleSubmit | src/components/pages/presentTimeCard/ActiveTimeCard.js:343-427 | nothing is sent when all rows are submitted; otherwise each active row's status PUT is sent, the failures are counted, and the outcome is classified as the source does it, against the number of all rows; only success sets the "submitted" button flag |
| PresentTimeCard.TimeCard.AfterSubmitReset | src/components/pages/presentTimeCard/ActiveTimeCard.js:442-447 | the card becomes empty and not submitted |
| TimeAndDateUtils.LeadingDigits | src/components/pages/utils/TimeAndDateUtils.js:19 | the longest run of leading digits |
| TimeAndDateUtils.ParseInt | src/components/pages/utils/TimeAndDateUtils.js:19 | NaN exactly when the text does not start with a digit, otherwise the value of its leading digits |
| TimeAndDateUtils.Hour12 | src/components/pages/utils/TimeAndDateUtils.js:21 | the shown hour is always in 1..12 |
| TimeAndDateUtils.FormatTime | src/components/pages/utils/TimeAndDateUtils.js:17 | an absent or empty time formats to `''` |
| TimeAndDateUtils.ClockHours | src/components/pages/utils/TimeAndDateUtils.js:20-21 | 0 is 12 AM, 1 to 11 stay AM, 12 is 12 PM, 13 to 23 lose 12 and are PM; the pair reads back as the hour |
| TimeAndDateUtils.FormatClockText | src/components/pages/utils/TimeAndDateUtils.js:18-22 | `HH:MM`, with or without further `:` fields, shows as `{h}:{MM} {AM\|PM}` with the minutes copied verbatim |
| TimeAndDateUtils.FormatWithoutColon | src/components/pages/utils/TimeAndDateUtils.js:18-22 | a text without `:` shows its minutes as `undefined` |
| TimeAndDateUtils.FormatDate | src/components/pages/utils/TimeAndDateUtils.js:8 | an absent or empty date formats to `''` |
| TimeCardsIndex.FormatTotalTime | src/components/pages/TimeCardsIndex/TimeCardsIndex.js:33-35 | no label exactly when there is no total |
| TimeCardsIndex.MissingPartIsZero | src/components/pages/TimeCardsIndex/TimeCardsIndex.js:37-38 | a missing hours or minutes part shows as 0 |
| TimeCardsIndex.FormatTotalTimeOfDuration | src/components/pages/TimeCardsIndex/TimeCardsIndex.js:38 | a total split into hours and minutes shows its duration label, naming `h` hours and `m` minutes exactly when `m < 60` and `60 h + m` is the total |
| TimeCardsIndex.FormatTotalTimeInjective | src/components/pages/TimeCardsIndex/TimeCardsIndex.js:38 | equal labels mean equal hours and minutes |
| TimeCardsIndex.SameLabelAsTimeCard | src/components/pages/TimeCardsIndex/TimeCardsIndex.js:32-39 | with both parts the calendar shows the label the time-card rows carry; without a total it shows none where the rows show `0h 0m` |
| TimeCardsIndex.Events | src/components/pages/TimeCardsIndex/TimeCardsIndex.js:69-76 | one event per record, in order, with an empty title, start and end on the work date, and the total's label |
| CurrentTimeCard.Load | src/components/pages/currentTimeCard/currentTimeCard.js:12-17 | nothing stored keeps the state; a stored card replaces it wholesale |
| CurrentTimeCard.HandleChange | src/components/pages/currentTimeCard/currentTimeCard.js:19-25 | the count and the flag are kept; the other entries are identical; the edited entry has the field set and its other fields unchanged; the stored card equals the new state |
| CurrentTimeCard.ChangeOutOfRange | src/components/pages/currentTimeCard/currentTimeCard.js:20-22 | an index outside the entries changes nothing |
| CurrentTimeCard.ChangeLastWins | src/components/pages/currentTimeCard/currentTimeCard.js:20-22 | of two edits of one field the last wins, and repeating an edit changes nothing |
| CurrentTimeCard.ChangesCommute | src/components/pages/currentTimeCard/currentTimeCard.js:20-22 | edits of different entries or different fields commute |
| CurrentTimeCard.HandleSubmit | src/components/pages/currentTimeCard/currentTimeCard.js:27-31 | the card is marked submitted, the entries are kept, and the stored card equals the new state |
| CurrentTimeCard.SubmitIdempotent | src/components/pages/currentTimeCard/currentTimeCard.js:27-31 | submitting twice is submitting once |
| ReportPage.ActiveReportData | src/components/pages/reports/ReportPage.js:18 | the report's data if non-empty, else the default data; empty exactly when both are |
| ReportPage.NoReportData | src/components/pages/reports/ReportPage.js:21-25 | when the guard passes, there is a non-empty report type and some data |
| ReportPage.NoReportDataGuard | src/components/pages/reports/ReportPage.js:15-25 | the page shows "No report data available" exactly when the type is absent or empty, or both the report's and the default data are empty; otherwise it shows the report's data if it has any, else the default data |
| ReportPage.TotalHoursText | src/components/pages/reports/ReportPage.js:45 | an absent, empty or `'Invalid data'` total becomes `0 Hours 0 Minutes`; anything else passes through |
| ReportPage.Headers | src/components/pages/reports/ReportPage.js:34-55 | six headers for detailed timecards, four for total hours, none for any other type |
| ReportPage.Row | src/components/pages/reports/ReportPage.js:39-54 | as many cells as headers; a detailed row has its date double-quoted and the total fallback last; a total-hours row has id, first name, last name, then the fallback |
| ReportPage.DataRows | src/components/pages/reports/ReportPage.js:34-55 | one row per record, in order, for the two laid-out types; none for any other type |
| ReportPage.CsvLines | src/components/pages/reports/ReportPage.js:61 | one joined line per row |
| ReportPage.HandleSaveCsv | src/components/pages/reports/ReportPage.js:33-61 | the branch-assigning method yields the data-URI prefix followed by the header line and the data lines |
| ReportPage.CsvLinesSingleLine | src/components/pages/reports/ReportPage.js:61 | rows without line breaks in their cells give lines without line breaks |
| ReportPage.CsvLineSingleLine | src/components/pages/reports/ReportPage.js:61 | a row without line breaks in its cells joins to a single line |
| ReportPage.HeadersSingleLine | src/components/pages/reports/ReportPage.js:38-48 | no header holds a line break |
| ReportPage.CsvOneLinePerRecord | src/components/pages/reports/ReportPage.js:58-61 | the CSV splits into the header line, then exactly one line per record, in record order |
| ReportPage.OtherTypeCsvIsEmpty | src/components/pages/reports/ReportPage.js:34-55 | any other report type saves nothing after the prefix |
| TimeCardReports.FindEmployee | src/components/pages/reports/TimeCardReports.js:84 | the first employee whose full name matches, or none when none does |
| TimeCardReports.SelectedEmpId | src/components/pages/reports/TimeCardReports.js:84-89 | the found employee's id when it is truthy, otherwise none |
| TimeCardReports.RequestFor | src/components/pages/reports/TimeCardReports.js:99-123 | every request goes below `/reports/` with two query parameters |
| TimeCardReports.RequestPaths | src/components/pages/reports/TimeCardReports.js:99-123 | different report types request different paths |
| TimeCardReports.KnownReportTypes | src/components/pages/reports/TimeCardReports.js:99-123 | a request is made exactly for the five known types; the per-employee totals and absenteeism carry `{startDate, endDate}`; total hours go to `/reports/<id>`, detailed time cards to `/reports/detailed/<id>` and absenteeism to `/reports/absenteeism` |
| TimeCardReports.ExportOneLinePerRow | src/components/pages/reports/TimeCardReports.js:44-46 | without commas or line breaks in the fields, the export has one line per row, in order, and each line splits back into that row's four fields |
| TimeCardReports.ExportLineFields | src/components/pages/reports/TimeCardReports.js:45 | a line is `employee_id,first_name,last_name,total_hours`, with an absent field shown as `undefined` |
| TimeCardReports.ExportCsv | src/components/pages/reports/TimeCardReports.js:40-56 | the export text is empty exactly when there is no data |
| TimeCardReports.ReportForm.constructor | src/components/pages/reports/TimeCardReports.js:18-26 | total hours, empty dates and employee, January 2024, weekly, no employees |
| TimeCardReports.ReportForm.ResetForm | src/components/pages/reports/TimeCardReports.js:29-37 | dates, employee and name are cleared; January, 2024 and weekly are restored; the report type and employee list are untouched |
| TimeCardReports.ReportForm.HandleEmployeeChange | src/components/pages/reports/TimeCardReports.js:160-165 | the name is stored, and the employee number of the first untrimmed match, or `''` |
| TimeCardReports.ReportForm.GenerateReport | src/components/pages/reports/TimeCardReports.js:76-123 | no request without a matched employee with a truthy id; otherwise the endpoint and query of the report type, and none for an unknown type |

## Left out

- Network calls, `localStorage`, `navigate`, `alert`, `window.confirm` and the confetti `setTimeout` are not modelled. Their results are parameters: the fetched list, the answer to each POST and PUT, and the user's confirmation. What a component would write to storage is only modelled for `CurrentTimeCard`.
- `Promise.all` is modelled as one sequential pass over the entries, with one outcome each. Nothing in the code depends on the order in which the requests settle.
- moment, time zones, daylight saving and display formats are not modelled. This covers the `'MMMM Do YYYY'` failure dates and `toLocaleDateString`, which is a parameter of `FormatDate`. Dates are day numbers and the UTC date strings compare as dates.
- `Clock.ParseClock` accepts exactly `HH:MM` with hours 00–23 and minutes 00–59 and reads any other non-empty text as absent. Both variants parse differently from that. Variant 1 parses the ISO text `1970-01-01T{time}:00Z` (`ActiveTimeCard/ActiveTimeCard.js:129`): there other text gives an invalid moment, which still counts as present, so the label reads `NaNh NaNm`. Variant 2 parses with forgiving `moment(time, 'HH:mm')` (`presentTimeCard/ActiveTimeCard.js:214`): it also reads one-digit hours such as `9:30` as 09:30 and ignores trailing fields such as the seconds of `09:00:00`, and text it cannot parse is again a present invalid moment giving `NaNh NaNm` (lines 222-241). A time input only ever holds `HH:MM` or `""`, which both parsers read as the model does.
- `TimeAndDateUtils.ParseInt` does not model the leading blanks, signs or `0x` prefixes that JavaScript's `parseInt` accepts.
- URL encoding of query parameters and of the CSV data URI is not modelled. The Blob, link and `click` download mechanics are not modelled either.
- The saved-entry rollback and the debounce are not modelled, because the code does neither, and errors of a save are only logged.
- Variant 2 records the failed submissions' dates under a key that is absent on these entries. Only the number of failures is modelled.
- After a partial submit in variant 2 the local rows keep their statuses, as in the source. The model changes nothing on failure.
- The model's state holds values, and the in-place edits of entry objects (`entry[field] = value`, `updatedEntries[index].id = …`) are modelled as value updates of the row. The one effect of the sharing that a later step sees is that the `!entry.id` test on a POST answer reads an id an earlier answer stored on the same object; `ActiveTimeCard.TimeCard.ApplySaveResponse` reproduces it by testing the row's current id.
- `ActiveTimeCard.TimeCard.ApplySaveResponse` tests the id of the row now at the index, where the source tests the object that was sent. The two differ only when a refetch has replaced the rows before a POST's answer arrives: the source then writes the answer's id over the new row's id, and the model keeps the new row's id.
- `ActiveTimeCard.TimeCard.HandleChange` finds the row by index among all rows. This is the source's `find` with the weekday test, which every skeleton row passes.
- `ActiveTimeCard.Adopt` stores `""` for a record without `status`, where the source stores `undefined`. The rest of the model treats the two alike.
- `PresentTimeCard.FromCreated` takes the returned record's date as a day number, not as the text the server sends. It copies the POST answer's `total_time` as it is (`presentTimeCard/ActiveTimeCard.js:154`) and types it as text, so it does not show that an answer holding a `{hours, minutes}` object would be stored as that object, which the fetch path converts to text (lines 86-91).
- `TimeEntries.TemplateNumber` renders an absent hours or minutes part as `undefined` and does not tell JSON `null` apart from a missing key. A template literal writes `null` for the former, so `{hours: 8, minutes: null}` shows as `8h nullm` in the source (`ActiveTimeCard/ActiveTimeCard.js:76`) and as `8h undefinedm` in the model.
- `TimeCardReports.TemplateText` likewise renders both a missing field and a JSON `null` as `undefined`, where the source exports a `null` `total_hours` as `null` (`reports/TimeCardReports.js:45`).
- `ActiveTimeCard.TimeCard.FetchTimeCardData` takes the fetched records as given. The server's filtering of records by the requested range is not modelled, so the model does not show that rows before the range load blank; `ActiveTimeCard.FetchRangeAsWrittenMissesRows` states which rows lie outside it.
- A report record is a flat set of optional texts. A JSON `null` report list and any missing `employee_id` are not modelled.
- The JSX rendering is not modelled: tables, buttons, the loading and submitting spinners, and the calendar view.
- The commented-out older component at the end of `ActiveTimeCard/ActiveTimeCard.js` is not live code and is not part of this model.

## Findings

| source | as written | input that shows it | evidently intended | confidence | as-written member | corrected member |
|---|---|---|---|---|---|---|
| src/components/pages/presentTimeCard/ActiveTimeCard.js:409 | total failure when the failure count equals the number of all rows | two rows, the first already `submitted`, the second `active` with its PUT failing: 1 failure, 2 rows, so "partial" is reported while nothing was submitted | compare with the number of rows actually sent | not executed | PresentTimeCard.ClassifyAsWrittenMisreports | PresentTimeCard.ClassifyMeaning |
| src/components/pages/ActiveTimeCard/ActiveTimeCard.js:32-37 | the GET range starts at the reference date itself | any reference date from Tuesday to Saturday, e.g. Wednesday 1970-01-07 (day 6): the rows start on Monday 1970-01-05, so the records of Monday and Tuesday are never fetched and those rows always load blank | request the range from the period's Monday, which the rows span | not executed | ActiveTimeCard.FetchRangeAsWrittenMissesRows | ActiveTimeCard.FetchRangeCoversRows |
| src/components/pages/presentTimeCard/ActiveTimeCard.js:255-258 | `handleChange` indexes all of the card's rows with the position of a row in the table, which shows only the weekday rows (line 453) | a fetched Saturday record (day 2) ahead of a Monday row (day 4): the table shows only the Monday row, and editing it edits the Saturday row | edit the card row that the table shows at that position | not executed | PresentTimeCard.HandleChangeAsWrittenEditsHiddenRow | PresentTimeCard.EditDisplayedShowsEdit |
