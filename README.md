# calendar-money, modelled in Dafny

calendar-money is a work-hours tracker. A person books hourly work for
companies in a weekly calendar (one company per date-and-hour slot, hours 7 to
22). They record what each trip to work cost, and see three pending totals:

- earnings from unpaid hours that have already elapsed, valued at the rate
  snapshot taken when the hour was booked, or else at the company's current
  rate;
- unpaid transport costs;
- unpaid tithes.

Marking a company as paid flips the paid flag on its work logs.

This project models the tracker's bookkeeping core:

- the four record kinds and the tables' keys, defaults and cascade (`Types`,
  `Schema`);
- the list transitions the pages perform (`Collections`);
- the three pending-total summaries (`Earnings`, `TransportSummary`,
  `TithingSummary`);
- the calendar's week arithmetic, slot lookup and save/clear requests, with
  the calendar view's state (`Calendar`);
- the transport-cost form's validation, rounding and field resets
  (`TransportCostModal`);
- the two pages' state handlers (`ClientPage.ClientHome`, `Page.Home`);
- the server actions over in-memory tables (`Actions.Database`).

`Seqs` holds the `filter`/`map`/`reduce`/`find` combinators the code is written
with, and the general facts about them. `Optional` holds the optional-value type.

Conventions:

- Money is an exact `real`.
- An instant is milliseconds of local wall-clock time since 1970-01-01 00:00.
- A calendar date is a local day number; 1970-01-01 was a Thursday.
- Record dates are `YYYY-MM-DD` strings.
- An optional field is an `Option`, and an absent paid flag means unpaid.
- Fresh identifiers, the clock and the parsed number are parameters.

State lives in classes whose methods state their whole new state. The
properties themselves are proved about the functions those methods are tied
to.

## Model

| member | source | states |
|---|---|---|
| Types.DigitsValue | app/components/EarningsSummary.tsx:30 | the number a string of decimal digits denotes (`Number` on a date field) is below ten to the string's length |
| Types.DigitsValueConcat | app/components/EarningsSummary.tsx:30 | the digits are read positionally: a string's value is its front's value times ten to the length of its tail, plus its tail's value |
| Types.DigitsValueOfDigit | app/components/EarningsSummary.tsx:30 | a single digit reads as its own value |
| Types.DigitsValueOfPadded | app/components/EarningsSummary.tsx:30 | a number written zero-padded in enough digits reads back as that number |
| Types.PaddedOfDigitsValue | app/components/EarningsSummary.tsx:30 | a digit string is the zero-padded writing of its value, so the value determines the digits |
| Types.DateKeyOf | app/components/Calendar.tsx:40-43 | a year, month and day written zero-padded as `YYYY-MM-DD` form a date key |
| Schema.CompanyIds | db/schema.ts:4 | the id column of the company table: holds every company's id and only ids of listed companies |
| Schema.InsertedWorkLog | db/schema.ts:16 | an inserted work-log row always has a stored paid flag, `false` when the record gives none; it is paid exactly when the record was; every other field is as given |
| Schema.CompanyIdsCons | db/schema.ts:4 | the ids of a company list are the first company's and the rest's, and with a primary key the first differs from all the rest |
| Collections.PlaceLog | app/ClientPage.tsx:69-71 | after the slot upsert the log is the only log in its (date, hour) slot, the logs of every other slot are kept in their order, and the list grows by at most one |
| Collections.PlaceLogKeepsSlotsUnique | app/page.tsx:64-65 | the slot upsert keeps at most one log per (date, hour) |
| Collections.RemoveLog | app/ClientPage.tsx:75-76 | removing by id drops every log with that id and keeps exactly the others; nothing changes when no log has it; slot and id uniqueness are kept |
| Collections.RemoveLogPiecewise | app/ClientPage.tsx:75-76 | removing by id works log by log: nothing from nothing, one log kept exactly when its id differs, and a concatenation handled part by part, so the kept logs stay in order and with their repetitions |
| Collections.LogsOfOtherCompanies | app/ClientPage.tsx:65 | the logs left after deleting a company are exactly those of other companies |
| Collections.LogsOfOtherCompaniesPiecewise | app/ClientPage.tsx:65 | the logs kept after deleting a company are kept log by log, in their order |
| Collections.RemoveCompany | app/ClientPage.tsx:64 | the companies left are exactly those with another id; ids stay unique |
| Collections.RemoveCompanyPiecewise | app/ClientPage.tsx:64 | the companies kept after a deletion are kept one by one, in their order |
| Collections.CascadeKeepsReferences | db/schema.ts:15 | deleting a company together with its work logs leaves every remaining log referring to an existing company |
| Collections.ReplaceCompany | app/ClientPage.tsx:58-59 | updating a company replaces each entry with its id and nothing else; length and order kept; ids stay unique |
| Collections.PayCompanyLogs | app/ClientPage.tsx:80-83 | every log of the company is paid afterwards, whatever its flag was, and otherwise unchanged; every other log is unchanged; length, slots and ids kept |
| Collections.PayCompanyLogsIdempotent | app/actions.ts:60-68 | marking a company's work logs paid twice is marking them once |
| Collections.PayCompanyTransport | app/actions.ts:125-128 | every trip of the company is paid afterwards and otherwise unchanged; other trips unchanged; ids kept |
| Collections.PayCompanyTransportIdempotent | app/actions.ts:125-128 | marking a company's trips paid twice is marking them once |
| Earnings.DateFields | app/components/EarningsSummary.tsx:30 | the year, month and day read from a `YYYY-MM-DD` key are within 0..9999, 0..99, 0..99 |
| Earnings.DateFieldsOfDateKey | app/components/EarningsSummary.tsx:30 | reading the fields of a zero-padded key gives back exactly the year, month and day it was written from |
| Earnings.DateKeyOfDateFields | app/components/EarningsSummary.tsx:30 | every `YYYY-MM-DD` key is the zero-padded key of the fields read from it, so the reading loses nothing |
| Earnings.CompletionInstant | app/components/EarningsSummary.tsx:30-32 | a log's hour block ends exactly when its date is a `YYYY-MM-DD` key, at that day's start plus `hour + 1` hours |
| Earnings.EpochIsDayZero | app/components/EarningsSummary.tsx:32 | day zero is 1970-01-01, and `new Date(70, 0, 1)` names it |
| Earnings.MarchYearLength | app/components/EarningsSummary.tsx:32 | from 1 March of one year to the next there are 366 days exactly when the February between falls in a Gregorian leap year, else 365 |
| Earnings.FebruaryLength | app/components/EarningsSummary.tsx:32 | 1 March comes 29 days after 1 February in a leap year and 28 otherwise |
| Earnings.MonthLength | app/components/EarningsSummary.tsx:32 | the first of the next month (of the next year after December) comes exactly the Gregorian length of the month after the first of a month |
| Earnings.LocalDayNumberNextDay | app/components/EarningsSummary.tsx:32 | the next day of the month is the next day number, also past the month's end |
| Earnings.LocalDayNumberMonthCarry | app/components/EarningsSummary.tsx:32 | the day after a month's last day is the first of the next month, a month index of 11 carrying into January of the next year |
| Earnings.CompletionOneHourLater | app/components/EarningsSummary.tsx:32 | a log one hour later on the same date completes exactly one hour later |
| Earnings.CountedLogs | app/components/EarningsSummary.tsx:22-35 | a log counts for a company iff it is that company's, not paid (absent flag = unpaid), `now` is known and not before the log's completion instant |
| Earnings.EarningsFor | app/components/EarningsSummary.tsx:20-51 | a company's entry names that company and never counts more hours than there are logs |
| Earnings.EarningsByCompany | app/components/EarningsSummary.tsx:20 | exactly one entry per company, in company order, zero-hour companies included |
| Earnings.NothingCountsWithoutNow | app/components/EarningsSummary.tsx:27 | while `now` is unknown every entry has zero hours and zero earnings, and the grand total is zero |
| Earnings.MaturityIsMonotone | app/components/EarningsSummary.tsx:32-34 | a log that counts at some time still counts at any later time |
| Earnings.HoursGrowWithTime | app/components/EarningsSummary.tsx:32-34 | as time goes on a company's counted hours never decrease, whatever the rates |
| Earnings.EarningsGrowWithTime | app/components/EarningsSummary.tsx:32-34 | with non-negative rates, a company's earnings never decrease as time goes on |
| Earnings.EarningsOfOneMoreLog | app/components/EarningsSummary.tsx:38-44 | no logs give zero hours and zero earnings; one more log adds one hour and its rate (snapshot, else the company's rate) exactly when it counts, and nothing otherwise |
| Earnings.EarningsAtCurrentRate | app/components/EarningsSummary.tsx:38-44 | with no rate snapshots, earnings are the counted hours times the company's rate |
| Earnings.GrandTotalNonNegative | app/components/EarningsSummary.tsx:53 | with non-negative rates and snapshots, each entry's earnings and the grand total are non-negative |
| Earnings.NewYear2024Fields | app/components/EarningsSummary.tsx:30 | the key `2024-01-01` reads as year 2024, month 1, day 1 |
| Earnings.NewYear2024Day | app/components/EarningsSummary.tsx:32 | 2024-01-01 is day 19723 after 1970-01-01 |
| Earnings.HourNineCompletesAtTen | app/components/EarningsSummary.tsx:32 | an hour-9 log on 2024-01-01 completes at 10:00 that day |
| Earnings.HourNineMaturesAtTen | app/components/EarningsSummary.tsx:30-34 | an unpaid hour-9 log at rate 20 is not counted at 09:59 and is counted, for 20, at 10:00 |
| Seqs.TimesIsProduct | app/components/EarningsSummary.tsx:44 | adding the rate once per counted hour gives hours times rate |
| TransportSummary.TransportFor | app/components/TransportSummary.tsx:15-19 | a company's trips are exactly its unpaid transport logs (no time gate); the trip count is their number |
| TransportSummary.TransportByCompany | app/components/TransportSummary.tsx:13-27 | every listed entry has at least one trip and is the entry of one of the companies |
| TransportSummary.ListsCompaniesWithUnpaidTrips | app/components/TransportSummary.tsx:27 | the listed companies are exactly those with an unpaid trip, in their original relative order |
| TransportSummary.TransportOfOneMoreLog | app/components/TransportSummary.tsx:15-19 | no logs give an empty entry; one more transport log is appended to the company's trips and adds one trip and its cost exactly when it is the company's and unpaid |
| TransportSummary.GrandTotalIsUnpaidTrips | app/components/TransportSummary.tsx:13-29 | with unique company ids the grand total is the sum of the costs of all unpaid trips of listed companies |
| TransportSummary.AllEntriesSumToUnpaidTrips | app/components/TransportSummary.tsx:13-26 | before zero-trip companies are dropped, the entries' costs add up to the unpaid trips of listed companies |
| TransportSummary.TotalsNonNegative | app/components/TransportSummary.tsx:18-29 | with non-negative trip costs every total and the grand total are non-negative |
| TithingSummary.TithingFor | app/components/TithingSummary.tsx:16-24 | a company's count is positive iff it has an unpaid tithing log, and never exceeds the number of logs |
| TithingSummary.TithingByCompany | app/components/TithingSummary.tsx:14-26 | every listed entry has a count of at least one and is the entry of one of the companies |
| TithingSummary.TithingOfOneMoreLog | app/components/TithingSummary.tsx:16-24 | no logs give a zero entry; one more tithing log adds one to the count and its amount to the total exactly when it is the company's and unpaid |
| TithingSummary.ListsCompaniesWithUnpaidTithes | app/components/TithingSummary.tsx:26 | the listed companies are exactly those with an unpaid tithing log, in their original relative order |
| TithingSummary.PaidLogsIgnored | app/components/TithingSummary.tsx:16 | the summary over all logs equals the summary over the unpaid logs alone |
| TithingSummary.PaidLogAddsNothing | app/components/TithingSummary.tsx:16 | adding a paid tithing log changes no entry |
| TithingSummary.GrandTotalIsUnpaidTithes | app/components/TithingSummary.tsx:14-28 | with unique company ids the grand total is the sum of all unpaid tithing amounts of listed companies |
| TithingSummary.AllEntriesSumToUnpaidTithes | app/components/TithingSummary.tsx:14-25 | before zero-count companies are dropped, the entries' totals add up to the unpaid amounts of listed companies |
| TithingSummary.TotalsNonNegative | app/components/TithingSummary.tsx:19-28 | with non-negative amounts every total and the grand total are non-negative |
| Calendar.Hours | app/components/Calendar.tsx:12 | sixteen strictly increasing hours, containing exactly the hours 7 to 22 |
| Calendar.Weekday | app/components/Calendar.tsx:21 | the weekday of a day number is in 0..6 |
| Calendar.WeekdayAdvancesDaily | app/components/Calendar.tsx:21 | 1970-01-01 is a Thursday (4), each next day is the next weekday, wrapping from Saturday to Sunday, and the weekday repeats every seven days |
| Calendar.NewYear2024IsMonday | app/components/Calendar.tsx:21 | `getDay()` of 2024-01-01 is 1, a Monday, as on the real calendar |
| Calendar.StartOfWeek | app/components/Calendar.tsx:19-24 | the week starts on a Monday at most six days before the current date |
| Calendar.StartOfWeekIsTheMonday | app/components/Calendar.tsx:19-24 | any Monday on or up to six days before a date is the start of its week |
| Calendar.WeekDays | app/components/Calendar.tsx:27-33 | seven consecutive days from the week's Monday, the i-th on weekday (i+1) mod 7 |
| Calendar.MobileDayIndex | app/components/Calendar.tsx:85 | the first mobile tab index lies in 0..6 and is today's position in this week |
| Calendar.MobileDisplayDate | app/components/Calendar.tsx:86 | the mobile view shows the week day at the tab index, or today for an index outside 0..6 |
| Calendar.NextWeekStartsSevenDaysLater | app/components/Calendar.tsx:97-116 | moving the date by a week moves the week's Monday by seven days |
| Calendar.CurrentLog | app/components/Calendar.tsx:51-56 | the current log is the first log of the list in the selected slot; there is none iff no slot is selected or the slot is empty |
| Calendar.CurrentLogIsTheSlotsLog | app/components/Calendar.tsx:51-56 | with one log per slot, the current log is the slot's log |
| Calendar.SaveRequest | app/components/Calendar.tsx:58-65 | saving emits a log iff a slot is selected, with the slot's date and hour, the chosen company, no paid flag or snapshot, and the current log's id when non-empty, else the fresh id |
| Calendar.SavedLogIsWellFormed | app/types.ts:9-16 | a save at one of the displayed hours on a `YYYY-MM-DD` date emits a log whose date is a key and whose hour is in 7..22 |
| Calendar.ClearRequest | app/components/Calendar.tsx:70-74 | clearing asks to remove an id iff the slot has a log, and the id is that of the current log, the first log in the slot |
| Calendar.CompanyForSlot | app/components/Calendar.tsx:77-82 | `null` iff no log is in the slot; otherwise, for the slot's first log, `undefined` iff its company id is not a listed company's, else the first company with that id |
| Calendar.OccupiedSlotShowsItsCompany | app/components/Calendar.tsx:77-82 | when every log refers to an existing company, an occupied slot never shows `undefined` |
| Calendar.CalendarView.constructor | app/components/Calendar.tsx:16-37 | the view starts on today, modal closed, no slot, on today's mobile tab |
| Calendar.CalendarView.PreviousWeek | app/components/Calendar.tsx:97-101 | the date moves seven days back and the week with it; nothing else changes |
| Calendar.CalendarView.NextWeek | app/components/Calendar.tsx:113-117 | the date moves seven days on and the week with it; nothing else changes |
| Calendar.CalendarView.GoToToday | app/components/Calendar.tsx:107 | the date becomes today |
| Calendar.CalendarView.SelectMobileDay | app/components/Calendar.tsx:130 | the chosen tab becomes the mobile day |
| Calendar.CalendarView.SlotClick | app/components/Calendar.tsx:46-49 | the slot is selected and the modal opens |
| Calendar.CalendarView.Save | app/components/Calendar.tsx:58-68 | emits the save request; closes the modal only when a slot was selected |
| Calendar.CalendarView.Clear | app/components/Calendar.tsx:70-75 | emits the clear request and always closes the modal |
| Calendar.CalendarView.CloseModal | app/components/Calendar.tsx:195 | the modal closes |
| TransportCostModal.TrimStart | app/components/TransportCostModal.tsx:66 | drops exactly the leading white space |
| TransportCostModal.TrimEnd | app/components/TransportCostModal.tsx:66 | drops exactly the trailing white space |
| TransportCostModal.Trim | app/components/TransportCostModal.tsx:66 | the trimmed text is the slice between the leading and trailing white space, and neither starts nor ends with white space |
| TransportCostModal.TrimIdempotent | app/components/TransportCostModal.tsx:66 | trimming twice is trimming once |
| TransportCostModal.TrimEmptyIffBlank | app/components/TransportCostModal.tsx:66 | trimming leaves nothing iff the text is all white space |
| TransportCostModal.TrimmedDescription | app/components/TransportCostModal.tsx:66 | the description passed on is absent iff it is blank, otherwise the non-empty trimmed text |
| TransportCostModal.RoundToCents | app/components/TransportCostModal.tsx:63 | the rounded cost has at most two decimals, lies within half a hundredth of the input (halves up), and is non-negative for non-negative input |
| TransportCostModal.RoundingKeepsCents | app/components/TransportCostModal.tsx:63 | an amount with at most two decimals is unchanged by rounding |
| TransportCostModal.Decide | app/components/TransportCostModal.tsx:50-66 | refuses exactly non-numbers (with the not-a-number message) and negatives (with the negative message); an accepted cost is the rounded input, non-negative with two decimals, with the trimmed description |
| TransportCostModal.CostForm.constructor | app/components/TransportCostModal.tsx:22-25 | the form starts empty, not submitting |
| TransportCostModal.CostForm.OnOpen | app/components/TransportCostModal.tsx:28-38 | opening on an existing trip fills cost and description (absent description as empty) and keeps the error; opening without one clears all three; a closed modal changes nothing |
| TransportCostModal.CostForm.Save | app/components/TransportCostModal.tsx:48-73 | returns the decision; a refusal sets the error and keeps the fields; an acceptance clears cost, description and error and ends not submitting |
| TransportCostModal.CostForm.CostChange | app/components/TransportCostModal.tsx:75-78 | editing the cost sets it and clears the error |
| TransportCostModal.CostForm.DescriptionChange | app/components/TransportCostModal.tsx:123 | editing the description sets it |
| TransportCostModal.CostForm.Close | app/components/TransportCostModal.tsx:80-85 | closing clears cost, description and error |
| ClientPage.NewTransportLog | app/ClientPage.tsx:95-102 | the new trip carries the fresh id, the modal's work-log id, date and company, the cost and description, and is unpaid |
| ClientPage.AcceptedTripIsWellFormed | app/types.ts:18-26 | a trip built from a cost the form accepts, on a `YYYY-MM-DD` date, has a date key and a cost with at most two decimals |
| ClientPage.MarkAsPaidSettlesCompany | app/ClientPage.tsx:80-85 | after marking a company paid its pending earnings are zero hours and zero, at any time, and every other company's are unchanged |
| ClientPage.CalendarSaveKeepsIdsUnique | app/components/Calendar.tsx:58-66 | a calendar save placed into its slot keeps one log per slot and unique ids, given that the fresh id is new |
| ClientPage.ClientHome.constructor | app/ClientPage.tsx:27-39 | the page starts from the loaded lists with the transport modal closed and empty |
| ClientPage.ClientHome.AddCompany | app/ClientPage.tsx:53-56 | appends exactly the company; nothing else changes |
| ClientPage.ClientHome.UpdateCompany | app/ClientPage.tsx:58-61 | replaces the company with the same id, keeping length and order |
| ClientPage.ClientHome.DeleteCompany | app/ClientPage.tsx:63-67 | removes the company and its work logs, leaves transport logs untouched, keeps references and one log per slot |
| ClientPage.ClientHome.UpdateLog | app/ClientPage.tsx:69-73 | the log becomes the only log of its slot, other slots unchanged, one log per slot kept |
| ClientPage.ClientHome.RemoveLog | app/ClientPage.tsx:75-78 | removes the logs with the id, keeps the rest |
| ClientPage.ClientHome.MarkAsPaid | app/ClientPage.tsx:80-85 | pays every work log of the company and leaves transport logs untouched |
| ClientPage.ClientHome.OpenTransportModal | app/ClientPage.tsx:87-90 | stores the target and opens the modal |
| ClientPage.ClientHome.SaveTransportCost | app/ClientPage.tsx:92-109 | without a target nothing is appended; otherwise appends the one new unpaid trip, raises exactly the target company's pending transport by the cost, and closes and clears the modal |
| ClientPage.ClientHome.CloseTransportModal | app/ClientPage.tsx:154-157 | closes the modal and forgets the target |
| Page.Home.constructor | app/page.tsx:10-11 | the page starts with no companies and no logs |
| Page.Home.AddCompany | app/page.tsx:36-38 | appends the company at the end |
| Page.Home.DeleteCompany | app/page.tsx:40-47 | removes the company and all its work logs; references kept |
| Page.Home.UpdateLog | app/page.tsx:49-66 | the log replaces whatever sat in its slot; one log per slot kept |
| Page.Home.RemoveLog | app/page.tsx:68-70 | removes only the logs with the id |
| Actions.UpdateCompanyRows | app/actions.ts:31-36 | the row with the record's id takes its fields, a stored colour surviving an absent one; other rows and the id set unchanged |
| Actions.UpsertWorkLog | app/actions.ts:43-51 | refused iff the company does not exist; with a row of that id, that row takes the record's fields (absent flag and snapshot keep the stored ones) and the rest stay; otherwise the record is appended with the paid default |
| Actions.UpsertWorkLogKeepsTablesValid | app/actions.ts:43-51 | the upsert keeps keys unique, references valid and paid flags stored; the table grows by at most one row and holds a row with the record's id, slot and company |
| Actions.UpdatedWorkLogRowsValid | app/actions.ts:46 | the update path keeps the tables valid and leaves a row with the record's id, slot and company |
| Actions.UpsertWorkLogIdempotent | app/actions.ts:43-51 | upserting the same record twice is upserting it once |
| Actions.FreshIdInOccupiedSlot | app/actions.ts:48-50 | a record with a new id for an occupied slot leaves two different rows in that slot |
| Actions.DeleteRemovesOneRow | app/actions.ts:55-56 | with unique ids, deleting an existing id removes exactly one row |
| Actions.DeleteCompanyKeepsTablesValid | app/actions.ts:38-41 | deleting a company with its cascade keeps all table invariants |
| Actions.UpdateTransportRows | app/actions.ts:88-93 | the row with the record's id takes its id, cost, date and company, and its work-log id, description and paid flag unless the record leaves them out; other rows unchanged; ids stay unique |
| Actions.InsertTransport | app/actions.ts:83-86 | refused iff the id is taken; otherwise the record is appended |
| Actions.UpsertTransportLog | app/actions.ts:95-118 | when the record names a work log that already has a trip, the first such trip takes the record's cost, company, date and (if given) description and keeps its id, work-log id and paid flag, every other row is unchanged, and its id is returned; otherwise the record is appended and its id returned, refused iff the id is taken |
| Actions.UpsertTransportLogKeepsOnePerWorkLog | app/actions.ts:95-118 | the upsert keeps ids unique and at most one trip per work log, never shrinks the table, and returns the id of a row in it |
| Actions.Database.constructor | db/schema.ts:3-18 | an empty store satisfies every table invariant |
| Actions.Database.CreateCompany | app/actions.ts:26-29 | inserts the company unless its id is taken (then a duplicate-key error) |
| Actions.Database.UpdateCompany | app/actions.ts:31-36 | updates the company row as `UpdateCompanyRows` says |
| Actions.Database.DeleteCompany | app/actions.ts:38-41 | deletes the company and cascades to its work logs only |
| Actions.Database.CreateOrUpdateWorkLog | app/actions.ts:43-53 | looks the id up and updates or inserts as `UpsertWorkLog` says, or reports the unknown company; invariants kept |
| Actions.Database.DeleteWorkLog | app/actions.ts:55-58 | deletes the row with the id, one row fewer when it existed |
| Actions.Database.ResetPayments | app/actions.ts:60-70 | marks every work log of the company paid |
| Actions.Database.CreateTransportLog | app/actions.ts:83-86 | inserts the trip unless its id is taken |
| Actions.Database.UpdateTransportLog | app/actions.ts:88-93 | updates the trip row as `UpdateTransportRows` says |
| Actions.Database.CreateOrUpdateTransportLog | app/actions.ts:95-118 | retargets the work log's trip or inserts, as `UpsertTransportLog` says, returning its id; keeps at most one trip per work log |
| Actions.Database.DeleteTransportLog | app/actions.ts:120-123 | the trips left are exactly those with another id |
| Actions.Database.ResetTransportPayments | app/actions.ts:125-130 | marks every trip of the company paid |
| Actions.Database.CreateTithingLog | app/actions.ts:138-141 | inserts the tithing log unless its id is taken |

## Left out

- React rendering, hook wiring and `confirm()` dialogs are not modelled. This covers the effects that copy fresh props into `ClientPage` state, and the summaries' open/closed toggles.
- The summary's one-minute refresh of `now` is not modelled. `now` is a parameter, and `None` stands for the server render.
- Persistence is not modelled:
  - the drizzle calls and `revalidatePath` (the tables are in-memory sequences);
  - the `get*` readers that map stored nulls to absent fields;
  - `page.tsx`'s local-storage load and save and its `loaded` flag.
- `crypto.randomUUID()` becomes a `freshId` parameter. Lemmas that need a new id say so in their preconditions.
- `parseFloat` on the cost text becomes an `Option<real>` parameter (`None` is `NaN`). The cost's `toString()` shown on opening becomes a `shownCost` parameter.
- Floating point is not modelled. Sums and the rounding `Math.round(x * 100) / 100` are exact on reals, so binary-representation error is not captured.
- Local time zones are not modelled: daylight-saving shifts, `getTimezoneOffset`, the time-zone shift in `formatDateKey` (its zero-padded `YYYY-MM-DD` writing is `Types.DateKeyOf`) and `toLocaleDateString`. A day is always 24 hours, and slots reach the model already named by their `YYYY-MM-DD` key.
- Earnings.CompletionInstant: gives no instant, so the log never counts, for a date that is not a ten-character `YYYY-MM-DD` key. JavaScript would still read a string like `2024-1-5`. Work-log dates are declared to be `YYYY-MM-DD`.
- Calendar dates are day numbers. The time of day a JavaScript `Date` carries through `setDate` is dropped, because no output depends on it.
- Async behaviour is not modelled:
  - each handler is one atomic step;
  - the optimistic update is not rolled back when the awaited store call fails;
  - an exception from `onSave`, which would leave the form submitting, is not modelled.
- The save button's `disabled={!cost \|\| isSubmitting}` guard is not modelled. `CostForm.Save` is the handler, which checks neither condition itself.
- Rows are returned in sequence order. SQL gives no order to `select ... where`, so "the first existing trip of a work log" is the first in the sequence. Under the one-trip-per-work-log invariant there is at most one.
- The `transport_logs` and `tithing_logs` table definitions are not part of this model. Both tables are taken to have an `id` primary key and no foreign key, cascade or default. Deleting a company therefore leaves its trips and tithes in place.
- The `location_link` default and the not-null columns need no rule, because every record type always carries those fields.
- Settlement and tithe computation is left out. No code derives tithing amounts from earnings, and tithing logs enter only through `createTithingLogAction`.
- `CompanyManager.tsx`, `WorkEntryModal.tsx` and the random colour choice are presentational and are not part of this model.
- `ClientPage` passes `onOpenTransportModal` to a calendar that does not declare it. `ClientHome.OpenTransportModal` is modelled, but nothing in `Calendar` calls it.
- `ClientHome` and `Page.Home` methods preserve one log per slot rather than establishing it. Lists loaded from the store are not guaranteed to satisfy it.
