# Shift and overtime logic of ezafehkari, verified in Dafny

ezafehkari is a small web app for shift workers at an industrial site. They use it to log
overtime. This project models the three parts of `app.js` that compute something:

- **The shift resolver** (`calculateShiftForDate`). It suggests the shift of a date from the
  user's rotation settings:
  - Day workers have Thursday and Friday off and work mornings otherwise.
  - Two-shift workers alternate morning and evening weeks, counted as whole 7-day periods
    from the reference date, rounded toward zero.
  - Four-shift and five-shift workers follow a cyclic block table (`shiftPatterns`). The
    table is calibrated by a reference date, the shift worked on that date and the day
    within that shift's block.
- **The overtime window check** (`validateOvertime`). An overtime interval is turned into
  one or two half-open hour ranges, since it may run past midnight. It must not overlap
  the working hours of the day's shift. Shemsh day workers and shemsh two-shift workers
  have their own working hours.
- **The record list** (`overtimeData`). Records are saved by date: an existing record of
  that date is replaced in place, otherwise the record is appended. Records are deleted by
  date and totalled with `calculateDuration` plus a flat shift bonus.

Modules:

| module | contents |
|---|---|
| `Calendar` | dates as day ordinals, the Jalali weekday, JavaScript's truncating remainder and week difference |
| `Settings` | shift types, worksites, patterns and the user's settings |
| `ShiftResolver` | the rotation tables, the resolver as a function, and the app's two block scans as loop methods proved equal to it |
| `ShiftProperties`, `ShiftScenarios` | what the resolver guarantees, and worked four-shift examples |
| `OvertimeValidator` | ranges, the intersection test, the working hours per shift, and the app's nested scan |
| `OvertimeProperties` | the exact set of permitted intervals per shift, and examples |
| `OvertimeRecords` | upsert and delete by date, durations, totals and bonus, and their lemmas |
| `OvertimeStore` | the record list as a class whose methods keep dates unique |

Dates are integer day ordinals. Ordinal 0 is a Saturday, so `d % 7` is the Jalali weekday
(0 = Saturday … 6 = Friday). The validator's hours are `real`, because the working hours
use half hours (7.5, 23.5, 24.5). Record hours are integers. The form's time selectors
give 1..24, and the bounds on totals are stated for records entered through the form.

## Model

| member | source | states |
|---|---|---|
| Calendar.JDay | app.js:29 | the weekday of a date lies in 0..6 |
| Calendar.JsRem | app.js:59 | JavaScript's `%`: the result has the dividend's sign, its magnitude is below the divisor, and dividend = divisor × truncated quotient + remainder |
| Calendar.JsRemCongruent | app.js:59 | JavaScript's remainder differs from the Euclidean one by a multiple of the divisor |
| Calendar.WeekDiff | app.js:36 | the week difference is the day difference divided by 7, rounded toward zero: it brackets the day difference from below for later dates and from above for earlier ones |
| Calendar.CalendarWeekDiff | app.js:36 | corrected week count, not what the app computes: the calendar-week difference times 7 is the distance between the Saturdays starting the two weeks |
| Calendar.JsRemZeroIff | app.js:38 | `weekDiff % 2 === 0` holds exactly when the week count is even, negative counts included |
| Calendar.WeekendIsWeekTail | app.js:29-30 | the weekend test holds exactly on the last two days of each Saturday-started week, and is the same whole weeks later or earlier |
| ShiftResolver.PatternTable | app.js:16-19 | only four-shift and five-shift have a rotation table; both tables are well formed (non-empty blocks of distinct shift types whose lengths sum to 12 and to 10) |
| ShiftResolver.RefDayIndex | app.js:49-57 | the reference position is 0 when no block has the reference shift; with a reference day within that shift's first block it lies inside that block's span |
| ShiftResolver.LocateFrom | app.js:61-71 | the scan from a block onward yields a day of a block, and returns null exactly when the position is at or past the end of the last block |
| ShiftResolver.Locate | app.js:61-71 | the scan from the first block returns null exactly when there are no blocks or the position is at or past the cycle's end, so every position below the cycle length, negative ones included, is found and the final `return null` is unreachable |
| ShiftResolver.CyclicShift | app.js:45-71 | over a well-formed table the cyclic branch always yields a day of a block, never null |
| ShiftResolver.TwoShiftWeekAsWritten | app.js:36-40 | the app's two-shift week is morning or evening, and any date less than 7 days from the reference date gets the reference week, where any type other than morning counts as evening |
| ShiftResolver.TwoShiftWeek | app.js:36-40 | corrected week choice, not what the app computes: morning or evening, and the whole Saturday-started reference week gets the reference week |
| ShiftResolver.Resolve | app.js:22-72 | the resolver, with the app's truncated week count for two-shift workers: a suggestion needs settings; weekend, day-work and week suggestions come only from the day patterns and weeks are morning or evening; block days come only from four-shift and five-shift, which with a reference date always give one |
| ShiftResolver.FirstOfKind | app.js:51-52 | the index found is the first block of the given shift type, or the block count when there is none |
| ShiftResolver.TargetDayIndex | app.js:59 | the moved cycle position is below the cycle length |
| ShiftResolver.FindRefDayIndex | app.js:49-57 | the accumulator loop computes the reference position: the start of the reference shift's first block plus the reference day minus one, or 0 when no block has that shift |
| ShiftResolver.ScanBlocks | app.js:61-71 | the second loop returns the first block ending beyond the position, with the 1-based day in it, and null when no block does |
| ShiftResolver.CyclicShiftForDate | app.js:45-71 | the cyclic branch gives the rotation's suggestion at the target's moved cycle position |
| ShiftResolver.CalculateShiftForDate | app.js:22-72 | the resolver method returns exactly the resolver function's result for all settings and dates, two-shift weeks by the app's truncated count included |
| ShiftProperties.LocateAt | app.js:61-69 | the scan stops at the block whose span holds the position and reports the position's day within it |
| ShiftProperties.LocateInCycle | app.js:61-69 | every position of the cycle lies in a block; the reported day is between 1 and that block's length and maps back to the position |
| ShiftProperties.TargetDayIndexIsFloorMod | app.js:59 | for a non-negative reference position, the double remainder is the floored modulo of the moved position, even for negative day differences |
| ShiftProperties.CyclicByPosition | app.js:46-59 | with reference day at least 1, a cyclic suggestion is the block holding (reference position + day difference) mod cycle length |
| ShiftProperties.CyclicDayWithinBlock | app.js:59-69 | every cyclic suggestion is a day between 1 and its block's length, at the moved cycle position |
| ShiftProperties.ReferencePosition | app.js:49-57 | when the reference day lies within the reference shift's block, the reference position lies in the cycle and is that shift at that day |
| ShiftProperties.CyclicResolvesReference | app.js:43-69 | the reference date resolves to the reference shift at the reference day |
| ShiftProperties.CyclicPeriodic | app.js:59 | dates one cycle apart, earlier or later, resolve alike |
| ShiftProperties.ResolveCyclic | app.js:43-48 | four-shift and five-shift settings with a reference date resolve through their well-formed table |
| ShiftProperties.DayPatterns | app.js:28-32 | Thursday and Friday are rest days for day workers and two-shift workers whatever the reference; other days of day workers are mornings |
| ShiftProperties.WeekDiffStep | app.js:36 | for two dates on the same side of the reference, the app's week count grows by one every 7 days |
| ShiftProperties.AsWrittenFlipsWeekly | app.js:36-40 | the app's two-shift week flips after 7 days when both dates lie on the same side of the reference date |
| ShiftProperties.TwoShiftAsResolved | app.js:34-40 | as the app resolves a two-shift working day: the week of the truncated count; the reference week within 6 days of the reference date; a flip after 7 days and a return after 14 on either side of the reference date |
| ShiftProperties.TwoShiftAlternates | app.js:36-40 | corrected week choice, not what the app computes: the calendar-week shift flips after every 7 days and returns after 14, before the reference date as well as after it |
| ShiftProperties.ResolveNoneIff | app.js:23-43 | no suggestion exactly when settings or pattern are missing, when a two-shift working day has no reference date, or when another pattern lacks a reference date or a table |
| ShiftProperties.AsWrittenAgreesFromSaturday | app.js:36-38 | with a Saturday reference, the truncated week count agrees with calendar weeks on and after the reference date |
| ShiftProperties.AsWrittenBreaksFortnight | app.js:36-38 | as written, two Sundays 14 days apart around a Saturday reference get different shifts |
| ShiftProperties.CalendarWeeksKeepFortnight | app.js:36-40 | by calendar weeks, those two Sundays get the same shift |
| ShiftScenarios.FourShiftPositions | app.js:17 | position 3 of the four-shift cycle is morning day 1, and position 11 is rest day 3 |
| ShiftScenarios.FourShiftLaterDays | app.js:59-66 | four-shift from evening day 1: 3 days later is morning day 1, and 11 days later is rest day 3 |
| ShiftScenarios.FourShiftFromEvening | app.js:43-69 | four-shift from evening day 1 at D: D, D+3, D+11, D+12 and D−12 give evening 1, morning 1, rest 3, evening 1 and evening 1 |
| OvertimeValidator.GetRanges | app.js:254-259 | an interval ending later the same day covers exactly start..end; any other covers exactly start..24.5 and 0..end, in at most two ranges |
| OvertimeValidator.WorkRanges | app.js:273-297 | only morning, evening and night have working hours, as one or two ranges inside 0..24.5; rest, holiday, shift change and unknown types have none |
| OvertimeValidator.Permitted | app.js:250-303 | rest, holiday, shift change and unknown shift types always pass |
| OvertimeValidator.RangesOverlap | app.js:261-270 | the nested scan reports an intersection exactly when some pair of ranges meets under the strict `max < min` test |
| OvertimeValidator.ValidateOvertime | app.js:250-304 | the check passes exactly when the shift has no working hours or the overtime ranges meet none of them |
| OvertimeProperties.MeetIffSharedHour | app.js:264 | the strict test holds exactly when the half-open ranges share an hour, so ranges that only touch do not conflict |
| OvertimeProperties.OverlapsIffSharedHour | app.js:261-270 | two range lists overlap exactly when some hour is covered by both |
| OvertimeProperties.PermittedIffNoSharedHour | app.js:299-303 | overtime is refused exactly when some hour of it is a working hour |
| OvertimeProperties.SameHourCoversDay | app.js:257-258 | an interval from an hour to the same hour covers every hour of 0..24.5 |
| OvertimeProperties.OverlapsSmall | app.js:261-270 | overlap of lists of one or two ranges, as a disjunction of pairs |
| OvertimeProperties.SingleWindow | app.js:254-270 | against one working range [a, b), an interval passes iff it ends by a or starts from b; a wrapped one passes iff it does both |
| OvertimeProperties.MorningPermitted | app.js:283-286 | morning outside the shemsh arrangement: the exact permitted intervals around 7..16 |
| OvertimeProperties.EveningPermitted | app.js:287-290 | evening outside the shemsh arrangement: the exact permitted intervals around 15..23.5 |
| OvertimeProperties.ShemshDayPermitted | app.js:276-280 | shemsh day workers and shemsh two-shift workers: morning and evening both use 7..15 |
| OvertimeProperties.NightPermitted | app.js:291-294 | night: the exact permitted intervals around 23..24.5 and 0..7.5 |
| OvertimeProperties.NightPermittedWithinDay | app.js:291-294 | for hours within 0..24, night overtime passes iff 7.5 ≤ start < end ≤ 23 |
| OvertimeProperties.FullDayAlwaysConflicts | app.js:254-259 | start = end always conflicts with morning, evening or night |
| OvertimeProperties.ValidatorExamples | app.js:283-294 | morning 16→18 passes and 14→18 fails; night 8→10 passes, 6→9 and 22→2 fail; evening 16→18 fails and 10→15 passes |
| OvertimeProperties.ShemshEveningExample | app.js:276-280 | a shemsh day worker's evening week allows 15→18 and refuses 6→8 |
| OvertimeRecords.IndexOfDate | app.js:324 | the index found holds the date and no earlier index does; -1 means no index holds it |
| OvertimeRecords.Upserted | app.js:324-325 | after saving, the record is in the list; the list grows by at most one; every record of another date keeps its index; nothing else is added |
| OvertimeRecords.WithoutDate | app.js:348 | deleting a date keeps exactly the records of other dates |
| OvertimeRecords.WithoutDateAppend | app.js:348 | deleting from a concatenation deletes from each part |
| OvertimeRecords.WithoutAbsentDate | app.js:348 | deleting a date no record carries changes nothing |
| OvertimeRecords.DeleteIdempotent | app.js:348 | deleting a date twice is deleting it once |
| OvertimeRecords.WithoutDateUnique | app.js:348 | deleting keeps dates unique |
| OvertimeRecords.DeleteRemovesOne | app.js:348 | under unique dates, deleting a present date removes exactly one record |
| OvertimeRecords.ReplaceSameDate | app.js:325 | replacing a record by one of the same date leaves the other dates' records as they were |
| OvertimeRecords.UpsertedKeepsOthers | app.js:324-325 | saving leaves the records of other dates the same and in order, and grows the list only for a new date |
| OvertimeRecords.UpsertedStoresRecord | app.js:324-325 | after saving, the saved record is the one found for its date |
| OvertimeRecords.UpsertedUnique | app.js:324-325 | saving keeps dates unique |
| OvertimeRecords.UpsertIdempotent | app.js:324-325 | saving the same record twice is saving it once |
| OvertimeRecords.CalculateDuration | app.js:77 | the end is reached from the start after the duration, the same day or past midnight |
| OvertimeRecords.DurationOnClock | app.js:77 | for selector hours 1..24 the duration lies in 1..24, reaches the end modulo 24, and is 24 when start equals end |
| OvertimeRecords.DurationUnique | app.js:77 | no other number of hours in 1..24 reaches the end from the start modulo 24 |
| OvertimeRecords.TotalHours | app.js:183 | with selector hours the total lies between 1 and 24 hours per record |
| OvertimeRecords.TotalHoursAppend | app.js:183 | the total of a concatenation is the sum of the totals |
| OvertimeRecords.WorkingDays | app.js:186 | the count of working-day records is positive exactly when some record is a morning, evening or night |
| OvertimeRecords.BonusHours | app.js:184-190 | the bonus is 0 or 5 hours |
| OvertimeRecords.GrandTotalBounds | app.js:183-193 | the grand total exceeds the overtime total exactly for four-shift, five-shift or shemsh settings with a morning, evening or night record; with selector hours it lies between 1 hour per record and 24 per record plus 5 |
| OvertimeRecords.BonusIff | app.js:185-189 | the bonus is paid exactly with settings of four-shift, five-shift or the shemsh complex and a morning, evening or night record |
| OvertimeStore.FindIndex | app.js:324 | the `findIndex` scan returns the first index holding the date, or -1 |
| OvertimeStore.OvertimeLog.constructor | app.js:11 | the store starts empty, with unique dates |
| OvertimeStore.OvertimeLog.Save | app.js:324-325 | the list becomes the upserted list, and dates stay unique |
| OvertimeStore.OvertimeLog.Delete | app.js:348 | the list becomes the list without the date, and dates stay unique |
| OvertimeStore.OvertimeLog.Clear | app.js:335 | the list becomes empty |
| OvertimeStore.OvertimeLog.Submit | app.js:310-331 | a missing date or an overlapping interval leaves the list unchanged and reports why; otherwise the record is upserted; dates stay unique |

## Left out

- Jalali date parsing, the Asia/Tehran time zone and the date library (`moment`,
  `jalali-moment`): dates are day ordinals, with ordinal 0 fixed as a Saturday. Invalid
  date strings are not modelled.
- localStorage load and save: the state is a plain sequence in memory.
- DOM rendering, modals, error banners, the settings form and the suggestion labels. The
  Persian labels are replaced by the `Suggestion` constructors, and `showModal` on a
  refused interval becomes the `Rejected` outcome.
- Sorting records by date for display: presentation only.
- Excel import and export, including the by-date merge of imported rows: file I/O through a
  foreign library.
- The service worker (`sw.js`): network caching with no logic to model.
- `trim()` of the successor and description fields: they are stored as given.
- ValidateOvertime: takes the settings as a parameter. The app reads a global that may be
  null. It reads the worksite from it (app.js:276) for every shift type other than rest,
  holiday and shift change, so a null value throws for morning, evening, night and unknown
  types alike; that failure is not modelled.
- The hours of a record are modelled as integers. The app keeps them as strings and converts
  them with `parseFloat` and JavaScript's coercion. Records entered through the form carry
  the selector values 1..24. Records from an Excel import carry the text before the first
  ':' of any cell (app.js:138-139). That text can be fractional, outside 1..24 or not a
  number at all, which gives a fractional or NaN duration (app.js:174, 183). The `int`
  fields of `Record` do not represent such hours.
- ShiftProperties.CyclicDayWithinBlock, CyclicByPosition and CyclicPeriodic: they require a
  reference day of at least 1. The settings form never stores less (`parseInt(...) || 1`
  at app.js:370), except for a negative number typed by hand.

## Findings

| source | as written | input that shows it | evidently intended | confidence | as-written member | corrected member |
|---|---|---|---|---|---|---|
| app.js:36-38 | the two-shift week is the parity of `diff(ref, 'weeks')`, which truncates the day difference toward zero, so the 13 days around the reference date share its shift | reference Saturday (ordinal 7) in a morning week: the Sunday before it (ordinal 1) gets morning and the Sunday two weeks later (ordinal 15) gets evening, though a weekly alternation gives both the same shift | alternate by Saturday-started calendar weeks: the week before and the week after the reference week both get the other shift | medium; not executed | ShiftProperties.AsWrittenBreaksFortnight | ShiftProperties.TwoShiftAlternates |

The resolver (`ShiftResolver.Resolve` and `ShiftResolver.CalculateShiftForDate`) keeps the
app's truncated week count, so it answers as the app does. The calendar-week choice is
`ShiftResolver.TwoShiftWeek`, with its alternation proved in
`ShiftProperties.TwoShiftAlternates`.
