# Hotel occupancy report engine, in Dafny

This project models the report engine of the hotel dashboard (`HotelDashboard.jsx`) and proves properties of it. A report runs on a date range ("DD Mon YYYY" strings), a view (daily, weekly or monthly), a room-type filter, two check boxes (include closed rooms, revenue includes tax) and the closed-room list. The React state becomes one explicit `Settings` value plus the view and the two date strings.

What the engine does, module by module:

- **Calendar.** Dates are proleptic Gregorian `Ymd(year, month 0..11, day)` triples counted by a day number. JavaScript's `new Date(y, m, d)` normalisation is modelled, including the rule that maps years 0..99 to 1900..1999. The module parses and formats "DD Mon YYYY", gives month lengths and counts the inclusive overlap of two ranges (`getDaysInRange`).
- **Rooms.** The room-type table, the filter keys of the room-type menu, and the capacity: 20 rooms for all types, 4 for one type.
- **Lcg.** The seeded generator `seed = (seed * 9301 + 49297) % 233280`. It is a class whose `seed` field the closure updates, plus pure step functions that the specification functions thread. The seeds are 123 (daily), 456 (weekly) and 789 + month index (monthly).
- **ClosedRooms.** `getUnavailableRoomCount`: how many closed-room intervals, inclusive at both ends, contain a day and match the filter.
- **Periods.** The daily date list, the Sunday-aligned week windows, and the calendar months clipped to the range.
- **Roster.** The synthesized guest records: room type and number, party size, primary adult and companions, stay dates, phone number and note.
- **Metrics.** The row of the report table, JavaScript rounding, and the rate and price tables.
- **DailyReport, WeeklyReport, MonthlyReport.** The three generators. Each is an imperative method with its loops, proved equal to a specification function whose properties are proved as lemmas.
- **ReportSummary.** `calculateSummary`: totals of the rows, and ratios recomputed from the totals.
- **Dashboard.** `getData()` and its view switch, and the guest-list lookup of a row by its label.

Two facts about the code that the model keeps as written:

- The summary adds up each row's revenue as displayed (HotelDashboard.jsx:776-778): the `toFixed(2)` string of each row, read back by `parseFloat`, not the raw amount.
- Monthly rows charge the table price with no demand surcharge, and sell the table occupancy rate with no random jitter (HotelDashboard.jsx:617-637).

One fact it corrects: monthly occupancy and RevPAR divide by the available nights with no guard (HotelDashboard.jsx:641, 736). The monthly generator of the model stores guarded ratios instead, which are 0 when no night is available, as in the daily and weekly rows. MonthlyReport.MonthRatiosAsWritten is the form as written; see Findings and "## Left out".

## Model

| member | source | states |
|---|---|---|
| Calendar.MonthLength | src/components/HotelDashboard.jsx:98-100 | A month has 28 to 31 days; February has 29 exactly in leap years |
| Calendar.GetDaysInMonthIsLength | src/components/HotelDashboard.jsx:98-100 | `new Date(year, month + 1, 0).getDate()` is the month's length, and that date is the month's last day |
| Calendar.GetMonthNumber | src/components/HotelDashboard.jsx:70-76 | A recognised abbreviation maps to a month 0..11 whose abbreviation it is |
| Calendar.GetMonthNumberOfAbbrev | src/components/HotelDashboard.jsx:70-76 | Each of the 12 abbreviations maps to its own month number |
| Calendar.FormatParseRoundTrip | src/components/HotelDashboard.jsx:65-83 | Every well-formed "DD Mon YYYY" string parses, and formatting the parsed date gives the string back |
| Calendar.ParseFormatRoundTrip | src/components/HotelDashboard.jsx:65-83 | Parsing a formatted date with a four-digit year gives the date back |
| Calendar.FormatDateInjective | src/components/HotelDashboard.jsx:79-83 | Two dates with four-digit years format alike exactly when they are equal |
| Calendar.FormatFields | src/components/HotelDashboard.jsx:79-83 | A formatted date is canonical, and its day, month and year fields are the date's |
| Calendar.Weekday | src/components/HotelDashboard.jsx:247 | `getDay()` is between 0 and 6 |
| Calendar.DaysBeforeYearClosedForm | src/components/HotelDashboard.jsx:247 | The day count behind `getDay()` is the Gregorian one: 365 days a year, plus a leap day every fourth year, less one each century, plus one every fourth century |
| Calendar.WeekdayAnchors | src/components/HotelDashboard.jsx:171-183 | 1 January 1970 is a Thursday, and the February 2025 table starts on a Saturday: day i of that month has weekday (i + 5) % 7 |
| Calendar.WeekdayShift | src/components/HotelDashboard.jsx:385-386 | Moving k days moves the weekday by k modulo 7 |
| Calendar.WeekdayWeekLater | src/components/HotelDashboard.jsx:392-406 | A date seven days later has the same weekday |
| Calendar.NextDayNumber | src/components/HotelDashboard.jsx:257 | `setDate(getDate() + 1)` moves to the next day number |
| Calendar.AddDaysNumber | src/components/HotelDashboard.jsx:257 | Adding k days moves the day number by exactly k, in either direction |
| Calendar.AddDaysSplit | src/components/HotelDashboard.jsx:392-406 | Adding j + k days is adding j days, then k |
| Calendar.DayNumberLess | src/components/HotelDashboard.jsx:196 | Date comparison: a date earlier by year, then month, then day has a smaller day number |
| Calendar.DayNumberInjective | src/components/HotelDashboard.jsx:196 | Distinct dates have distinct day numbers |
| Calendar.FirstOfNextMonth | src/components/HotelDashboard.jsx:572 | The day after a month's last day is the first of the next month, and the month spans its length in day numbers |
| Calendar.NextMonthStart | src/components/HotelDashboard.jsx:745 | `setMonth(getMonth() + 1)` on a first of month gives the next first of month, one month length later |
| Calendar.MakeFirstOfMonth | src/components/HotelDashboard.jsx:571 | `new Date(y, m, 1)` is the first of that month for years outside 0..99 |
| Calendar.DaysInRangeCounts | src/components/HotelDashboard.jsx:153-161 | `getDaysInRange` counts the days in both ranges: never negative, at most the window's length, and 0 exactly when the ranges are disjoint or one is reversed |
| Calendar.CountBothIsOverlap | src/components/HotelDashboard.jsx:153-161 | The day-by-day count of a two-range intersection is `max(0, min(ends) - max(starts) + 1)` |
| Rooms.Config | src/components/HotelDashboard.jsx:48-54 | Every type has 4 rooms on floor 1 to 5, and a guest range with at least one guest |
| Rooms.TypeIndex | src/components/HotelDashboard.jsx:45 | A type's index in `roomTypes` is in range and holds that type |
| Rooms.Capacity | src/components/HotelDashboard.jsx:215-217 | 20 rooms (5 types of 4) under 'all', the type's 4 rooms under one type |
| Rooms.LowerChar | src/components/HotelDashboard.jsx:197 | `toLowerCase` on one character: capitals move down by 32, other characters stay |
| Rooms.AsciiLowerAt | src/components/HotelDashboard.jsx:197 | The lower-cased string has each character lower-cased in place |
| Rooms.FilterKeyIsLowerName | src/components/HotelDashboard.jsx:197 | A type's filter key is its name lower-cased |
| Rooms.FilterKeyMatchesTypeName | src/components/HotelDashboard.jsx:197 | A closed room's lower-cased type equals the filter key exactly for its own type; no type key is "all" |
| Lcg.Step | src/components/HotelDashboard.jsx:220-225 | Every state after a step is below 233280 |
| Lcg.BelowBounds | src/components/HotelDashboard.jsx:266 | `Math.floor(random() * n)` is in 0..n-1 for n > 0 |
| Lcg.ScaledFloorBounds | src/components/HotelDashboard.jsx:220-225 | The integer form `(t * n) div 233280` of a state below the modulus is in 0..n-1 |
| Lcg.FloorOfScaled | src/components/HotelDashboard.jsx:220-225 | `Math.floor(t / 233280 * n)` equals `(t * n) div 233280` |
| Lcg.Chance | src/components/HotelDashboard.jsx:315 | `random() > 0.7` holds exactly when the new state exceeds 163296 |
| Lcg.ValuesInUnitInterval | src/components/HotelDashboard.jsx:220-225 | Every value of the stream from any seed lies in [0, 1) |
| Lcg.ThreadAt | src/components/HotelDashboard.jsx:261-369 | The k-th item built from one stream is drawn from the state the first k items leave |
| Lcg.Generator.constructor | src/components/HotelDashboard.jsx:227 | `seedRandom(seed)` starts at the seed |
| Lcg.Generator.Next | src/components/HotelDashboard.jsx:222-223 | `random()` advances the state one step and returns the state over the modulus, in [0, 1) |
| Lcg.Generator.Floor | src/components/HotelDashboard.jsx:266 | `Math.floor(random() * n)` is one step and an index below n |
| Lcg.Generator.Over | src/components/HotelDashboard.jsx:315 | `random() > 0.7` as one step |
| ClosedRooms.GetUnavailableRoomCount | src/components/HotelDashboard.jsx:186-210 | The counting loop returns the number of closed rooms whose interval contains the day and whose type matches, and 0 when closed rooms are not included |
| ClosedRooms.UnavailableCountBounds | src/components/HotelDashboard.jsx:186-201 | The count is between 0 and the list's length; 0 when closed rooms are excluded; under 'all' every containing interval counts |
| ClosedRooms.ClosingMembers | src/components/HotelDashboard.jsx:192-201 | A closed room is counted exactly when it is in the list, contains the day and matches the filter |
| ClosedRooms.ClosingAppend | src/components/HotelDashboard.jsx:192-201 | The counted rooms of two lists joined are the counted rooms of each |
| ClosedRooms.ClosingAll | src/components/HotelDashboard.jsx:192-201 | When every room counts, the count is the list's length |
| ClosedRooms.CountSingle | src/components/HotelDashboard.jsx:192-201 | One room counts 1 when it covers the day and matches, else 0 |
| ClosedRooms.MatchesOneType | src/components/HotelDashboard.jsx:197 | A room of type t matches the filter of type u exactly when t = u, and always matches 'all' |
| ClosedRooms.ParsesExampleEnds | src/components/HotelDashboard.jsx:164-168 | The built-in interval ends "01 Feb 2025" and "10 Feb 2025" parse to those days |
| ClosedRooms.InclusiveEnds | src/components/HotelDashboard.jsx:164-201 | Room 5's closure counts on its first and last day, not the day after; it counts for Standard, not for Deluxe; and nothing counts when closed rooms are excluded |
| Metrics.BuiltInBelowCapacity | src/components/HotelDashboard.jsx:164-168 | With the built-in list at most 3 rooms are closed on any day, fewer than any filter's capacity |
| Metrics.JsRoundBounds | src/components/HotelDashboard.jsx:448 | `Math.round(x)` is within half a unit of x, and not negative for x >= 0 |
| Metrics.JsRoundWhole | src/components/HotelDashboard.jsx:543 | `Math.round` of a whole number is that number |
| Metrics.GuestsForBounds | src/components/HotelDashboard.jsx:449 | `Math.floor(sold * 1.6)` lies between sold and 2 * sold, within one of the exact product |
| Metrics.RoundCentsClose | src/components/HotelDashboard.jsx:366 | `toFixed(2)` moves a value by at most half a cent and keeps it not negative |
| Metrics.RoundCentsOfCents | src/components/HotelDashboard.jsx:776-778 | A whole number of cents is unchanged by rounding to cents |
| Metrics.RoundCentsIdempotent | src/components/HotelDashboard.jsx:776-778 | Reading back a `toFixed(2)` string and rounding again changes nothing |
| Metrics.ShareAtMostOne | src/components/HotelDashboard.jsx:353 | A part of a positive whole no larger than it is a share in [0, 1] |
| Metrics.SoldWithin | src/components/HotelDashboard.jsx:448 | Rounding a rate in [0, 1) of the available nights (weekly line 448, monthly line 618) sells between none and all of them |
| Metrics.DailyRateBounds | src/components/HotelDashboard.jsx:347-351 | The daily rate is between 189 and 352; it is 220 or 189 under 'all'; weekends cost more |
| Metrics.WeeklyOccupancyUnclamped | src/components/HotelDashboard.jsx:442-446 | For a draw in [0, 1) the clamp never bites: the weekly rate is the base rate ± 0.05, inside [0.63, 0.87) |
| Metrics.WeeklyAdrBounds | src/components/HotelDashboard.jsx:452-456 | The weekly price is between 235 and 285, and an occupancy rate above 0.8 adds 15 |
| Metrics.MonthlyTablesBounds | src/components/HotelDashboard.jsx:602-637 | Every month's table rate is in [0.65, 0.90] and its price in [230.50, 310.25] |
| Periods.DailyDatesShape | src/components/HotelDashboard.jsx:243-258 | The daily loop lists `to - from + 1` dates (none when `to` is earlier), the k-th being `from` plus k days |
| Periods.WeekStart | src/components/HotelDashboard.jsx:385-386 | `firstSunday` is a Sunday zero to six days before the start |
| Periods.WindowsCount | src/components/HotelDashboard.jsx:392-406 | The week loop yields no window exactly when it starts after `to`, and enough 7-day windows to pass `to` |
| Periods.WindowsAt | src/components/HotelDashboard.jsx:392-406 | The i-th window starts 7 * i days after the first Sunday, on the same weekday and no later than `to`, and ends 6 days later |
| Periods.OverlapTotalFrom | src/components/HotelDashboard.jsx:423 | The windows' days in range add up to the days of the range from the first window's start |
| Periods.WeekBoundariesShape | src/components/HotelDashboard.jsx:384-427 | The first window starts on the Sunday on or before `from`; windows are consecutive 7-day spans starting no later than `to`; each overlaps the range in 0 to 7 days; in a range in order every window overlaps and the overlaps add up to the range's length; in a reversed range none overlaps |
| Periods.SetMonthAdvances | src/components/HotelDashboard.jsx:745 | `setMonth(getMonth() + 1)` always moves the cursor forward |
| Periods.MonthCursorsCount | src/components/HotelDashboard.jsx:571-578 | The month loop visits one first-of-month per calendar month from month(`from`) to month(`to`), each the next after the one before |
| Periods.LoopEnds | src/components/HotelDashboard.jsx:571-572 | `startMonth` is the first of `from`'s month and `endMonth` the last of `to`'s |
| Periods.MonthSpanOfCursor | src/components/HotelDashboard.jsx:579-589 | A month's span has the cursor's year and month, its length, the later of `from` and the month's first day as start, the earlier of `to` and its last day as end, and the clipped day count |
| Periods.MonthSpanInside | src/components/HotelDashboard.jsx:585-589 | A month lying wholly inside the range spans its whole length |
| Periods.MonthSpansShape | src/components/HotelDashboard.jsx:570-591 | One span per calendar month from month(`from`) to month(`to`), each clipped to the range with at most the month's length in days: non-empty for a range in order, empty for a reversed one |
| Periods.MonthSpansTotal | src/components/HotelDashboard.jsx:585-589 | The clipped months cover every day of the range exactly once |
| Roster.StayDates | src/components/HotelDashboard.jsx:286-290 | Check-in is the anchor moved by the offset, and check-out is `nights` days after check-in |
| Roster.TypeDrawn | src/components/HotelDashboard.jsx:274-276 | Under one type every record gets that type |
| Roster.RoomDrawn | src/components/HotelDashboard.jsx:279 | The room number is `floorStart * 100 + k` with k in 1..4 |
| Roster.PartyDrawn | src/components/HotelDashboard.jsx:282-284 | The party size lies in the type's guest range |
| Roster.NameDrawn | src/components/HotelDashboard.jsx:299 | A name is drawn from the generator's first-name and last-name pools |
| Roster.AgeDrawn | src/components/HotelDashboard.jsx:308 | A child is 1 to 17, an adult 25 to 64 |
| Roster.NoteDrawn | src/components/HotelDashboard.jsx:329-330 | A note, when drawn, is one of the pool's notes |
| Roster.PhoneDrawn | src/components/HotelDashboard.jsx:341 | A phone number has a 3-digit area, a 3-digit exchange and a 4-digit line |
| Roster.DailyStayDrawn | src/components/HotelDashboard.jsx:286-290 | A daily stay checks in on the day or up to 2 days before, for 1 to 5 nights |
| Roster.PeriodStayDrawn | src/components/HotelDashboard.jsx:483-489 | A period stay checks in at its anchor plus an offset below `daysInRange`, for 1 to the maximum nights |
| Roster.CompanionDrawn | src/components/HotelDashboard.jsx:314-323 | A companion has a pooled name; a child appears only while more than one slot remains |
| Roster.CompanionsOk | src/components/HotelDashboard.jsx:313-325 | `remainingGuests` companions are drawn, none a child in the last slot |
| Roster.PartyOk | src/components/HotelDashboard.jsx:302-325 | A party has exactly its size in occupants, and the first and last are adults |
| Roster.DailyGuestOk | src/components/HotelDashboard.jsx:273-344 | Every daily record is valid for its filter (type, room, party, occupants, phone, note), stays around its day and has id `guest-<index>-<i>` |
| Roster.PeriodGuestOk | src/components/HotelDashboard.jsx:474-539 | Every weekly or monthly record is valid; it checks in at the period's anchor plus an offset below `daysInRange`, for 1 to the maximum nights; and it has id `week-guest-…` or `month-guest-…` |
| Roster.DailyGuestsOk | src/components/HotelDashboard.jsx:273-344 | A daily roster for n sold rooms has n records, each valid |
| Roster.PeriodGuestsOk | src/components/HotelDashboard.jsx:664-729 | A period roster of n guests has n records, each valid |
| Roster.HeadcountBounds | src/components/HotelDashboard.jsx:327 | `totalGuests` is between one and six per record |
| Roster.HeadcountAppend | src/components/HotelDashboard.jsx:327 | The headcount of two rosters joined is the sum of theirs |
| Roster.Companion | src/components/HotelDashboard.jsx:315-323 | One companion draw, as the specification function |
| Roster.AddCompanions | src/components/HotelDashboard.jsx:314-325 | The `while (remainingGuests > 0)` loop adds the specified companions |
| Roster.PhoneNumber | src/components/HotelDashboard.jsx:341 | The phone draws, as specified |
| Roster.GuestNote | src/components/HotelDashboard.jsx:329-331 | The note draw, as specified |
| Roster.RoomAndType | src/components/HotelDashboard.jsx:274-279 | The type and room draws, as specified |
| Roster.DailyStay | src/components/HotelDashboard.jsx:286-290 | The daily stay draws, as specified |
| Roster.PeriodStay | src/components/HotelDashboard.jsx:483-489 | The period stay draws, as specified |
| Roster.GuestName | src/components/HotelDashboard.jsx:299 | The name draws, as specified |
| Roster.PartySize | src/components/HotelDashboard.jsx:284 | The party size draw, as specified |
| Roster.DailyRecord | src/components/HotelDashboard.jsx:274-342 | One daily record built in the source's draw order, equal to `DailyGuest` |
| Roster.PeriodRecord | src/components/HotelDashboard.jsx:475-537 | One period record built in the source's draw order, equal to `PeriodGuest` |
| Roster.DailyRoster | src/components/HotelDashboard.jsx:270-345 | The `for` loop over sold rooms builds the specified roster and `totalGuests` is its headcount |
| Roster.PeriodRoster | src/components/HotelDashboard.jsx:467-539 | The `for` loop over `numberOfGuests` builds the specified roster and leaves the stream where the specification says |
| DailyReport.DailyDataShape | src/components/HotelDashboard.jsx:239-261 | One row per day from `from` to `to` in order, none when `to` is earlier; the k-th is the row of `from` + k drawn from the state the earlier days leave |
| DailyReport.DailyRowCounts | src/components/HotelDashboard.jsx:262-266 | A day's row: its caption is the formatted date; it has that day's weekday; `availableRooms` is capacity less the unavailable count, which is shown too and is 0 when closed rooms are excluded; and `0 <= soldRooms <= availableRooms` when no more rooms are closed than the filter has (always so for the built-in list, BuiltInDailyRows) |
| DailyReport.DailyRowRoster | src/components/HotelDashboard.jsx:270-344 | The roster has `soldRooms` records, `guests` is their headcount (one to six each), and every record is valid and stays around the day |
| DailyReport.DailyRowMoney | src/components/HotelDashboard.jsx:347-355 | Revenue is the day's price times rooms sold; ADR is the price (0 when nothing sold); occupancy is sold over available (0 with none available); RevPAR is ADR times occupancy |
| DailyReport.DailyRowRatioBounds | src/components/HotelDashboard.jsx:353-355 | With a room left to sell, occupancy is a percentage and RevPAR lies between 0 and ADR |
| DailyReport.BuiltInDailyRows | src/components/HotelDashboard.jsx:262-266 | With the built-in list every day has at least one room, sells within it and has bounded ratios |
| DailyReport.DateList | src/components/HotelDashboard.jsx:239-258 | The `while (currentDate <= endDate)` loop lists the range's days |
| DailyReport.BuildDailyRow | src/components/HotelDashboard.jsx:261-369 | One `map` step: the specified row and stream state |
| DailyReport.GenerateDailyData | src/components/HotelDashboard.jsx:213-370 | The daily generator returns exactly `DailyData` |
| WeeklyReport.ClosedNightsBounds | src/components/HotelDashboard.jsx:429-435 | A week's closed room nights count only days in range: between 0 and the list's length per day, and 0 when closed rooms are excluded |
| WeeklyReport.WeekRateClamped | src/components/HotelDashboard.jsx:444-446 | The weekly rate lies in [0.5, 0.95] |
| WeeklyReport.WeekRateBounds | src/components/HotelDashboard.jsx:441-446 | The weekly rate is the base of `weekIndex % 5` ± 0.05, inside [0.63, 0.87) |
| WeeklyReport.WeekRowCounts | src/components/HotelDashboard.jsx:448-465 | A week's row shows its available nights and the rounded share its rate gives; `guests = floor(sold * 1.6)`; there is no unavailable column; and the label gets " (N days)" exactly when fewer than 7 days are in range |
| WeeklyReport.WeekRowSoldWithin | src/components/HotelDashboard.jsx:448 | A week with non-negative available nights sells between none and all of them |
| WeeklyReport.WeekRowRoster | src/components/HotelDashboard.jsx:467-539 | `min(20, guests)` records, each valid, with id `week-guest-<weekIndex>-<i>`. Each checks in within the first `daysInRange` days counted from the window's Sunday, so possibly before the range starts, and checks out 1 to 5 nights later, possibly after the window |
| WeeklyReport.WeekRowMoney | src/components/HotelDashboard.jsx:452-461 | ADR is the seasonal price (+15 above a 0.8 rate); revenue is the rounded ADR × sold, taxed; occupancy and RevPAR are shares of the available nights, 0 with none |
| WeeklyReport.WeekOccupancyBounded | src/components/HotelDashboard.jsx:546-549 | A week selling within its nights has occupancy in [0, 100], ADR in [235, 285] and non-negative revenue |
| WeeklyReport.BuiltInWeekAvailable | src/components/HotelDashboard.jsx:429-438 | With the built-in list a week keeps at least one room a day, and no more than capacity |
| WeeklyReport.WeeklyDataShape | src/components/HotelDashboard.jsx:384-556 | No row for a reversed range; otherwise one row per week boundary, in order, the k-th drawn from the state the earlier weeks leave |
| WeeklyReport.BuiltInWeeklyRows | src/components/HotelDashboard.jsx:422-550 | With the built-in list each week has rooms, sells within them and shows a percentage |
| WeeklyReport.WeekBoundaryList | src/components/HotelDashboard.jsx:384-407 | The week loop builds `WeekBoundaries` |
| WeeklyReport.ClosedNightsOf | src/components/HotelDashboard.jsx:429-435 | The day loop sums the specified closed nights |
| WeeklyReport.AdjustedRoomNights | src/components/HotelDashboard.jsx:437-438 | `(roomsPerType - avg) * daysInRange` is room nights less closed nights |
| WeeklyReport.WeekDraw | src/components/HotelDashboard.jsx:441-448 | One draw gives the week's rate and sold nights |
| WeeklyReport.WeeklyEntry | src/components/HotelDashboard.jsx:449-553 | The pushed entry is `WeekFigures` |
| WeeklyReport.WeekEntryFor | src/components/HotelDashboard.jsx:441-553 | The draw, roster and entry of a week, as `WeekRowWith` |
| WeeklyReport.BuildWeekRow | src/components/HotelDashboard.jsx:422-553 | The body of the week loop for an overlapping window, as `WeekRow` |
| WeeklyReport.WeeklyStep | src/components/HotelDashboard.jsx:422-427 | One iteration, skipped windows included, extends the rows and the stream as specified |
| WeeklyReport.GenerateWeeklyData | src/components/HotelDashboard.jsx:374-556 | The weekly generator returns exactly `WeeklyData` |
| MonthlyReport.MonthClosedNightsBounds | src/components/HotelDashboard.jsx:592-596 | A month's closed nights are between 0 and the list's length per day in range, and 0 when excluded |
| MonthlyReport.BuiltInMonthAvailable | src/components/HotelDashboard.jsx:592-599 | With the built-in list a month keeps at least one room a day in range, and no more than capacity |
| MonthlyReport.JsDivide | src/components/HotelDashboard.jsx:641 | JavaScript division gives NaN or Infinity exactly for a zero divisor, and otherwise inverts multiplication |
| MonthlyReport.MonthRatiosAgree | src/components/HotelDashboard.jsx:641 | With available nights the unguarded ratios equal the guarded ones. With none they are NaN, while the guarded ones are 0. With fewer than none (more closed nights than room nights) they are negative quotients, while the guarded ones are 0 |
| MonthlyReport.MonthRowCounts | src/components/HotelDashboard.jsx:599-646 | A month shows its available nights and the rounded share its table rate gives; `guests = floor(sold * 1.6)`; no unavailable column; the label is "<Month> <Year>", with " (N days)" exactly when fewer days than the month has are in range |
| MonthlyReport.MonthRowMoney | src/components/HotelDashboard.jsx:637-641 | ADR is the month's table price; revenue is price × sold, taxed, to the cent; occupancy and RevPAR are shares of the available nights (0 with none, in the corrected form) |
| MonthlyReport.MonthRowRoster | src/components/HotelDashboard.jsx:649-729 | `min(30, guests)` records, each valid, with id `month-guest-<monthIndex>-<i>`. Each checks in on one of the month's days in range (counted from the clipped month start) and checks out 1 to 7 nights later, possibly after the month |
| MonthlyReport.MonthRevenueNearExact | src/components/HotelDashboard.jsx:639-640 | The displayed revenue is within half a cent of the exact product, and not negative |
| MonthlyReport.MonthOccupancyBounded | src/components/HotelDashboard.jsx:736 | A month selling within its nights has occupancy in [0, 100] |
| MonthlyReport.BuiltInMonthRow | src/components/HotelDashboard.jsx:592-736 | With the built-in list a month in range has at least a room a day, sells within it and shows a percentage |
| MonthlyReport.BuiltInRatiosAsWritten | src/components/HotelDashboard.jsx:641 | With the built-in list the unguarded monthly ratios are numbers, equal to the corrected ones |
| MonthlyReport.MonthRowIndependent | src/components/HotelDashboard.jsx:585-657 | A month lying wholly inside two ranges gets the same span and the same row in both, because its stream is seeded by its month alone |
| MonthlyReport.MonthlyDataShape | src/components/HotelDashboard.jsx:570-746 | No row for a reversed range; otherwise one row per calendar month from month(`from`) to month(`to`), the k-th the row of the k-th clipped month |
| MonthlyReport.MonthSpansClipped | src/components/HotelDashboard.jsx:585-589 | Every month the loop builds is clipped to the range |
| MonthlyReport.BuiltInMonthlyRows | src/components/HotelDashboard.jsx:578-746 | With the built-in list every monthly row has rooms, sells within them and shows a percentage |
| MonthlyReport.WingClosedOnFeb1 | src/components/HotelDashboard.jsx:186-201 | With all four Standard rooms closed on 01 Feb 2025, four are unavailable on that day under the Standard filter |
| MonthlyReport.ZeroAvailableMonth | src/components/HotelDashboard.jsx:599-641 | For that list and the range 01 Feb 2025 to 01 Feb 2025 the month has 1 day and 0 available nights; the as-written ratios are not numbers; the corrected row shows 0 |
| MonthlyReport.MonthClosedNightsOf | src/components/HotelDashboard.jsx:593-596 | The day loop sums the month's specified closed nights |
| MonthlyReport.MonthAvailableOf | src/components/HotelDashboard.jsx:593-599 | `adjustedAvailableRoomNights` is the month's specified available nights |
| MonthlyReport.MonthRosterOf | src/components/HotelDashboard.jsx:649-729 | The month's own seeded stream builds the specified roster |
| MonthlyReport.MonthEntryFor | src/components/HotelDashboard.jsx:637-743 | The pushed entry is `MonthFigures`, whose occupancy and RevPAR are the guarded ratios (0 with no available night; see Left out) |
| MonthlyReport.MonthRowWithRate | src/components/HotelDashboard.jsx:617-743 | The row for a rate, as `MonthRowAt` |
| MonthlyReport.BuildMonthRow | src/components/HotelDashboard.jsx:585-743 | The body for a month with days in range, as `MonthRow` |
| MonthlyReport.MonthlyStep | src/components/HotelDashboard.jsx:579-745 | One iteration adds the month's row when it has days in range, nothing otherwise |
| MonthlyReport.GenerateMonthlyData | src/components/HotelDashboard.jsx:559-748 | The monthly generator returns exactly `MonthlyData`, whose rows carry the guarded monthly ratios (see Left out) |
| ReportSummary.SumIntAppend | src/components/HotelDashboard.jsx:768-787 | An integer `reduce` over two row lists joined is the sum of the two |
| ReportSummary.SumRealAppend | src/components/HotelDashboard.jsx:776-778 | So is a real `reduce` |
| ReportSummary.SummaryAppend | src/components/HotelDashboard.jsx:767-787 | The summary's available, occupied, revenue, guests and unavailable totals are additive over joined reports |
| ReportSummary.SummarySingle | src/components/HotelDashboard.jsx:767-787 | A one-row report sums to that row's figures, with its revenue as displayed and a missing unavailable count taken as 0 |
| ReportSummary.SummaryOccupancyBounded | src/components/HotelDashboard.jsx:789 | When no row sells more than it has, neither does the summary, and its occupancy is in [0, 100] |
| ReportSummary.SummaryNoClosedColumn | src/components/HotelDashboard.jsx:785-787 | Rows without an unavailable column total 0 unavailable rooms |
| ReportSummary.SummaryRatios | src/components/HotelDashboard.jsx:789-793 | The summary ratios come from the totals: RevPAR × available = revenue, ADR × occupied = revenue, occupancy × available = 100 × occupied, RevPAR × 100 = ADR × occupancy, each 0 with a zero denominator |
| ReportSummary.NotAveraged | src/components/HotelDashboard.jsx:789 | A fully sold 1-room row and an empty 3-room row give 25% occupancy, not the 50% mean of the row percentages |
| ReportSummary.ShownRevenueCents | src/components/HotelDashboard.jsx:776-778 | The summed displayed revenues are a whole number of cents |
| ReportSummary.SummaryRevenueWholeCents | src/components/HotelDashboard.jsx:776-801 | The summary revenue is unchanged by `toFixed(2)` |
| ReportSummary.SummaryRevenueNearExact | src/components/HotelDashboard.jsx:776-778 | The summary revenue is within half a cent per row of the exact revenues' sum |
| Dashboard.RangeOfViews | src/components/HotelDashboard.jsx:229-236 | The daily generator's `dateFrom ? parseDate(dateFrom) : null` agrees with the others' bare `parseDate` |
| Dashboard.GetDataEmpty | src/components/HotelDashboard.jsx:752-765 | Every view shows no row exactly when a date does not parse or the range is reversed |
| Dashboard.BuiltInSummaryBounded | src/components/HotelDashboard.jsx:767-793 | With the built-in list every view's summary sells within its rooms and shows occupancy in [0, 100] |
| Dashboard.MonthlySummaryNoClosed | src/components/HotelDashboard.jsx:785-787 | The monthly summary always shows 0 unavailable rooms, whatever is closed |
| Dashboard.WeeklySummaryNoClosed | src/components/HotelDashboard.jsx:785-787 | The weekly summary always shows 0 unavailable rooms, whatever is closed |
| Dashboard.FirstLabelled | src/components/HotelDashboard.jsx:1604-1611 | `find` returns the first row labelled by the key, none before it; none exactly when no row has that label |
| Dashboard.FindOwnLabel | src/components/HotelDashboard.jsx:1604-1611 | In a report of the view's kind with distinct labels, looking up a row's label finds that row |
| Dashboard.FindRowFound | src/components/HotelDashboard.jsx:1604-1611 | A found row is in the data and carries the key in the field its view reads; other views find nothing |
| Dashboard.DailyLabelsDistinct | src/components/HotelDashboard.jsx:248-251 | The daily report's dates are all different within four-digit years |
| Dashboard.DailyLookup | src/components/HotelDashboard.jsx:1604-1605 | In the daily view every row's guest list is found by its date |
| Dashboard.GenerateFor | src/components/HotelDashboard.jsx:229-236 | A generator returns no rows unless both dates parse, and then its view's report |
| Dashboard.GetData | src/components/HotelDashboard.jsx:752-765 | The view switch, with unknown views going daily, returns `GetDataOf` |

## Left out

- Rendering, the calendar widget, export handlers, scroll effects, `alert` and `console.log` are left out. They are UI, DOM or console output with nothing to compute.
- The handlers that call `getData()` (`handleRunReport`, the filter effect) are left out. They only store its result and the summary in React state.
- The "Total Guests" footer of the guest-list modal is left out. It reads the `guests` of the row `FindRow` finds.
- Numbers are exact reals, and `Math.round`/`Math.floor` are exact floors. IEEE-754 rounding of the ×1.6 and ×1.1 factors, the rate tables and the ratios is not modelled.
- `toFixed` is presentation. Rows hold the numbers it formats. It is modelled only where the code reads a formatted value back: the summary's `parseFloat(item.revenue)`, and the monthly revenue that RevPAR divides.
- AdjustedRoomNights does not model the rounding of the weekly `avgUnavailableRoomsPerDay`. `(roomsPerType - total / days) * days` is taken as the exact integer `roomsPerType * days - total`, so the weekly `Math.round(adjustedAvailableRoomNights)` is the identity.
- `weekBoundaries.indexOf(week)` is modelled as the window's position. The windows are distinct objects, so the two agree.
- `getDaysInRange` counts calendar days. The millisecond difference in the source can lose a day across a daylight-saving change; that is not modelled.
- Calendar.ParseDate accepts only the canonical "DD Mon YYYY" form. JavaScript also builds dates from looser strings, such as one-digit days or extra fields; those strings give no date here.
- An Invalid Date's truthiness is not modelled. In the source such a date passes the empty-range guard and every loop then ends at once, so the report is empty either way.
- Dashboard.GetDataEmpty, MonthlyReport.MonthlyDataShape and the monthly lemmas assume years of at least 100. The monthly loop builds dates with `new Date(y, m, d)`, which maps years 0..99 to 1900..1999. Daily label distinctness assumes four-digit years, because `formatDate` does not pad shorter years.
- Weekly and monthly label distinctness is not proved. Dashboard.FindOwnLabel covers any report whose labels differ, but only the daily labels are proved distinct.
- Guest names, phone numbers and notes are indices drawn into fixed pools, not strings.
- MonthlyReport.MonthEntryFor, MonthlyReport.MonthRow and MonthlyReport.GenerateMonthlyData store the guarded monthly ratios. With 0 or fewer available nights their occupancy and RevPAR are 0, where the source (HotelDashboard.jsx:641, 736) shows NaN (0 / 0, since nothing is sold) or a negative quotient. MonthlyReport.MonthRatiosAgree relates the two forms. The built-in closed-room list never reaches that case (MonthlyReport.BuiltInRatiosAsWritten).

## Findings

| source | as written | input that shows it | evidently intended | confidence | as-written member | corrected member |
|---|---|---|---|---|---|---|
| src/components/HotelDashboard.jsx:641 | Monthly `revPAR` and `occupancyPercentage` (line 736) divide by `adjustedAvailableRoomNights` with no guard, giving NaN with zero available nights, and negative ratios (where the daily and weekly rows show 0) when more nights are closed than there are room nights | all four Standard rooms closed on 01 Feb 2025, Standard filter, closed rooms included, range 01 Feb 2025 to 01 Feb 2025: 4 × 1 − 4 = 0 available nights | 0 when no night is available, as the daily (353–354) and weekly (460–461, 546–547) rows guard | not executed; the built-in closed-room list never reaches it (MonthlyReport.BuiltInRatiosAsWritten) | MonthlyReport.MonthRatiosAsWritten, shown by MonthlyReport.ZeroAvailableMonth | MonthlyReport.MonthRatios, used by MonthlyReport.MonthRow, with MonthlyReport.MonthRowMoney and MonthlyReport.MonthRatiosAgree |
