# Periodical: a verified model of the shift-schedule and pay engine

Periodical schedules ten rotating positions and computes their pay under
Swedish rules. This project models the engine's core in Dafny and proves
properties about it:

- **Holidays** (`Holidays`, `HolidaysOb`, `OnCallRules`): Easter by the
  anonymous Gregorian computus, the feasts at fixed offsets from it, the
  fixed-date holidays, the first weekday after a date, and the OB4/OB5 and
  on-call rule blocks generated from them.
- **Interval overlays** (`Intervals`, `Ob`, `OnCall`, `OnCallPay`): rules
  are visited in priority order, and each may only claim the parts of its
  windows that no earlier rule has claimed. The OB engine cuts a shift at
  every midnight; the on-call engine pays a day, a period or a month.
- **Rotation and time text** (`ScheduleCore`, `TimeText`): the rotation
  week and the shift of a date, the span of a shift, and the `HH:MM` and
  `HH:MM:SS` parsers.
- **Day resolution and aggregation** (`Period`, `Summary`, `SummaryYear`,
  `SummaryGrid`, `Overtime`, `Storage`): the precedence that decides a day,
  the on-call pay split around overtime, the month, year and calendar-grid
  summaries, the overtime formula, and the tax-bracket lookup.
- **Vacation and transition** (`Vacation`, `Transition`): vacation-year
  bounds, pro-rated days, the five-year saved-days window, the year-end
  split, the consultant's earning year and the months of a period.
- **Small utilities** (`Cowork`, `Rates`, `Helpers`, `Utils`,
  `Validators`, `AuthRoutes`, `Profile`): co-working counts, per-user rate
  history, salary stripping, navigation dates, request validation, safe
  redirects, and the profile forms.

Supporting modules are `Wrappers` (Option and Result), `Calendar`
(proleptic Gregorian dates as ordinals, and ISO 8601 week dates), `Digits`
(how Python's `str.isdigit()` and `int()` read digits of every script, from
the Unicode 15.0 tables), `Arith`,
`Sorting` (Python's stable `sorted` with `reverse=True`), `Models` (the
configuration records) and `Users` (the user row).

Modelling conventions:

- A date is its ordinal, as `date.toordinal()` gives it.
- An instant is a date times 86400 plus seconds.
- Times of day are in whole seconds, because overtime times may carry
  seconds.
- Money is `real`.
- Database rows, configuration files, today's date and the current time
  are parameters.
- Code that changes state in place is modelled that way:
  - `Summary.MonthTotals`, `Vacation.User`, `Rates.RateStore`,
    `Users.User` and `Profile.VacationLedger` are classes whose methods
    update fields;
  - loops are methods, each proved equal to a function that the lemmas
    talk about.

## Model

| member | source | states |
|---|---|---|
| Arith.CeilDiv | app/core/schedule/transition.py:75 | `math.ceil(a / b)` for a positive divisor, exactly: the least r with a <= r·b |
| Sorting.SortDescSorted | app/core/oncall.py:439 | `sorted(..., key, reverse=True)` orders by key, largest first, and is a permutation of its input |
| Sorting.KeepsOrderWithinKey | app/core/schedule/ob.py:68 | the sort is stable: elements with the same key keep their input order |
| Intervals.Overlap | app/core/schedule/ob.py:75-80 | the overlap of a rule window with the day segment exists exactly when max of starts < min of ends, and lies inside both |
| Intervals.OverlapContains | app/core/schedule/ob.py:75-80 | an instant is in the overlap exactly when it is in the window and in the segment |
| Intervals.SortByTupleSorted | app/core/schedule/ob.py:275 | `sorted(covered)` orders the tuples by start, ties by end, and keeps the same intervals |
| Intervals.SortByStartSorted | app/core/oncall.py:376-377 | `sorted(covered, key=start)` orders by start and keeps the same intervals |
| Intervals.GapsSpec | app/core/schedule/ob.py:266-284 | the cursor walk yields non-empty, ordered pieces inside [start, end) holding exactly the instants no covered interval holds |
| Intervals.SubtractSpec | app/core/oncall.py:354-401 | both subtraction routines return non-empty ordered pieces of a non-empty span that hold exactly the uncovered instants |
| Intervals.FlattenSpec | app/core/schedule/ob.py:72-73 | the rule windows are visited rule by rule in priority order, each paired with its rule's position |
| Intervals.OverlaySound | app/core/schedule/ob.py:72-87 | the "first claim wins" loop gives claims that are pairwise disjoint, inside their own rule's window, never over time a higher-priority rule could claim, and together cover every window instant |
| Intervals.DisjointLengthBound | app/core/schedule/ob.py:84-87 | the claimed pieces of one segment add up to at most its length: no time is counted twice |
| Intervals.FullCoverLength | app/core/oncall.py:447-486 | pieces that are disjoint and cover the whole span add up to exactly its length |
| Holidays.EasterSunday | app/core/holidays.py:5-21 | the computus lands 0..34 days after 22 March of the same year |
| Holidays.EasterSundayRange | app/core/holidays.py:5-21 | Easter Sunday falls between 22 March and 25 April |
| Holidays.EasterIsSunday | app/core/holidays.py:5-21 | the computed date is a Sunday in every year |
| Holidays.Easter2008 | app/core/holidays.py:5-21 | in 2008 the computus gives 23 March |
| Holidays.Skartorsdagen | app/core/holidays.py:68-70 | Skärtorsdagen, three days before Easter, is a Thursday |
| Holidays.Langfredagen | app/core/holidays.py:98-100 | Långfredagen, two days before Easter, is a Friday |
| Holidays.Annandagpask | app/core/holidays.py:73-75 | Annandag påsk is a Monday |
| Holidays.KristiHimmelsfardsdag | app/core/holidays.py:63-65 | Kristi himmelsfärds dag, 39 days after Easter, is a Thursday |
| Holidays.Pingstafton | app/core/holidays.py:78-80 | Pingstafton, 48 days after Easter, is a Saturday |
| Holidays.AscensionRange | app/core/holidays.py:63-65 | Kristi himmelsfärd lies between 30 April and 3 June |
| Holidays.NewYearFollowsEve | app/core/holidays.py:88-95 | New Year's Day is the day after the previous year's New Year's Eve |
| Holidays.FirstOnOrAfter | app/core/holidays.py:24-37 | the first day on or after a date with a given weekday: that weekday, at most six days on, none before it qualifies |
| Holidays.AllaHelgonsDagRange | app/core/holidays.py:24-29 | Alla helgons dag is the Saturday from 31 October to 6 November |
| Holidays.MidsommaraftonRange | app/core/holidays.py:32-37 | Midsommarafton is the Friday from 19 to 25 June |
| Holidays.StepToWeekday | app/core/holidays.py:26-29 | the day-by-day `while` loop stops at the first day with the wanted weekday |
| Holidays.FindAllaHelgonsDag | app/core/holidays.py:24-29 | the loop of `alla_helgons_dag` returns the Saturday on or after 31 October |
| Holidays.FindMidsommarafton | app/core/holidays.py:32-37 | the loop of `midsommarafton` returns the Friday on or after 19 June |
| Holidays.FirstWeekdayAfter | app/core/holidays.py:40-45 | the next Monday–Friday strictly after a date: at most three days on, skipping only Saturdays and Sundays |
| Holidays.FindFirstWeekdayAfter | app/core/holidays.py:40-45 | the `while` loop of `first_weekday_after` returns that day |
| Holidays.HolidayDatesOrder | app/core/holidays.py:103-116 | the OB4 holidays in calendar order; only Kristi himmelsfärd moves between them |
| Holidays.HolidayDatesCount | app/core/holidays.py:103-116 | the holiday set has five dates, four when Kristi himmelsfärd falls on 1 May |
| Holidays.AscensionOnMayDay2008 | app/core/holidays.py:103-116 | 2008 is such a year: the set has four dates |
| HolidaysOb.BlockCoversDays | app/core/schedule/holidays_ob.py:78-108 | a block holds one rule per date from its start up to, not including, its end, and no other date |
| HolidaysOb.BlockShape | app/core/schedule/holidays_ob.py:93-106 | every rule of a block has the block's code and rate, one date and end "24:00"; only the first starts at the block's start time, the rest at "00:00" |
| HolidaysOb.EmitBlock | app/core/schedule/holidays_ob.py:93-106 | the `while day < end` loop emits exactly that block |
| HolidaysOb.HolidayIntervalLength | app/core/schedule/holidays_ob.py:78-108 | a holiday block runs from the holiday at its start time through the first weekday after it: one to three days |
| HolidaysOb.BuildHolidayInterval | app/core/schedule/holidays_ob.py:78-108 | `_build_holiday_interval` returns that block |
| HolidaysOb.EveBlockSpan | app/core/schedule/holidays_ob.py:111-141 | an eve block runs from 07:00 on the eve through the last holiday and at most three days past it |
| HolidaysOb.BuildEveBlock | app/core/schedule/holidays_ob.py:111-141 | `_build_eve_block` returns that block |
| HolidaysOb.NewYearBlockSpan | app/core/schedule/holidays_ob.py:144-190 | a New Year block begins at 18:00 on 31 December and covers 1 January |
| HolidaysOb.NewYearsRulesSpan | app/core/schedule/holidays_ob.py:144-190 | the New Year rules cover the previous year's New Year and, from a later index, this year's |
| HolidaysOb.BuildNewYearsRules | app/core/schedule/holidays_ob.py:144-190 | the two loops of `_build_new_years_rules` return those rules |
| HolidaysOb.BuildOb4Blocks | app/core/schedule/holidays_ob.py:42-43 | the loop over the OB4 holidays concatenates their blocks in order |
| HolidaysOb.FindOb4Holidays | app/core/schedule/holidays_ob.py:34-40 | the five OB4 holidays, each from 07:00 |
| HolidaysOb.BuildOb5Blocks | app/core/schedule/holidays_ob.py:45-73 | the OB5 blocks: Skärtorsdag from 18:00, Långfredag and Annandag påsk from 00:00, New Year, Pingst, Midsommar and Jul eve blocks |
| HolidaysOb.BuildSpecialObRulesForYear | app/core/schedule/holidays_ob.py:24-75 | the year's holiday rules are the OB4 blocks followed by the OB5 blocks |
| HolidaysOb.SpecialObRulesShape | app/core/schedule/holidays_ob.py:24-75 | every holiday rule is OB4 at rate 300 or OB5 at rate 150, for one date, from a valid time to "24:00" |
| Ob.SortByPriorityOrder | app/core/schedule/ob.py:68 | sorting by priority keeps the rules, puts OB5 before all others and OB4 before the rest, and keeps list order among equal priorities |
| Ob.RulesForDate | app/core/schedule/ob.py:212-241 | the day's rules are exactly the rules that match the date by weekday, by specific date or by date list, in list order |
| Ob.SelectRulesForDate | app/core/schedule/ob.py:212-241 | the loop of `_select_rules_for_date` returns those rules |
| Ob.RuleWindow | app/core/schedule/ob.py:244-263 | a rule's window starts on the date at its start time; "24:00" ends it at the next midnight, any other end time on the same date |
| Ob.BackwardsWindowIsSkipped | app/core/schedule/ob.py:78-79 | a window whose end time is not after its start time contributes nothing |
| Ob.SubtractCovered | app/core/schedule/ob.py:266-284 | the loop of `_subtract_covered` returns the uncovered pieces of [start, end) |
| Ob.Add | app/core/schedule/ob.py:86 | `ob_totals[code] += x` adds the key if missing, raises that code's total by x and leaves every other code alone |
| Ob.AddAdd | app/core/schedule/ob.py:86 | two additions to one code are one addition of their sum |
| Ob.DayItems | app/core/schedule/ob.py:72-80 | the day's clipped windows are non-empty, in priority order, and include every rule whose window meets the segment |
| Ob.DayRunIsOverlay | app/core/schedule/ob.py:70-87 | the time a day pays is exactly the "first claim wins" overlay of its clipped windows |
| Ob.DayClaims | app/core/schedule/ob.py:70-87 | per rule position: claims are disjoint, inside their own rule's window, never inside the window of a higher-priority rule, and cover every instant some window reaches |
| Ob.DayPriority | app/core/schedule/ob.py:70-87 | the priority rule of a day: each piece of time is paid to exactly one rule, the first in priority order whose window holds it |
| Ob.DayTotalsArePaidClaims | app/core/schedule/ob.py:84-87 | each code's seconds on a day are the lengths of the claims paid to rules of that code |
| Ob.Codes | app/core/schedule/ob.py:55 | the keys of `ob_totals` are the codes of the rules, each once |
| Ob.DayRunTotals | app/core/schedule/ob.py:72-87 | over a day the keys only grow, no total shrinks, and the totals grow together by exactly the time newly paid |
| Ob.SegmentEnd | app/core/schedule/ob.py:59-64 | each segment ends at the next midnight or the shift's end, strictly after the current instant |
| Ob.DayRules | app/core/schedule/ob.py:67-68 | the rules of a day are those matching it, highest priority first |
| Ob.ObHours | app/core/schedule/ob.py:34-91 | `calculate_ob_hours` as a value; its contract is stated by `Ob.ObHoursSpec` |
| Ob.ObHoursSpec | app/core/schedule/ob.py:34-91 | `calculate_ob_hours` has a key for every code and no other, no negative total, all zero for a missing or empty shift, and the totals add up to at most the shift's length |
| Ob.PayPieces | app/core/schedule/ob.py:84-87 | the inner loop adds the lengths of the uncovered pieces to the rule's code and appends them to `covered` |
| Ob.ProcessDay | app/core/schedule/ob.py:72-87 | the loop over one day's sorted rules computes that day's totals |
| Ob.CalculateObHours | app/core/schedule/ob.py:34-91 | the `while current < end_dt` loop computes the totals the day-by-day specification defines |
| Ob.ObPay | app/core/schedule/ob.py:114-123 | the pay dict has one key per code of the rules |
| Ob.ObPayLastRuleWins | app/core/schedule/ob.py:114-121 | where several rules share a code, the last of them decides that code's pay |
| Ob.ObPayFromSomeRule | app/core/schedule/ob.py:114-121 | every entry is the pay of some rule of that code |
| Ob.ObPaySigns | app/core/schedule/ob.py:114-121 | no OB time gives zero pay; a non-negative salary and rates give no negative pay |
| Ob.PayPerRule | app/core/schedule/ob.py:114-121 | the `for rule in rules` loop computes that dict |
| Ob.PayForRule | app/core/schedule/ob.py:115-121 | one rule's pay is its hours times salary / rate, and 0 for a zero rate or no hours |
| Ob.CalculateObPay | app/core/schedule/ob.py:94-123 | `calculate_ob_pay` is the per-rule pay of the shift's hours |
| Ob.CombinedRulesShape | app/core/schedule/ob.py:29-31 | the combined list starts with the base rules; every later rule is an OB4 or OB5 holiday rule |
| Ob.CombinedRulesWellFormed | app/core/schedule/ob.py:29-31 | holiday rules have well-formed times, so the combined rules do when the base rules do |
| OnCallRules.AddBlock | app/core/oncall.py:114-117 | one `while d < end` loop adds exactly the dates of [from, end) |
| OnCallRules.StorhelgDatesFor | app/core/oncall.py:101-159 | the storhelg loops produce the union of the Christmas, New Year, Easter, Midsummer and Pentecost blocks, each ending at the first weekday after it |
| OnCallRules.RegularHolidaysOf | app/core/oncall.py:197 | the holidays that are not storhelg are the OB4 holidays that no storhelg block reaches |
| OnCallRules.RegularHolidays | app/core/oncall.py:57-98 | the on-call holiday set minus the storhelg dates equals the OB4 holiday set minus them |
| OnCallRules.SortedSet | app/core/oncall.py:179 | `sorted(s)` lists each date of the set once, in increasing order |
| OnCallRules.BuildOncallRules | app/core/oncall.py:171-223 | the loops of `build_oncall_rules_for_year` produce the assembled rule list |
| OnCallRules.AppendSpecial | app/core/oncall.py:179-195 | one OC_SPECIAL rule per storhelg date, in date order |
| OnCallRules.AppendRegular | app/core/oncall.py:198-221 | for each regular holiday its OC_HOLIDAY rule, then the eve rule when the eve qualifies |
| OnCallRules.BuildOncallRulesForYear | app/core/oncall.py:161-223 | `build_oncall_rules_for_year` for a year |
| OnCallRules.RegularRulesShape | app/core/oncall.py:198-221 | every regular holiday gets its rule, every eligible eve its eve rule, and nothing else is emitted |
| OnCallRules.AssembleSpec | app/core/oncall.py:161-223 | base rules first and unchanged; every storhelg date its OC_SPECIAL rule; every other holiday its OC_HOLIDAY rule, and its eve an OC_HOLIDAY_EVE rule exactly when the eve is neither holiday nor storhelg |
| OnCallRules.SpecialRulesShape | app/core/oncall.py:179-195 | every storhelg date has its OC_SPECIAL rule and those are all the rules emitted |
| OnCallRules.PreviousEveNeverStorhelg | app/core/oncall.py:180 | the `nyarsafton(year - 1)` case of the 18:00 start never applies: that date is never a storhelg date of the year |
| OnCall.RulesForDate | app/core/oncall.py:231-264 | the rules that apply to a date are exactly those matching its weekday or listing the date, in list order |
| OnCall.SelectOncallRulesForDate | app/core/oncall.py:251-264 | the loop of `_select_oncall_rules_for_date` returns those rules |
| OnCall.OcWindow | app/core/oncall.py:290-341 | a rule's window on a date starts at its start time; "24:00" ends it at the next midnight, a rule spanning midnight ends on the next day, any other later on the same day; it is never empty |
| OnCall.LastDay | app/core/oncall.py:305-309 | the last date examined is the date of the shift's last instant: a shift ending exactly at midnight stops the day before |
| OnCall.IntervalsBetweenSpec | app/core/oncall.py:311-350 | the date loop yields non-empty pieces inside the shift holding exactly the shift instants in the window of an applying date |
| OnCall.RuleIntervalsSpec | app/core/oncall.py:273-352 | a rule's intervals in a shift are non-empty, inside the shift, and hold exactly the instants of the shift lying in the window of an applying date from the shift's first date on |
| OnCall.ClipForDate | app/core/oncall.py:313-348 | the body for one date gives the clipped window when the rule applies and the clip is not empty |
| OnCall.GetRuleIntervalsForShift | app/core/oncall.py:273-352 | the `while current_date <= end_date` loop computes the rule's intervals |
| OnCall.ClipDates | app/core/oncall.py:311-350 | the loop over the dates appends one clipped window per applying date |
| OnCall.SubtractCoveredOncall | app/core/oncall.py:354-401 | the whole span when nothing is covered, else the cursor walk over the covered intervals sorted by start |
| OnCall.WalkGaps | app/core/oncall.py:379-399 | the cursor walk, leaving the loop once the cursor reaches the end, yields the gaps |
| OnCallPay.SortByPriorityOrder | app/core/oncall.py:439 | sorting keeps every rule, puts higher priorities first and keeps list order among equal priorities |
| OnCallPay.ItemsOfShift | app/core/oncall.py:447-453 | the items the pay loop visits are in rule order, non-empty, and exactly the rules' intervals |
| OnCallPay.ClaimsInOwnRule | app/core/oncall.py:447-486 | each claim lies in an interval of its own rule, inside the shift |
| OnCallPay.ClaimsYieldToEarlier | app/core/oncall.py:447-486 | no instant of a claim is covered by a rule earlier in priority order |
| OnCallPay.ClaimsComplete | app/core/oncall.py:447-486 | every instant that some rule's intervals cover is claimed |
| OnCallPay.FindCode | app/core/oncall.py:465 | the lookup of a code in the breakdown finds its entry, or reports that none has it |
| OnCallPay.CreditCodes | app/core/oncall.py:465-473 | crediting keeps one entry per code and adds the rule's code to the codes present |
| OnCallPay.CreditTotals | app/core/oncall.py:472-473 | crediting adds the piece's seconds and pay to the breakdown totals |
| OnCallPay.RawSegments | app/core/oncall.py:476-483 | one segment per claim, in claim order, with the claim's start, end, code, rate and pay |
| OnCallPay.BreakdownCodes | app/core/oncall.py:465-473 | the breakdown has one entry per code |
| OnCallPay.BreakdownSeconds | app/core/oncall.py:489-490 | the breakdown's seconds add up to the total length of the claims |
| OnCallPay.BreakdownMatchesSegments | app/core/oncall.py:472-483 | the breakdown's seconds and pay add up to the segments' seconds and pay |
| OnCallPay.BreakdownFromRules | app/core/oncall.py:466-471 | every breakdown entry carries the code, rate and label of one of the rules |
| OnCallPay.GeneratedRulesOk | app/core/oncall.py:161-223 | the rules built for a year are well formed and have non-zero rates when the base rules do |
| OnCallPay.CreditEntry | app/core/oncall.py:465-473 | `breakdown[rule.code]` is created on first use, then its hours and pay are increased |
| OnCallPay.CreditPieces | app/core/oncall.py:455-486 | the loop over the uncovered pieces pays each to the rule and marks it covered |
| OnCallPay.CreditPiece | app/core/oncall.py:456-486 | one piece: seconds and pay credited, a segment recorded, the piece marked covered |
| OnCallPay.ClaimRule | app/core/oncall.py:447-486 | one pass of the rule loop pays the rule its intervals minus what is covered |
| OnCallPay.CalculateOncallPay | app/core/oncall.py:404-507 | `calculate_oncall_pay` computes the day from 00:00 to the next 00:00 with the given rules, or the year's rules when none are given |
| OnCallPay.OncallDay | app/core/oncall.py:404-507 | `calculate_oncall_pay` as a value; its contract is stated by `OnCallPay.OncallDayIsTally`, `OnCallPay.OncallDayTotals`, `OnCallPay.OncallDaySegments` and `OnCallPay.OncallDayComplete` |
| OnCallPay.OncallDayIsTally | app/core/oncall.py:439-490 | a day's pay is the tally of the claims of its rules in priority order |
| OnCallPay.OncallDayTotals | app/core/oncall.py:489-507 | at most 24 hours are paid, one breakdown entry per code with a rule's code, rate and label, and the totals equal the segments' sums |
| OnCallPay.OncallDayFullCover | app/core/oncall.py:423 | when the rules hold every instant of the day, the whole 24 hours are paid |
| OnCallPay.OncallDaySegments | app/core/oncall.py:476-506 | the segments are sorted by start, do not overlap, lie inside the day, and each is paid by the highest-priority rule holding it |
| OnCallPay.OncallDayComplete | app/core/oncall.py:447-486 | every instant some rule holds lies in a segment: nothing a rule holds goes unpaid |
| OnCallPay.SegmentSumsPermutation | app/core/oncall.py:506 | sorting the segments keeps their total seconds and pay |
| OnCallPay.ApplicableRules | app/core/oncall.py:546-554 | the rules collected over the period are rules of the list |
| OnCallPay.UniqueByCodeSpec | app/core/oncall.py:557-562 | deduplication keeps exactly the first rule of each code, in order, and loses no code |
| OnCallPay.UniqueCodes | app/core/oncall.py:557-562 | deduplication loses no code |
| OnCallPay.OncallPeriod | app/core/oncall.py:509-617 | `calculate_oncall_pay_for_period` as a value; its contract is stated by `OnCallPay.OncallPeriodSpec` |
| OnCallPay.OncallPeriodSpec | app/core/oncall.py:509-617 | an empty or reversed period pays nothing; otherwise the reported hours are the whole period, at most that is paid, one entry per code, and the total is the breakdown's pay |
| OnCallPay.PeriodPieces | app/core/oncall.py:588-607 | the period's loop over uncovered pieces credits each to the rule |
| OnCallPay.PeriodPiece | app/core/oncall.py:590-607 | one piece is credited, added to the running total and marked covered |
| OnCallPay.PeriodClaimRule | app/core/oncall.py:572-607 | one pass of the period's rule loop, with the intervals clamped to the period |
| OnCallPay.CollectApplicable | app/core/oncall.py:546-554 | the `while current_date <= end_date` loop collects the rules selected for each date |
| OnCallPay.RemoveDuplicateCodes | app/core/oncall.py:557-562 | the `seen_codes` loop keeps the first rule of each code |
| OnCallPay.PayPeriodRules | app/core/oncall.py:568-607 | the period's rule loop computes the breakdown and a running total equal to its pay |
| OnCallPay.CalculateOncallPayForPeriod | app/core/oncall.py:509-617 | `calculate_oncall_pay_for_period` computes the period's pay as specified |
| OnCallPay.MonthDates | app/core/oncall.py:644 | the dates paid are exactly those in the given year and month |
| OnCallPay.MonthShiftsSpec | app/core/oncall.py:643-647 | one shift per date of the month, in order, each the day's pay under the year's rules |
| OnCallPay.OncallMonth | app/core/oncall.py:620-655 | `calculate_oncall_pay_for_month` as a value; its contract is stated by `OnCallPay.OncallMonthSpec` |
| OnCallPay.OncallMonthSpec | app/core/oncall.py:620-655 | the month reports one shift per date of the month, and the total is the sum of their pays |
| OnCallPay.CalculateOncallPayForMonth | app/core/oncall.py:620-655 | `calculate_oncall_pay_for_month` computes that month |
| OnCallPay.PayMonthDates | app/core/oncall.py:643-647 | the `for date in oncall_dates` loop collects the shifts and their total |
| ScheduleCore.ShiftIndex | app/core/schedule/core.py:98 | the position of the first shift type with the code, or none when no type has it |
| ScheduleCore.FindShiftType | app/core/schedule/core.py:98 | `next(...)` returns a shift type with the code, and None exactly when none has it |
| ScheduleCore.FirstMondaySpec | app/core/schedule/core.py:82-86 | the fallback branch never runs; the first Monday is the first Monday on or after the rotation start |
| ScheduleCore.RotationWeek | app/core/schedule/core.py:94 | the rotation week is in 1..rotation_length |
| ScheduleCore.DetermineShift | app/core/schedule/core.py:60-99 | no shift before the rotation start; otherwise the week is in range and the shift is the configured type of the pattern's code for that weekday |
| ScheduleCore.WeekAdvancesOnMonday | app/core/schedule/core.py:86-93 | the weeks passed advance by one exactly on Mondays |
| ScheduleCore.WeeksPassedCycle | app/core/schedule/core.py:86-93 | a whole cycle of weeks later the weeks passed grow by the cycle length |
| ScheduleCore.RotationPeriodic | app/core/schedule/core.py:86-99 | 7·L days later the rotation week and the shift are the same |
| ScheduleCore.StartWeeksDistinct | app/core/schedule/core.py:94 | on any date, different start weeks give different rotation weeks |
| ScheduleCore.StartWeeksCover | app/core/schedule/core.py:94 | every rotation week is reached by some start week: the start weeks permute the weeks |
| ScheduleCore.StartDateWeek | app/core/schedule/core.py:82-94 | a start on a Monday is already in week start_week + 1; any other start day is in week start_week |
| ScheduleCore.ShiftHoursForCode | app/core/schedule/core.py:103-124 | the configured type's times placed on the date, an end not after the start rolling to the next day; none for an unknown code |
| ScheduleCore.ShiftHours | app/core/schedule/core.py:127-154 | nothing for no shift or "OFF", otherwise the lookup by code |
| ScheduleCore.ShiftHoursSpec | app/core/schedule/core.py:103-154 | a shift object is looked up by its code; an unknown code gives no span; a known one starts on the date and ends the same or the next day |
| Storage.TaxBracketFor | app/core/storage.py:167-179 | the preliminary tax of the first bracket whose upper bound is missing or reaches the income; 0.0 when none does |
| Storage.FirstCoveringExists | app/core/storage.py:176-178 | if some bracket covers the income, a first one does |
| Storage.OpenBracketDecides | app/core/storage.py:176-179 | an open-ended bracket means the 0.0 default is never returned |
| Storage.LaterBracketsIgnored | app/core/storage.py:176-178 | brackets after the first covering one never change the result |
| Digits.ClassOf | app/routes/profile.py:351 | the digit class of a character from the Unicode 15.0 tables: ASCII '0'..'9' are the decimals 0..9, and a decimal's value is at most 9 |
| Digits.SymbolOf | app/routes/profile.py:351 | a character is a digit symbol exactly when it is a decimal digit, with its value, and the separator exactly when it is '_' |
| Digits.Symbols | app/routes/profile.py:351 | one symbol per character, in order |
| Digits.SymbolsAppend | app/routes/profile.py:351 | the symbols of joined text are the joined symbols |
| Digits.Lead | app/core/oncall.py:270 | the symbols before the last digit, without the one underscore that may end them |
| Digits.ReadSymbols | app/core/oncall.py:270 | a run of symbols reads as a number only when it starts and ends with a digit |
| Digits.ReadDecimal | app/core/oncall.py:270 | `int()` of the digit part reads a number only from text that starts and ends with a decimal digit |
| Digits.LeadJoin | app/core/oncall.py:270 | symbols in front do not change the lead |
| Digits.DigitSamples | app/routes/profile.py:351 | the Arabic-Indic three is the decimal 3; the superscript two is a digit that is not decimal; '_' is no digit |
| Digits.UnderscoreSamples | app/core/oncall.py:270 | `int("1_000")` is 1000 |
| Digits.MisplacedUnderscores | app/core/oncall.py:270 | a doubled, leading or trailing underscore makes `int()` raise |
| Digits.ReadStep | app/core/oncall.py:270 | one step of reading: ten times the lead's number plus the last digit |
| Digits.UnderscoreIgnoredSymbols | app/core/oncall.py:270 | one underscore between two readable runs changes no value |
| Digits.UnderscoreIgnored | app/core/oncall.py:270 | one underscore between two numerals `int()` reads changes no value |
| Digits.ReadableSymbols | app/core/oncall.py:270 | without underscores, a run is read exactly when every symbol is a digit |
| Digits.NoUnderscore | app/routes/profile.py:351 | text that `isdigit()` accepts holds no underscore |
| Digits.IsDigitsReadable | app/routes/profile.py:351 | an `isdigit()` token is read by `int()` exactly when every digit in it is decimal |
| TimeText.StripPadded | app/core/time_utils.py:23 | `strip()` removes exactly the whitespace padding around trimmed text |
| TimeText.SplitJoin | app/core/time_utils.py:30 | `split(":")` loses nothing: joining the pieces gives the text back, and no piece holds the separator |
| TimeText.SplitAt | app/core/oncall.py:270 | the piece before the first separator is split off first |
| TimeText.ParseInt | app/core/oncall.py:270 | `int(text)` succeeds only on non-blank text |
| TimeText.ParseIntTwoDigits | app/core/oncall.py:270 | two ASCII digits read back as their number |
| TimeText.ParseIntUnderscore | app/core/oncall.py:270 | `int(" 0_7 ")` is 7: blanks around the text and one underscore between digits are accepted |
| TimeText.ParseIntArabicIndic | app/core/oncall.py:270 | `int("-٣")` is -3: a sign, then decimal digits of any script |
| TimeText.ParseIntSpacedSign | app/core/oncall.py:270 | `int("- 7")` raises: nothing may stand between the sign and the digits |
| TimeText.ParseRuleTime | app/core/oncall.py:266-271 | "24:00" is the end of the day; any other text must split on ':' into exactly two integers |
| TimeText.ParseRuleTimeRoundTrip | app/core/oncall.py:266-271 | every valid clock written "HH:MM" reads back as itself, and "24:00" as the end of the day |
| TimeText.ParseRuleTimeUnchecked | app/core/oncall.py:270-271 | no range is checked: any two-digit hour and minute read back as written |
| TimeText.StrptimeHM | app/core/schedule/core.py:113-114 | `strptime(s, "%H:%M")` yields a whole minute of the day |
| TimeText.StrptimeHMRoundTrip | app/core/schedule/core.py:113-114 | "HH:MM" as the configuration writes it reads back as its second of the day |
| TimeText.ToTime | app/core/time_utils.py:18-51 | a time passes through, a string is stripped and parsed, any other type is refused |
| TimeText.ParseOtTimes | app/core/time_utils.py:8-63 | succeeds exactly when both times read, the start's error first; the start lies on the date and the end is after it, at most a day later |
| TimeText.ParseOtTimesOvernight | app/core/time_utils.py:59-61 | the end moves to the next day exactly when its clock is not after the start's |
| TimeText.OtTimeTextRoundTrip | app/core/time_utils.py:22-32 | "HH:MM" and "HH:MM:SS" with any whitespace padding read back as their second of the day |
| TimeText.BlankOtTimeIsEmpty | app/core/time_utils.py:23-26 | whitespace-only text is refused as empty, not as malformed |
| Period.Lookup | app/core/schedule/period.py:541 | a map lookup finds the stored value exactly when the key is present |
| Period.SpanOf | app/core/schedule/period.py:594 | a shift's span from its configured times: start before end, or no span |
| Period.Worked | app/core/schedule/period.py:608-614 | a worked shift's hours and instants come from its type's times and are positive when it has a start |
| Period.ApplyOverride | app/core/schedule/period.py:620-647 | ADD shows "OC" with no hours when that type exists; REMOVE turns an OC day into OFF; otherwise the day is unchanged |
| Period.ShowOt | app/core/schedule/period.py:678-686 | same-day overtime that is not an extension shows as "OT" with its hours and parsed times; otherwise nothing changes |
| Period.BasicPrecedence | app/core/schedule/period.py:490-699 | before employment the day is OFF; then absence, vacation and swap each decide the day outright; only then the rotation, override and overtime apply |
| Period.BasicOriginalIgnoresOverrides | app/core/schedule/period.py:617 | the original shift does not depend on on-call overrides or overtime rows |
| Period.OtForOncallSpec | app/core/schedule/period.py:657-674 | the day's own overtime counts for on-call; the previous day's counts only when its times parse and it ends after midnight |
| Period.MergeAllTotals | app/core/schedule/period.py:1050-1055 | merging a breakdown adds its seconds and pay and keeps one entry per code |
| Period.SplitAroundOtSpec | app/core/schedule/period.py:1008-1088 | on-call is paid only outside the overtime: the stretch before plus the stretch after, and the total is their sum |
| Period.SplitInsideDay | app/core/schedule/period.py:1005-1006 | overtime inside the day leaves the rest of the 24 hours paid as on-call |
| Period.RecalcOncall | app/core/schedule/period.py:995-1088 | nothing when the overtime's times do not parse, otherwise the pay around the overtime |
| Period.MergeBreakdown | app/core/schedule/period.py:1050-1055 | the merge loop computes that merge |
| Period.AddStretch | app/core/schedule/period.py:1030-1055 | one stretch priced, added to the totals and merged into the breakdown |
| Period.PayAroundOt | app/core/schedule/period.py:1030-1083 | the stretch before the overtime, then the one after it, each only when non-empty |
| Period.RecalculateOncallBeforeOt | app/core/schedule/period.py:995-1088 | `_recalculate_oncall_before_ot` computes that split |
| Period.ObFor | app/core/schedule/period.py:842-846 | OB hours are computed only for a shift with a start that is not OC |
| Period.ResolveFull | app/core/schedule/period.py:812-846 | vacation, then a swap (an unknown code leaves no shift), then the rotation |
| Period.OncallFor | app/core/schedule/period.py:884-934 | on-call is paid exactly on an OC day: the whole day, or split around the overtime affecting it |
| Period.OtDetailsFor | app/core/schedule/period.py:936-962 | overtime details exist exactly when there is overtime; its pay is the hourly rate times its hours |
| Period.SettledDay | app/core/schedule/period.py:849-991 | the override, on-call pay and same-day overtime applied to the resolved day |
| Period.FullDaySpec | app/core/schedule/period.py:702-991 | before employment OFF and an absence its shift, both with no pay of any kind; otherwise the settled day |
| Period.SettledDayOb | app/core/schedule/period.py:864-881 | OB comes only from a resolved shift with a start that is not OC and is dropped when the override replaces the shift |
| Period.SettledDayPay | app/core/schedule/period.py:884-953 | on-call is paid exactly when the shift is OC after the override; overtime pay is the hourly rate times the hours |
| Period.OrOff | app/core/schedule/period.py:476 | a stored code, or "OFF" when it is missing or empty |
| Period.ApplySwapSpec | app/core/schedule/period.py:463-485 | the requester takes the target's rotation shift and stored shift; the target takes the requester's |
| Period.SwapMapKeys | app/core/schedule/period.py:462-487 | the swap map holds exactly the keys some swap wrote |
| Period.BuildSwapMap | app/core/schedule/period.py:462-487 | the loop over the fetched swaps builds that map |
| Period.YearsInRange | app/core/schedule/period.py:293-301 | the years from the start's to the end's, none skipped; only the end's year when the range is empty |
| Period.StepYears | app/core/schedule/period.py:296-299 | the 365-day stepping loop reaches every year up to the last one it passes |
| Period.AddYear | app/core/schedule/period.py:298-299 | one step adds the year of `temp` and moves on 365 days |
| Period.PeriodObRules | app/core/schedule/period.py:186-191 | the OB rules of every year the period touches are well formed |
| Period.BuildObRules | app/core/schedule/period.py:189-191 | the loop extending the combined OB rules year by year |
| Period.DayEntry | app/core/schedule/period.py:216-254 | each entry has the date and weekday; without a person it lists positions 1 to 10 in order |
| Period.EveryPosition | app/core/schedule/period.py:222-237 | the all-positions view holds each position's basic day, in order |
| Period.DaysFromIndex | app/core/schedule/period.py:214-257 | entry i of the period is the entry of date first + i |
| Period.PeriodDaysFrom | app/core/schedule/period.py:214-257 | one entry per date from the first through the end |
| Period.GeneratePeriod | app/core/schedule/period.py:153-259 | `generate_period_data` collects the entries of the dates from max(start, rotation start) through end |
| Period.PeriodFrom | app/core/schedule/period.py:186-259 | the period's OB rules, then each date's entry |
| Period.RulesForPeriod | app/core/schedule/period.py:186-191 | the OB rules of every calendar year the dates touch |
| Period.CollectDays | app/core/schedule/period.py:214-257 | the day loop collects each date's entry in order |
| Overtime.OvertimePayAdditive | app/core/schedule/overtime.py:8-21 | no hours pay nothing, and the pay of two stretches is the pay of their sum |
| Overtime.OvertimePayIncreasing | app/core/schedule/overtime.py:8-21 | with a positive salary and divisor, more hours pay strictly more |
| Overtime.MonthWindow | app/core/schedule/overtime.py:56-60 | the window exists exactly for months 1..12: from the 1st of the month to the 1st of the next, December running into January |
| Overtime.MonthWindowIsMonth | app/core/schedule/overtime.py:56-68 | the window holds exactly the days of that year and month |
| Overtime.RowsIn | app/core/schedule/overtime.py:62-70 | the query returns exactly the user's rows dated inside the window, in table order |
| Overtime.OvertimeShiftsForMonth | app/core/schedule/overtime.py:39-70 | no session gives []; otherwise the user's rows of that month, and an invalid month is an error |
| Overtime.OvertimeShiftForDate | app/core/schedule/overtime.py:24-36 | no session gives None; otherwise a row of that user and date, None only when there is none |
| Overtime.BuildOtDetails | app/core/schedule/overtime.py:73-81 | the details carry the shift's hours, stored pay and the given rate, and its times as text that reads back as the same times |
| Overtime.TimeStrReadsBack | app/core/schedule/overtime.py:76-77 | `str` of a time parses back to the same second of the day |
| Summary.AddR | app/core/schedule/summary.py:386 | `pays[code] = pays.get(code, 0.0) + x` raises one code and leaves the others |
| Summary.ZeroPay | app/core/schedule/summary.py:372-373 | the zero maps have exactly the rules' codes as keys |
| Summary.DayObSpec | app/core/schedule/summary.py:367-373 | a day's OB maps have exactly the rules' codes; a day without OB has every entry 0; hours are never negative and add up to at most the shift's length |
| Summary.MonthTotals.constructor | app/core/schedule/summary.py:149-166 | the totals open with gross pay equal to the base salary and every other figure zero |
| Summary.MonthTotals.ProcessDay | app/core/schedule/summary.py:355-415 | `_process_day_for_summary` returns the day's figures and adds them to the totals in place |
| Summary.DayStep | app/core/schedule/summary.py:362-398 | the day's work on the totals' values |
| Summary.DayFigures | app/core/schedule/summary.py:367-373 | OB hours and pay computed for a shift with times that is not OFF, OC or OT; zeros for every code otherwise |
| Summary.MergedHours | app/core/schedule/summary.py:382-383 | the merge loop adds each code's seconds to the totals |
| Summary.MergedPay | app/core/schedule/summary.py:385-387 | the merge loop adds each code's pay to the totals and to gross pay |
| Summary.MergeHoursGet | app/core/schedule/summary.py:382-383 | merging adds each listed code's value and leaves every other code alone |
| Summary.MergePaySum | app/core/schedule/summary.py:385-387 | the merged pay sums to the old pay plus the added pay |
| Summary.MonthDays | app/core/schedule/summary.py:170-172 | the days processed are exactly those whose month is the requested one (the year is not compared) |
| Summary.Outs | app/core/schedule/summary.py:168-175 | one returned day per processed day |
| Summary.MonthBrutto | app/core/schedule/summary.py:154-395 | gross pay before the absence deduction is the base salary plus the month's OB pay over all codes, on-call pay and overtime pay |
| Summary.MonthCounts | app/core/schedule/summary.py:376-383 | `num_shifts` counts at most one shift per day; every code's OB seconds are non-negative |
| Summary.MonthIgnoresOtherMonths | app/core/schedule/summary.py:170-172 | days of other months, before or after, change nothing |
| Summary.Tax | app/core/schedule/summary.py:28-54 | the table's tax, falling back to the bracket lookup when there is no table or it fails |
| Summary.MonthPay | app/core/schedule/summary.py:179-197 | gross pay is base plus OB, on-call and overtime pay minus the absence deduction when there is a session; net is gross minus its tax |
| Summary.SummarizeMonth | app/core/schedule/summary.py:82-223 | `summarize_month_for_person` with the year's combined rules computes that summary |
| Summary.TallyMonth | app/core/schedule/summary.py:168-175 | the loop processes each day of the month into the totals and skips the others |
| SummaryYear.SummarizeYearByMonth | app/core/schedule/summary.py:57-79 | the loop over the year's days builds the per-month overview |
| SummaryYear.CountInto | app/core/schedule/summary.py:71-77 | the day's month entry is created at zero when missing, then receives the day's hours and shift |
| SummaryYear.ShiftsOf | app/core/schedule/summary.py:76-77 | the shift count of a run of days is at most its length |
| SummaryYear.ByMonthIsMonthDays | app/core/schedule/summary.py:57-79 | the overview has an entry exactly for the months some day falls in, holding the hours of all that month's days and the number of its non-OFF shifts |
| SummaryYear.TotalAppend | app/core/schedule/summary.py:462-479 | the year totals of two runs of months are the sums of their totals |
| SummaryYear.OffDaysKept | app/core/schedule/summary.py:478-479 | with the corrected month figures, the year's off days and hours are the months' off days and hours added up |
| SummaryYear.OffDaysLost | app/core/schedule/summary.py:478-479 | as written, the year's off days and hours are 0 whatever the months hold |
| SummaryYear.OffDaysLostExample | app/core/schedule/summary.py:189-190 | a month with an off day shows the difference |
| SummaryYear.Divisor | app/core/schedule/summary.py:459 | `len(months) or 1` is at least 1 |
| SummaryYear.AveragesScale | app/core/schedule/summary.py:534-542 | each average times the divisor gives back its total |
| SummaryYear.KindsPartitionDetails | app/core/schedule/summary.py:489-497 | the four kinds and the unknown ones together make up all the details' deductions |
| SummaryYear.KindsPartitionMonths | app/core/schedule/summary.py:487-497 | over the year, the four per-kind deductions plus the skipped ones are all the months' detail deductions |
| SummaryYear.NoUnknownDetails | app/core/schedule/summary.py:489-497 | with no detail of an unknown kind, nothing is skipped |
| SummaryYear.DeductionsByKind | app/core/schedule/summary.py:487-497 | the loop over the months and their details computes the per-kind deductions |
| SummaryYear.AddDetails | app/core/schedule/summary.py:489-497 | each detail's deduction goes to its kind; an unknown kind goes nowhere |
| SummaryYear.ObByCode | app/core/schedule/summary.py:500-509 | the loop over the months adds each month's OB of every listed code |
| SummaryYear.AddMonthOb | app/core/schedule/summary.py:505-509 | the inner loop over the five codes for one month |
| SummaryYear.ByCodeKeys | app/core/schedule/summary.py:500-502 | the by-code maps have exactly the five listed codes |
| SummaryYear.HoursPerCode | app/core/schedule/summary.py:508 | each entry of `ob_hours_by_code` is that code's OB seconds summed over the months |
| SummaryYear.PayPerCode | app/core/schedule/summary.py:509 | each entry of `ob_pay_by_code` is that code's OB pay summed over the months |
| SummaryYear.TotalObHoursIsMonths | app/core/schedule/summary.py:545 | `total_ob_hours` is the months' OB seconds of the listed codes added up |
| SummaryYear.ObPayByCodeIsMonths | app/core/schedule/summary.py:509 | the by-code pay adds up to the months' OB pay of the listed codes |
| SummaryYear.YearTotalObAgrees | app/core/schedule/summary.py:443-446 | when each month's `total_ob` is its OB pay of the listed codes, the year's `total_ob` equals the sum of `ob_pay_by_code` |
| SummaryYear.BuildYearSummary | app/core/schedule/summary.py:457-546 | `_build_year_summary` with its two loops computes the year summary |
| SummaryYear.WithTotalOb | app/core/schedule/summary.py:444-446 | a month with its `total_ob` set to its OB pay of the listed codes, nothing else changed |
| SummaryYear.YearMonths | app/core/schedule/summary.py:434-447 | months 1 to 12 in order, each with its `total_ob` |
| SummaryYear.SummarizeYear | app/core/schedule/summary.py:418-454 | `summarize_year_for_person`: the twelve months, then the year summary built from them |
| SummaryYear.SummarizeYearMonth | app/core/schedule/summary.py:435-447 | one turn: the month summary, then its `total_ob` |
| SummaryYear.YearObConsistent | app/core/schedule/summary.py:433-546 | in the year view, `total_ob` equals the sum of `ob_pay_by_code` and `total_ob_hours` is the months' OB seconds |
| SummaryGrid.GridBounds | app/core/schedule/summary.py:255-264 | the bounds exist exactly for a month in 1..12 |
| SummaryGrid.GridBoundsSpec | app/core/schedule/summary.py:255-264 | the grid starts on the Monday of the 1st's week and ends on the Sunday of the last day's week: it covers the month in whole weeks |
| SummaryGrid.BuildLookup | app/core/schedule/summary.py:279-322 | the loop fills `days_by_date` |
| SummaryGrid.LookupSpec | app/core/schedule/summary.py:279-322 | a date has a cell exactly when some day has it; the cell is the last such day's, flagged when the date is in the requested month and year |
| SummaryGrid.WeekAt | app/core/schedule/summary.py:329-346 | a week holds seven cells |
| SummaryGrid.BuildGrid | app/core/schedule/summary.py:325-347 | the loop builds the grid a week of seven days at a time |
| SummaryGrid.WeeksAt | app/core/schedule/summary.py:325-347 | week w's day j is the cell of the date 7·w + j days after the start |
| SummaryGrid.CellAtSpec | app/core/schedule/summary.py:331-344 | every cell carries its date; it is flagged exactly when the date is in the month and a day was generated for it |
| SummaryGrid.WeekCell | app/core/schedule/summary.py:328-347 | a cell's weekday is its column |
| SummaryGrid.MonthInGrid | app/core/schedule/summary.py:255-347 | every day of the month has its place in the grid, holding that date's cell |
| SummaryGrid.BuildCalendarGrid | app/core/schedule/summary.py:226-352 | `build_calendar_grid_for_month` computes the month summary and the grid |
| Vacation.YearBounds | app/core/schedule/vacation.py:66-81 | the bounds exist exactly for a start month in 1..12 (outside it `datetime.date` raises) |
| Vacation.YearBoundsSpan | app/core/schedule/vacation.py:66-81 | the vacation year starts on the 1st of the start month and ends the day before the same date a year later, January included; it is 365 or 366 days long and the next vacation year starts the day after it ends |
| Vacation.YearBoundsMonths | app/core/schedule/vacation.py:66-81 | a date lies in the vacation year exactly when its month is one of the twelve months from the start month on |
| Vacation.CountWeekdaysInWeeks | app/core/schedule/vacation.py:84-102 | the nested loop counts, for each listed week, its Monday-to-Friday days inside the period, skipping the days `fromisocalendar` rejects |
| Vacation.Overlap | app/core/schedule/vacation.py:100 | a count of shared days is never negative |
| Vacation.WeekHitsOverlap | app/core/schedule/vacation.py:94-101 | a valid week counts exactly the days that its Monday..Friday shares with the period |
| Vacation.InvalidWeekSkipped | app/core/schedule/vacation.py:96-99 | a week that `fromisocalendar` rejects counts nothing |
| Vacation.WholeWeekCountsFive | app/core/schedule/vacation.py:94-101 | a valid week wholly inside the period counts five days |
| Vacation.WeekdaysBound | app/core/schedule/vacation.py:84-102 | the count is between 0 and five per listed week |
| Vacation.DayLevel | app/core/schedule/vacation.py:153-162 | the day-level count is at most the number of absence rows |
| Vacation.CalendarYears | app/core/schedule/vacation.py:137-145 | the month-jumping loop collects exactly the calendar years from the start day's to the end day's, and none for an empty period |
| Vacation.YearRange | app/core/schedule/vacation.py:137-145 | the set holds exactly the years `lo..hi` |
| Vacation.YearRangeStep | app/core/schedule/vacation.py:139-145 | a loop step adds the current year, which is the last year reached or the one after it |
| Vacation.CountVacationDaysUsed | app/core/schedule/vacation.py:105-168 | `count_vacation_days_used` computes the week-based days of the touched calendar years and the day-level rows, and the total is their sum |
| Vacation.WeekBasedDays | app/core/schedule/vacation.py:147-150 | the loop over the collected years sums the weekdays of each year's listed weeks |
| Vacation.WeekBasedLoop | app/core/schedule/vacation.py:147-150 | the years are visited in ascending order, each adding the weekdays of its listed weeks |
| Vacation.WeekBasedStep | app/core/schedule/vacation.py:148-150 | one more year adds its weeks' weekdays, and a year without weeks adds nothing |
| Vacation.WeekBasedBound | app/core/schedule/vacation.py:147-150 | week-based vacation counts at most five days per listed week |
| Vacation.ProratedDays | app/core/schedule/vacation.py:171-193 | `_calculate_prorated_days`; its contract is stated by `Vacation.ProratedBounds` and `Vacation.ProratedMonotone` |
| Vacation.ProratedBounds | app/core/schedule/vacation.py:171-193 | with a non-negative quota the pro-rated days lie in 0..quota; employment from before the earning year gives the whole quota; a start after it gives 0 |
| Vacation.ProratedMonotone | app/core/schedule/vacation.py:186-193 | a later employment start never earns more days |
| Vacation.SavedDaysBalance | app/core/schedule/vacation.py:196-220 | `get_saved_days_balance`: the loop over the five previous years keeps those that saved a positive number of days, and the total is their sum |
| Vacation.BreakdownSound | app/core/schedule/vacation.py:213-218 | every breakdown entry is a year of the window whose closing saved that positive number of days |
| Vacation.BreakdownAscending | app/core/schedule/vacation.py:213-218 | the breakdown is in strictly ascending year order |
| Vacation.BreakdownComplete | app/core/schedule/vacation.py:213-218 | every year of the window that saved a positive number of days is in the breakdown |
| Vacation.SumDaysNonNegative | app/core/schedule/vacation.py:215-217 | the saved-days balance is never negative |
| Vacation.BreakdownWindow | app/core/schedule/vacation.py:213 | closing records outside the five-year window never change the breakdown |
| Vacation.SplitsAgree | app/core/schedule/vacation.py:250-255 | the projection (399-400) shows the split that closing makes; at most five days are saved, days are paid out only once five are saved, and the parts add up to the positive remainder |
| Vacation.ClosedYearFor | app/core/schedule/vacation.py:243-264 | the closing record holds that split, the payout per day, and the paid-out days times it |
| Vacation.AccrualStart | app/core/schedule/vacation.py:317-325 | accrual starts at employment start, or at the transition date when that comes after it; no start without an employment start |
| Vacation.AdvanceBounds | app/core/schedule/vacation.py:362-364 | the advance lies between 0 and the days missing from the full quota, never exceeds the days used beyond the entitlement, and takes all of them up to that cap |
| Vacation.BlendedBetween | app/core/schedule/vacation.py:366-367 | the blended supplement lies between the normal supplement and the fixed part |
| Vacation.WeightedStep | app/core/schedule/vacation.py:367 | a share `a / t` of a difference lies between 0 and the difference |
| Vacation.DivSplit | app/core/schedule/vacation.py:367 | division by a positive total distributes over a sum |
| Vacation.ProjectionMatchesClose | app/core/schedule/vacation.py:393-407 | an open year's projection shows exactly the record that closing it with the same figures stores |
| Vacation.ReportWindow | app/core/schedule/vacation.py:373 | closing records outside the five years before the target never change the balance |
| Vacation.BalanceOf | app/core/schedule/vacation.py:275-426 | `calculate_vacation_balance` as a value; its contract is stated by `Vacation.ReportFigures`, `Vacation.ClosesOnce` and `Vacation.ProjectionMatchesClose` |
| Vacation.ReportFigures | app/core/schedule/vacation.py:307-377 | remaining = entitled + saved − used; used = week-based + day-level; first year iff accrual starts after the earning year began; the earning year ends the day before the vacation year; a non-negative quota bounds the entitlement; the advance stays within the shortfall |
| Vacation.ClosesOnce | app/core/schedule/vacation.py:386-391 | a year is closed once: after the balance of an ended year, any later balance shows the same figures and closing record and does not change `vacation_saved` |
| Vacation.AssembleSteps | app/core/schedule/vacation.py:315-377 | the entitlement, the advance and the totals computed step by step agree with the balance figures |
| Vacation.User.constructor | app/core/schedule/vacation.py:275-307 | a user row with its read-only columns and its `vacation_saved` |
| Vacation.User.CloseVacationYear | app/core/schedule/vacation.py:223-272 | `close_vacation_year` returns the closing record for the remaining days and stores it under the year, replacing any earlier record |
| Vacation.User.CalculateBalance | app/core/schedule/vacation.py:275-426 | `calculate_vacation_balance`: an ended year shows its stored record, or is closed now when it has none; an open year shows a projection; an invalid start month changes nothing |
| Vacation.User.BalanceReport | app/core/schedule/vacation.py:307-377 | the figures before the year-end branch, read without changing the user |
| Transition.EarningYear | app/core/schedule/transition.py:22-41 | `get_earning_year`; its contract is stated by `Transition.EarningYearSpec` and `Transition.EarningYearOverride` |
| Transition.EarningYearSpec | app/core/schedule/transition.py:37-41 | without explicit bounds the earning year ends the day before the transition and starts on the latest 1 April on or before that day |
| Transition.LatestApril | app/core/schedule/transition.py:38-40 | the chosen 1 April is on or before the last consultant day and the next 1 April is after it |
| Transition.EarningYearOverride | app/core/schedule/transition.py:34-35 | explicit bounds, when both are set, are taken as they are |
| Transition.ConsultantVacationDays | app/core/schedule/transition.py:44-75 | `calculate_consultant_vacation_days`; its contract is stated by `Transition.ConsultantDaysBounds` |
| Transition.ConsultantDaysBounds | app/core/schedule/transition.py:44-75 | no days without an employment start and only then; with a non-negative quota the days lie in 0..quota; employment over the whole earning year earns the whole quota |
| Transition.MonthAt | app/core/schedule/transition.py:83-87 | the month at an index is a valid month with that index |
| Transition.MonthAtIndex | app/core/schedule/transition.py:83-87 | a valid month is the month at its own index |
| Transition.MonthSpan | app/core/schedule/transition.py:78-88 | the span holds `n` consecutive months |
| Transition.StartsBy | app/core/schedule/transition.py:82 | the 1st of a month is on or before the end exactly when the month is not after the end's month |
| Transition.IterMonths | app/core/schedule/transition.py:78-88 | `_iter_months` lists the consecutive months from the start's month to the end's month |
| Transition.MonthsFrom | app/core/schedule/transition.py:80-88 | the loop from a given month appends the consecutive months up to the end's month |
| Transition.MonthSpanSnoc | app/core/schedule/transition.py:83-87 | one more month extends the list by the next calendar month |
| Transition.DateMonthIndexMonotone | app/core/schedule/transition.py:82 | later days lie in the same or a later month |
| Transition.MonthSpanConsecutive | app/core/schedule/transition.py:84-87 | each listed month is followed by the next calendar month, December by January of the next year, and no month is listed twice |
| Transition.IterMonthsCovers | app/core/schedule/transition.py:78-88 | every day of the period has its month listed |
| Transition.MonthSpanHas | app/core/schedule/transition.py:78-88 | the span holds the month at each of its indices |
| Transition.IterMonthsWithin | app/core/schedule/transition.py:78-88 | every listed month is a valid month between the start's month and the end's month |
| Transition.WorkingDays | app/core/schedule/transition.py:130-138 | the working days are at most the days |
| Transition.CountWorkingDays | app/core/schedule/transition.py:130-138 | the loop skips the days before employment and the OFF, SEM and shiftless days and counts the rest |
| Transition.WorkingDaysAppend | app/core/schedule/transition.py:130-138 | the count splits over concatenation, so each worked day counts once |
| Transition.VariableAvgDaily | app/core/schedule/transition.py:96-169 | `calculate_variable_avg_daily`; its contract is stated by `Transition.VariableAvgSpec` |
| Transition.VariableAvgSpec | app/core/schedule/transition.py:96-169 | the average exists exactly for a rotation position in 1..10 with period data, some working day and some variable pay, and then the average times the working days gives the variable pay back |
| Cowork.FindPerson | app/core/schedule/cowork.py:152-157 | the entry found is one for the position; none is found only when no entry has that position |
| Cowork.FindPersonFirst | app/core/schedule/cowork.py:154-157 | the entry found is the first one for the position |
| Cowork.WorkingShift | app/core/schedule/cowork.py:61-63 | a position works when its entry has a shift other than OFF |
| Cowork.Bumped | app/core/schedule/cowork.py:81-83 | a shared day adds one to the total, and to the per-shift count only for N1, N2 and N3 |
| Cowork.Matches | app/core/schedule/cowork.py:68-79 | the inner loop counts at most one match per entry |
| Cowork.RowOf | app/core/schedule/cowork.py:37-83 | the row of a position carries that position |
| Cowork.TallyDay | app/core/schedule/cowork.py:68-83 | the loop over one day's entries adds each working entry of the target's shift, other than the target's own, to that position's row |
| Cowork.BuildCoworkStats | app/core/schedule/cowork.py:18-88 | `build_cowork_stats`: exactly one row for every position but the target, in increasing order of position, each the tally of the days on which that position works the target's shift |
| Cowork.InitialStats | app/core/schedule/cowork.py:37-48 | a zero row for every position but the target |
| Cowork.TallyDays | app/core/schedule/cowork.py:51-83 | the loop over the days skips days without entries, without the target or with the target off, and tallies the others |
| Cowork.StatsValues | app/core/schedule/cowork.py:86 | `list(stats.values())` gives the rows in increasing order of position |
| Cowork.SortAscendingIds | app/core/schedule/cowork.py:87 | the sort on position leaves rows already in that order as they are |
| Cowork.ByShiftWithinTotal | app/core/schedule/cowork.py:81-83 | the N1, N2 and N3 counts together never exceed the total |
| Cowork.NoSelfCount | app/core/schedule/cowork.py:40-41 | the target is never counted against itself |
| Cowork.MatchesNone | app/core/schedule/cowork.py:68-79 | entries for other positions, or for the target, count nothing |
| Cowork.DetailOf | app/core/schedule/cowork.py:110-146 | a day gives an entry only when both positions are listed and work the same shift, and the entry carries that day and both shifts |
| Cowork.DetailsOf | app/core/schedule/cowork.py:110-146 | at most one entry per day, each for the pair and a shared working shift |
| Cowork.BuildCoworkDetails | app/core/schedule/cowork.py:91-149 | `build_cowork_details`: the entries sorted by date, a permutation of the days' entries, days of equal date keeping their order |
| Cowork.CollectDetails | app/core/schedule/cowork.py:108-146 | the loop collects the entries in the order of the days |
| Cowork.MatchesOnce | app/core/schedule/cowork.py:68-83 | with each position listed once, the other's entry counts exactly when it works the target's shift |
| Cowork.DayAgrees | app/core/schedule/cowork.py:51-83 | a day adds one to a pair's total exactly when it has a detail entry for the pair |
| Cowork.StatsMatchDetails | app/core/schedule/cowork.py:18-149 | with each position listed once a day, the other's total is the number of days in the pair's detail list |
| Cowork.MissingAddsNothing | app/core/schedule/cowork.py:57-59 | a day on which either position is missing adds nothing to the statistics or the details |
| Rates.OrEmpty | app/core/rates.py:46-49 | `x or {}` gives the empty table for a missing one |
| Rates.Merged | app/core/rates.py:48-49 | `{**defaults, **custom}` holds every default and every custom key, a custom value winning over the default |
| Rates.ResolveRates | app/core/rates.py:43-50 | the resolved rates take the custom OB divisors or none and the custom overtime rate as they are, and every default on-call and vacation key is present |
| Rates.NoCustomGivesDefaults | app/core/rates.py:43-50 | a user without custom rates gets no OB divisors, no overtime rate and exactly the default on-call and vacation tables that `get_all_defaults` (205-212) shows |
| Rates.LatestInForce | app/core/rates.py:67-76 | the record found is the user's, in force on the date and has the latest start of those in force; none is found only when no record is in force |
| Rates.UserRatesFallback | app/core/rates.py:53-83 | without a date the current rates are resolved; with one, the rates of the latest record in force, and the current rates when no record is in force |
| Rates.StatusOf | app/core/rates.py:159-161 | a record is future before it starts, current exactly while in force through its last day, historical after |
| Rates.OfUser | app/core/rates.py:142-147 | the query keeps exactly the user's records |
| Rates.RateHistoryOf | app/core/rates.py:138-165 | one listing entry per record of the user |
| Rates.RateHistoryOrdered | app/core/rates.py:138-165 | the listing is newest start first, a permutation of the user's records, and an entry shows current exactly when its record is in force on today |
| Rates.First | app/core/rates.py:111-113 | `.first()` returns the first row the filter selects, and none only when no row is selected |
| Rates.FirstIs | app/core/rates.py:111-113 | the first selected row is the one `.first()` returns |
| Rates.ClosePrevious | app/core/rates.py:110-115 | closing the previous record keeps the number of rows |
| Rates.RateStore.constructor | app/core/rates.py:86-135 | a store with the given history and current custom rates |
| Rates.RateStore.AddNewRates | app/core/rates.py:86-135 | `add_new_rates`: seed a user without history from their current rates, close the open record the day before the new start, append the new open record, and make its rates the user's current rates when it has started |
| Rates.RateStore.DeleteRateHistory | app/core/rates.py:168-202 | `delete_rate_history`: remove the user's record and reopen the record it closed unless a later record remains; the current rates are unchanged |
| Rates.AddKeepsOneOpen | app/core/rates.py:110-125 | adding keeps at most one open record per user: the new record is the user's only open one, the closed record ends the day before the new start, and other users' records are unchanged |
| Rates.ClosedRecordGapAsWritten | app/core/rates.py:72 | as written, on the closed record's last day neither it nor the new record is in force |
| Rates.GapExample | app/core/rates.py:72 | a two-record history in which the lookup returns the newer rates on the older record's last day |
| Rates.ClosedRecordCovers | app/core/rates.py:115 | with the last day counted, the closed record is in force through the day before the new start and the new record from its start |
| Rates.DeleteUndoesAdd | app/core/rates.py:168-202 | deleting the record an addition made restores the history, when the user's open record was the latest and no record ended the day before the new start |
| Rates.AddedWithHistory | app/core/rates.py:94-95 | a user with a history is not seeded |
| Rates.ClosePreviousKeepsIds | app/core/rates.py:114-115 | closing changes no id or user |
| Rates.DeleteLast | app/core/rates.py:172-200 | deleting a record only the last row matches removes it and reopens the record that ended the day before its start |
| Rates.ReopenUndoesClose | app/core/rates.py:181-200 | reopening the record a close ended restores the history |
| Calendar.Weekday | app/core/utils.py:49-50 | `date.weekday()` is in 0..6 |
| Calendar.ToYmd | app/core/utils.py:40-45 | reading a date gives a valid (year, month, day) whose ordinal is that date |
| Calendar.YmdRoundTrip | app/core/validators.py:35 | a valid (year, month, day) read back from its date is itself |
| Calendar.DateOfInjective | app/core/validators.py:35 | two valid triples with the same date are the same triple |
| Calendar.NextMonth | app/core/utils.py:74-79 | the month after December is January of the next year, otherwise the next month of the same year |
| Calendar.IsoCalendar | app/core/utils.py:49 | `isocalendar` names the day by ISO year, week and weekday, weekday 1 being Monday |
| Calendar.IsoRoundTrip | app/core/utils.py:49-50 | `fromisocalendar(*d.isocalendar())` gives `d` back: the week `isocalendar` reports always exists |
| Calendar.FromIsoCalendar | app/core/schedule/vacation.py:96-99 | `fromisocalendar` accepts exactly weeks 1..52, week 53 of a long ISO year, and weekdays 1..7, and gives the day of that weekday in that week |
| Calendar.IsoYearLength | app/core/schedule/vacation.py:96-99 | an ISO year has 53 weeks when it is long and 52 otherwise |
| Helpers.LStripHash | app/core/helpers.py:23 | `lstrip("#")` removes every leading '#' and nothing else |
| Helpers.Doubled | app/core/helpers.py:24-25 | each character of a short colour is doubled |
| Helpers.Slice | app/core/helpers.py:27-29 | a slice past the end is cut to the text |
| Helpers.ParseHexField | app/core/helpers.py:27-29 | `int(s, 16)` of a two-character field reads two hex digits as a byte and fails on an empty field |
| Helpers.ContrastColor | app/core/helpers.py:16-33 | the text colour is "#000" exactly for a readable colour whose luminance exceeds one half, "#fff" otherwise, for an empty colour included |
| Helpers.ShortFormExpands | app/core/helpers.py:24-25 | `#abc` gets the colour of `#aabbcc` |
| Helpers.HashStripped | app/core/helpers.py:23 | one leading '#' is stripped |
| Helpers.SixDigitChannels | app/core/helpers.py:26-29 | six hex digits are read as the red, green and blue bytes |
| Helpers.PairField | app/core/helpers.py:27-29 | two hex digits are read as one byte |
| Helpers.ShortColourWhite | app/core/helpers.py:26-31 | a colour of fewer than three characters cannot be read and gives white |
| Helpers.ShortChannels | app/core/helpers.py:29-31 | fewer than three characters leave the blue field empty, which `int` rejects |
| Helpers.CanSeeSalary | app/core/helpers.py:36-49 | nobody signed out may see salaries, an administrator may see all, any other user only their own position |
| Helpers.StripDay | app/core/helpers.py:111-114 | a copy of a day with its OB pay and hours emptied and every other key kept |
| Helpers.WithSalaryCleared | app/core/helpers.py:101-106 | a copy with the salary keys nulled or emptied and every other key kept |
| Helpers.StripSalaryData | app/core/helpers.py:96-117 | `strip_salary_data` returns the stripped copy, the day loop included |
| Helpers.Stripped | app/core/helpers.py:96-117 | the stripped copy of `strip_salary_data`; its contract is stated by `Helpers.StrippedSpec` and `Helpers.StripIdempotent` |
| Helpers.StrippedSpec | app/core/helpers.py:96-117 | the salary keys are null or empty, every key but `days` is otherwise unchanged, and each day keeps its keys and values except its OB tables |
| Helpers.StripIdempotent | app/core/helpers.py:96-117 | stripping twice is stripping once |
| Helpers.ClearedTwice | app/core/helpers.py:101-106 | clearing a map whose salary keys are already cleared changes nothing |
| Helpers.StripDayTwice | app/core/helpers.py:111-114 | stripping a stripped day changes nothing |
| Helpers.StripYearSummary | app/core/helpers.py:120-134 | `strip_year_summary` nulls or empties exactly the listed keys and keeps the rest |
| Helpers.StripYearIdempotent | app/core/helpers.py:120-134 | stripping a year summary twice is stripping it once |
| Utils.SafeToday | app/core/utils.py:8-14 | the result is never before the rotation start or before today, and is one of the two |
| Utils.DayNavigation | app/core/utils.py:36-46 | the day view's targets are valid dates one day before and one day after |
| Utils.MondayOfWeek | app/core/utils.py:49-50 | the Monday of the ISO week of a day is the Monday on or before it |
| Utils.IsoWeekOf | app/core/utils.py:55-56 | the ISO year and week read from a Monday name that Monday again |
| Utils.WeekNavFrom | app/core/utils.py:52-63 | the reported weeks exist and start on the Mondays a week before and a week after |
| Utils.WeekNavigation | app/core/utils.py:48-63 | the week view's targets exist and start a week before and a week after the Monday of the current week |
| Utils.WeekNavigationSameWeek | app/core/utils.py:48-63 | any two days of the same week give the same week navigation |
| Utils.MondayOf | app/core/utils.py:49-50 | the Monday of the current week is the Monday on or before the day |
| Utils.DayBeforeMonth | app/core/utils.py:69-72 | the day before the first of a month lies in the previous month, December of the year before for January |
| Utils.MonthNavigation | app/core/utils.py:65-86 | the month view's targets are valid months, one before and one after the current month |
| Utils.NeighbourMonths | app/core/utils.py:65-86 | the months one index before and after a month, as the month view names them: December of the year before precedes January, January of the year after follows December, other months step within their year |
| Utils.NavigationDates | app/core/utils.py:17-95 | each named view gives its targets, the year view the years before and after, and any other name is an error |
| Validators.ValidatePersonId | app/core/validators.py:4-15 | the id is returned exactly when it is in 1..10, otherwise a 404 |
| Validators.MakeDate | app/core/validators.py:35 | `datetime.date` succeeds exactly for a valid date, which reads back as the triple given |
| Validators.ValidateDateParams | app/core/validators.py:17-55 | a full date is returned when valid and a 400 otherwise; a year and month are checked through day 1 and give `None`; a year alone gives `None`; a day without a month is a 400 |
| Validators.MonthAcceptsItsDays | app/core/validators.py:32-40 | a year and month that pass pass with every day of that month, returned as itself |
| AuthRoutes.LStripC0 | app/routes/auth_routes.py:37 | `urlparse` strips leading control characters and spaces |
| AuthRoutes.RemoveUnsafe | app/routes/auth_routes.py:37 | `urlparse` deletes tabs and line breaks |
| AuthRoutes.AsciiLower | app/routes/auth_routes.py:37 | lower-casing keeps the length |
| AuthRoutes.Find | app/routes/auth_routes.py:37 | `find` gives the first index of the character, or none when it is absent |
| AuthRoutes.NetlocEnd | app/routes/auth_routes.py:37 | the network location ends at the first '/', '?' or '#', or at the end |
| AuthRoutes.SplitScheme | app/routes/auth_routes.py:37 | a URL that does not start with a letter has no scheme |
| AuthRoutes.NetlocOf | app/routes/auth_routes.py:37 | a network location is only read after a leading "//" |
| AuthRoutes.UrlParse | app/routes/auth_routes.py:37 | the scheme and network location `urlparse` gives after its clean-up; its contract is stated by `AuthRoutes.SplitScheme`, `AuthRoutes.NetlocOf` and `AuthRoutes.SlashHasNoScheme` |
| AuthRoutes.SlashHasNoScheme | app/routes/auth_routes.py:37-38 | a URL that starts with '/' has no scheme |
| AuthRoutes.SlashFirst | app/routes/auth_routes.py:37 | deleting tabs and line breaks keeps a leading '/' |
| AuthRoutes.IsSafeRedirect | app/routes/auth_routes.py:33-38 | a missing or empty URL is unsafe; a URL is safe exactly when it starts with one '/' and `urlparse` finds no scheme and no network location |
| AuthRoutes.PlainPathSafe | app/routes/auth_routes.py:33-38 | a path that starts with one '/' and holds no tab or line break is safe |
| AuthRoutes.HiddenHostRefused | app/routes/auth_routes.py:37-38 | a path whose tabs or line breaks hide a second '/' is refused |
| AuthRoutes.RootSafe | app/routes/auth_routes.py:101 | the fallback target "/" is safe |
| AuthRoutes.ChangePageSafe | app/routes/auth_routes.py:97 | the password-change page is safe |
| AuthRoutes.RemoveUnsafeKeeps | app/routes/auth_routes.py:37 | a text without tabs or line breaks is kept whole |
| AuthRoutes.LoginPageNext | app/routes/auth_routes.py:41-52 | the login page echoes `next` only when it is safe, and always when it is |
| AuthRoutes.Login | app/routes/auth_routes.py:55-104 | failed credentials give a 401 that echoes `next`; a forced change goes to the change page; anyone else to `next` when safe, else "/"; every redirect is safe |
| AuthRoutes.PasswordChangeCheck | app/routes/auth_routes.py:152-198 | the first failing check, in order: wrong current password, confirmation mismatch, same as the old password, shorter than 8 |
| AuthRoutes.ChangePasswordSubmit | app/routes/auth_routes.py:140-202 | on success the new password is stored and the forced-change flag cleared; on any error nothing changes |
| AuthRoutes.ChangeNotRepeatable | app/routes/auth_routes.py:152 | repeating a successful change fails, because the old password no longer verifies |
| Users.User.constructor | app/database/database.py:23-33 | a user row with its id, password, forced-change flag and an empty vacation map |
| Profile.SplitOn | app/routes/profile.py:351 | `split(",")` gives at least one piece and no piece holds the separator |
| Profile.IndexOf | app/routes/profile.py:351 | the first index of the separator |
| Profile.IndexOfAt | app/routes/profile.py:351 | the first occurrence is the one `IndexOf` finds |
| Profile.SplitOnAppend | app/routes/profile.py:351 | splitting a text joined by the separator splits each part |
| Profile.Strip | app/routes/profile.py:350-351 | `strip()` is empty exactly for a blank text, is no longer than the text, and neither end is a space |
| Profile.ReadToken | app/routes/profile.py:351 | a stripped token is skipped exactly when `isdigit()` refuses it; it makes `int()` raise exactly when it is all digits but one of them is not decimal; otherwise it is read as `int()` reads it |
| Profile.Readings | app/routes/profile.py:351 | one reading per token, in order |
| Profile.CollectRefused | app/routes/profile.py:351 | the list comprehension fails exactly when some token makes `int()` raise |
| Profile.CollectRead | app/routes/profile.py:351 | when it succeeds, a number is in the list exactly when some token reads as it |
| Profile.TokenValuesSpec | app/routes/profile.py:351 | `[int(w.strip()) for w in ... if w.strip().isdigit()]` fails exactly when some token is all digits with one that is not decimal; otherwise it holds exactly the numbers the tokens read as |
| Profile.InWeekRange | app/routes/profile.py:355 | the filter keeps exactly the values in 1..53 |
| Profile.InsertUnique | app/routes/profile.py:356 | inserting into an increasing list keeps it increasing and adds exactly the element |
| Profile.SortedSet | app/routes/profile.py:356 | `sorted(set(xs))` is strictly increasing with the same elements |
| Profile.ParseWeeks | app/routes/profile.py:350-356 | the week list of the form; its contract is stated by `Profile.ParseWeeksSpec` |
| Profile.ParseWeeksSpec | app/routes/profile.py:350-356 | parsing fails exactly when the input is not blank and some token is all digits to `isdigit()` but holds a digit `int()` refuses; otherwise the list is strictly increasing and a week is in it exactly when it lies in 1..53 and some token of a non-blank input reads as it |
| Profile.BlankWeeksEmpty | app/routes/profile.py:350-353 | a blank input gives the empty list |
| Profile.AppendedToken | app/routes/profile.py:350-351 | appending `,token` to the input appends that token's reading to the readings |
| Profile.JunkTokenIgnored | app/routes/profile.py:351 | a token that `isdigit()` refuses after stripping changes nothing |
| Profile.UnreadableTokenFails | app/routes/profile.py:351 | one token that is all digits but not all decimal makes the whole parse fail, whatever the other tokens are |
| Profile.ArabicIndicToken | app/routes/profile.py:351 | the Arabic-Indic digit three is read as 3 |
| Profile.ArabicIndicValues | app/routes/profile.py:351 | a single Arabic-Indic three gives the values [3] |
| Profile.ArabicIndicWeek | app/routes/profile.py:350-356 | the input "٣" gives the weeks [3] |
| Profile.SuperscriptWeekFails | app/routes/profile.py:350-356 | the input "5,²" fails instead of giving [5]: `isdigit()` accepts the superscript two and `int()` refuses it |
| Profile.UpdateVacation | app/routes/profile.py:328-373 | a year outside 2020..2100 is rejected with nothing changed; a token that makes `int()` raise fails the request with nothing changed; otherwise the year's list is replaced by the parsed weeks; every other year, the password and the flag are never changed |
| Profile.ProfilePasswordCheck | app/routes/profile.py:112-116 | a wrong current password is refused first, then a new password shorter than 8 |
| Profile.ChangePassword | app/routes/profile.py:112-118 | on success the new password is stored; on error nothing changes; the forced-change flag and the vacation map never change |
| Profile.CollectDates | app/routes/profile.py:413-420 | the loop keeps the dates of the non-blank tokens that parse, skipping the others |
| Profile.VacationLedger.constructor | app/routes/profile.py:422-432 | a ledger of the user's vacation dates |
| Profile.YearDays | app/routes/profile.py:422-432 | the existing dates of the year are the ledger's dates in 1 January..31 December |
| Profile.SyncVacationDays | app/routes/profile.py:405-442 | exactly the new dates not yet stored are added and exactly the year's stored dates not submitted are deleted |
| Profile.SyncedDaysSpec | app/routes/profile.py:434-438 | after the sync a date of the year is stored exactly when it was submitted; a date of another year exactly when it was stored or submitted |
| Profile.SyncIdempotent | app/routes/profile.py:434-438 | syncing the same dates again changes nothing |

## Left out

- Persistence, HTTP and templates: SQLAlchemy queries and commits, FastAPI routes, templates, cookies, JWT and logging are not modelled. Database rows are input sequences or maps, and a query's `.first()` takes the first matching row in stored order.
- The JSON loaders of `app/core/storage.py`, the lazily loaded module globals and the `@cache` wrappers are not modelled. The settings, the rotation pattern, the shift types, the base OB rules, the on-call rules and the tax brackets are explicit configuration parameters.
- `date.today()` and `datetime.now()` are parameters (`today`).
- Python `round()` is not modelled: money is an exact `real`. This covers the on-call totals, the vacation payout, the blended supplement, the transition average and the overtime pay.
- Money is never compared against a rounded value.
- Hours are kept as whole seconds instead of the floats the source divides out.
- The rounding of `effective_rate` in the on-call result is not modelled.
- Dict keys that are `str(year)` or `str(person_id)` are keyed by the number itself. `str` of an integer is one-to-one, so nothing is lost.
- Iteration over a Python `set` of years is modelled in ascending order. The sums taken over it do not depend on the order.
- Display-only fields are not carried in the model: person names, `weekday_name`, `coworkers`, `created_at`, `rotation_length`, the template contexts and the log events.
- The variable rotation length from `get_rotation_length_for_date` / `get_rotation_era_for_date` is not modelled. Those are imported from `app/core/schedule/core.py`, but core.py does not define them. The rotation length comes from the configured pattern.
- The `rate_overrides` argument that `app/core/schedule/period.py` passes is not modelled. `calculate_oncall_pay` in app/core/oncall.py does not accept it; per-user rates reach the engine through `Rates`.
- `OT_RATE_DIVISOR` is a parameter. It is not defined in the shown constants file.
- `get_user_wage` and the month's absence deductions are parameters (`wageOn`, `absenceIn`). The tax table lookup is a parameter that may fail (`TaxSource`).
- Ob.CalculateObHours: requires every rule's times to be well formed. The source raises ValueError for a malformed time only when a rule with it is selected for some date. The same requirement (`AllWellFormed`) is carried by every Ob, Summary, SummaryYear, SummaryGrid and Period member that computes OB hours.
- Ob.CalculateObPay: same requirement as `Ob.CalculateObHours`.
- OnCallPay.CalculateOncallPay: requires well-formed rule times (`AllOcWellFormed`) and non-zero rates (`RatesSet`). The source raises ValueError or ZeroDivisionError on those inputs. The same requirement is carried by `OnCallPay.CalculateOncallPayForPeriod`, `OnCallPay.CalculateOncallPayForMonth`, `OnCall.GetRuleIntervalsForShift` and the Period members that pay on-call time.
- ScheduleCore.DetermineShift: requires a pattern with a positive length and seven codes for every week (`ValidPattern`). The source raises ZeroDivisionError or KeyError otherwise.
- Period.GeneratePeriod: requires the configuration checks above, plus shift types whose times parse (`ShiftTimesOk`) and a non-zero overtime divisor. Without them the source raises an exception.
- Overtime.OvertimePayAdditive: requires a non-zero divisor. The source divides by it.
- The shift windows examined by the on-call engine start on the shift's first date. A rule window that opens on the day before the shift and runs past midnight is not examined, as in the source.
- The `specific_date` attribute read by the rule selectors is not modelled. The rule classes do not have it, so that test never matches.
- The OB rule time format is handled as the `split(":")` pair the engines produce. Malformed rule strings are not modelled beyond the well-formedness requirement above.
- `calculate_vacation_pay` is not modelled. Its figures, the monthly salary, the fixed and variable supplements and the payout share, are the `PayFigures` parameter.
- `get_vacation_dates_for_year` is not modelled; it is a database read.
- The database part of `count_vacation_days_used` is modelled as a filter over the absence rows.
- Vacation.User.CloseVacationYear: the record's payout per day and amount are exact, not rounded to two decimals.
- A closing record missing the `saved` key is not modelled. Such a record is read as saving nothing in the source; in the model every record has its `saved` count.
- `calculate_consultant_vacation_payout` in app/core/schedule/transition.py is not modelled. It is the float payout (÷ 21.75 and `round()`), and its wage lookup is a database query.
- The direct-employment month split in app/core/schedule/transition.py is not modelled, for the same reason.
- Transition.VariableAvgSpec: the per-month summaries are a parameter. A month whose summary raises is passed as `None` and adds nothing, as the source's `except` does. The `generate_period_data` exception is a `None` period.
- `can_see_data_for_date` in app/core/helpers.py is not modelled. It reads the person history from the database.
- `render_template` in app/core/helpers.py is not modelled; it is plumbing.
- Helpers.ContrastColor: the floating-point luminance is stated exactly as 299r + 587g + 114b > 127500. The source's float quotient could differ from it only at the exact threshold.
- Digits.ClassOf: the digit tables are those of Unicode 15.0, which Python 3.12 ships. Another Python version uses another Unicode version, which may class more characters as digits.
- Digits.ReadDecimal: the limit of 4300 digits that Python 3.11 and later put on `int()` of a string is not modelled. A longer numeral is read as its value, where the source raises ValueError.
- TimeText.StrptimeHM: `strptime`'s `%H` and `%M` patterns use `\d`, which also matches a non-ASCII decimal digit in the second place of a two-digit field and in a one-digit field. The model reads ASCII digits only, so such a time is refused where the source reads it.
- TimeText.StrptimeHMS: the same holds for `%H:%M:%S`.
- Helpers.ContrastColor: `int(s, 16)` accepts non-ASCII digits and underscores, which are not modelled. The model reads ASCII hex digits, signs and surrounding blanks.
- Dates outside years 1..9999 are not modelled. Python raises OverflowError or ValueError there, while the ordinal model extends the calendar both ways. This applies to `Utils.NavigationDates` next to 1 January 0001 or 31 December 9999 and to `Profile.SyncVacationDays` for such a year.
- `Validators.MakeDate` does check the 1..9999 year range.
- AuthRoutes.IsSafeRedirect: a ValueError that `urlparse` raises for an unbalanced '[' in the network location is folded into "not safe".
- AuthRoutes.IsSafeRedirect: `urlparse`'s scheme cache and its IPv6 bracket checks are not modelled.
- Password hashing (bcrypt) is represented by the password it verifies: storing a hash of `p` stores `p`, and verifying is equality.
- The `fromisoformat` date parser of `sync_vacation_days` is a parameter of `Profile.CollectDates`.
- Profile.SyncVacationDays: the ledger holds the user's VACATION absence dates as a set. Other absence types on the same date, duplicate rows and the row ids are not modelled. `add_vacation_day` and `delete_vacation_day` are not modelled.
- A `None` vacation map is read as the empty map.
- The per-user `rotation_person_id` of `None` is not modelled. The user-to-position mapping is a map of integers.
- The cached `_persons` global in app/core/schedule/cowork.py is not modelled; names are display-only.

## Findings

| source | as written | input that shows it | evidently intended | confidence | as-written member | corrected member |
|---|---|---|---|---|---|---|
| app/core/schedule/summary.py:478-479 | the year summary sums `m.get("off_days", 0)` and `m.get("off_hours", 0.0)` over the month dicts, but the month dict built at lines 197-223 has no such keys (they stay in `totals`, lines 189-190) | any year with a month whose absence figures hold an off day: `SummaryYear.OffDaysLostExample` has one off day, and the year shows 0 | the year's off days and hours are the months' off days and hours added up | high; not executed | SummaryYear.MonthFiguresAsWritten, SummaryYear.OffDaysLost, SummaryYear.OffDaysLostExample | SummaryYear.MonthFigures, SummaryYear.OffDaysKept |
| app/core/rates.py:72 | `get_user_rates` keeps a record only while `effective_to > date`, but `add_new_rates` (line 115) closes the previous record with `effective_to` = the day before the new start, its last day in force (and `get_rate_history`, line 161, shows it as current through that day) | older record 100..199 and newer record from 200, asked for day 199: neither record matches, so the lookup falls back to the current rates, the newer ones (`Rates.GapExample`) | the closed record stays in force through its last day (`effective_to >= date`) | medium; not executed | Rates.UserRatesAsWritten, Rates.ClosedRecordGapAsWritten, Rates.GapExample | Rates.UserRates, Rates.ClosedRecordCovers |
