# Pregnancy wheel: arc paths and date-to-wheel layout

A Dafny model of the arithmetic behind the pregnancy-wheel page: the two SVG
arc path builders of `src/lib/utils.ts` and the date-to-angle layout of
`src/components/Wheel.tsx`.

- `arc_paths.dfy` (module `ArcPaths`): `describeArc` (an open arc) and
  `describeArc2` (a closed pie wedge) build paths of SVG path commands
  (section 8.3 of SVG 1.1: `M`, `L`, `A rx ry rotation large-arc sweep x y`,
  `Z`) as a datatype. `polar` is a function-typed parameter that is never
  interpreted, so each statement about a path holds whatever `polar`
  returns. JavaScript's `%` on numbers is modelled as the truncating
  remainder (`Rem360`). It is proved to agree with the mathematical residue
  modulo 360 (`ForwardDelta`) after the two-step normalisation of
  `describeArc`.
- `calendar.dfy` (module `Calendar`): a minimal proleptic Gregorian calendar
  that stands in for the dayjs operations the wheel uses: day of month,
  0-based month, month length, adding days (`AddDays`, the n-fold
  successor) and same-day comparison (equality).
- `wheel_layout.dfy` (module `WheelLayout`): the constants of the component,
  `createDaysArray` and the `monthStartIdx` reduce as methods with loops,
  `angle`, the month arcs, the per-day tick rules, the trimester wedges,
  and `Wheel`, which assembles all of them for a given `today`.

Numbers are exact reals. `DegPerDay` is exactly 360/365. The day array
starts at today and runs 365 days, as the code at `Wheel.tsx:25-27` does;
there is no pre-roll before today, no last-menstrual-period date and no
gestational-week ticks in this code. The trimester wedges sit at
`angle(0)`, `angle(98)`, `angle(196)` and `angle(294)`, counted from today.
The month arcs are contiguous, and together they cover the angle from the
first month start to the end of the last month (`TotalSpanTelescopes`).
A 365-day array holds eleven or twelve month starts. With twelve arcs the
span is 365 or 366 days, and it is 366 when the arcs include a 29 February.
For example, from 1 January 2024 the arcs run to index 366. With eleven
arcs the span is less than a full turn. For example, from 2 March 2023 the
arcs cover indices 30 to 365.

## Model

| member | source | states |
|---|---|---|
| `ArcPaths.Rem360` | src/lib/utils.ts:22 | JavaScript `a % 360` lies in [0, 360) for a ≥ 0 and in (-360, 0] for a < 0, and differs from a by whole turns |
| `ArcPaths.NormalizedDelta` | src/lib/utils.ts:21-22 | the delta of `describeArc` lies in [0, 360) for every start and end angle and names the same direction as endDeg - startDeg |
| `ArcPaths.NormalizedDeltaIsForwardDelta` | src/lib/utils.ts:22 | the two-step JavaScript normalisation equals the Euclidean residue of endDeg - startDeg modulo 360 for all reals |
| `ArcPaths.NormalizedDeltaShift` | src/lib/utils.ts:22-24 | shifting startDeg or endDeg by any integer multiple of 360 leaves the delta unchanged |
| `ArcPaths.NormalizedDeltaOfSmallSpan` | src/lib/utils.ts:22 | a span already in [0, 360) is its own delta |
| `ArcPaths.DescribeArc` | src/lib/utils.ts:17-28 | the path is one move to polar(startDeg) and one arc with rx = ry = r and rotation 0 ending at polar(endDeg); large-arc flag 1 iff the clockwise turn from start to end exceeds 180; sweep flag 1 iff cw |
| `ArcPaths.DescribeArcFlagPeriodic` | src/lib/utils.ts:22-24 | the large-arc flag of an open arc is unchanged when either angle moves by whole turns |
| `ArcPaths.DescribeArcFlagExamples` | src/lib/utils.ts:24 | 0→200 gives flag 1, 0→100 gives 0, and 350→10 (delta 20) gives 0 |
| `ArcPaths.DescribeArc2` | src/lib/utils.ts:30-38 | the wedge is a move to the centre (x, y), a line to polar(endDeg), an arc with rx = ry = r and rotation 0 ending at polar(startDeg), then close; large-arc flag 0 iff the raw endDeg - startDeg ≤ 180; sweep flag 1 iff cw |
| `ArcPaths.DescribeArc2NegativeSpan` | src/lib/utils.ts:34 | a wedge with endDeg ≤ startDeg always gets large-arc flag 0, with no normalisation |
| `ArcPaths.WedgeArcReversesOpenArc` | src/lib/utils.ts:17-38 | for a span in [0, 360) the wedge's arc is the open arc traced backwards: swapped end points, the same large-arc flag, the opposite sweep |
| `ArcPaths.WedgeAndOpenArcFlagsDiverge` | src/lib/utils.ts:22-34 | beyond a full turn the two flags differ: 0→390 gives wedge flag 1 but open-arc flag 0 |
| `Calendar.DaysInMonth` | src/components/Wheel.tsx:41 | a month has 28 to 31 days, and 29 exactly for February of a leap year |
| `Calendar.Succ` | src/components/Wheel.tsx:26 | the next calendar day, as `add(1, "day")`: a valid date strictly later than its argument, and on the 1st exactly when the argument is the last day of its month |
| `Calendar.SuccIsNextDay` | src/components/Wheel.tsx:26 | no valid date lies strictly between a date and its successor, so together with the contract of `Succ` the successor is exactly the next calendar day |
| `Calendar.AddDays` | src/components/Wheel.tsx:26 | adding days to a valid date yields a valid date |
| `Calendar.AddDaysAdditive` | src/components/Wheel.tsx:26 | adding m days and then n days is adding m + n days |
| `Calendar.AddDaysIncreasing` | src/components/Wheel.tsx:26 | adding more days lands strictly later, so the days of the array are pairwise distinct |
| `Calendar.DaysOfMonth` | src/components/Wheel.tsx:41-44 | after d come d.day + 1, d.day + 2, … of the same month up to its last day, then the first of a month |
| `Calendar.YearEndPrecedesYearStart` | src/components/Wheel.tsx:136-137 | a date is 31 December iff the next date is 1 January |
| `WheelLayout.CreateDaysArray` | src/components/Wheel.tsx:17-30 | exactly 365 entries, entry i is today plus i days |
| `WheelLayout.ConsecutiveSucc` | src/components/Wheel.tsx:25-27 | each entry of the day array is the calendar successor of the one before |
| `WheelLayout.MonthStartIndices` | src/components/Wheel.tsx:34-37 | the result is strictly increasing and holds exactly the indices whose day of month is 1 |
| `WheelLayout.MonthStartIndexUnique` | src/components/Wheel.tsx:34-37 | that characterisation determines the index list uniquely |
| `WheelLayout.AngleLaws` | src/components/Wheel.tsx:60-62 | angle(0) = 0, angle(365) = 360, consecutive indices differ by 360/365, angle(i, offset) = angle(i + offset), and angle is strictly increasing |
| `WheelLayout.MonthArcAt` | src/components/Wheel.tsx:39-47 | a month arc has id mi and carries the month of its start date as its label; it starts at angle(startIdx), spans daysInMonth · 360/365 (strictly between 0 and 180), and its open arc on the label ring gets large-arc flag 0 and sweep flag 1 |
| `WheelLayout.MonthArcs` | src/components/Wheel.tsx:39-58 | one arc per month start, in array order |
| `WheelLayout.FirstMonthStart` | src/components/Wheel.tsx:25-37 | there is always a month start; the first one is today when today is the 1st, otherwise the first of the next month |
| `WheelLayout.NextMonthStart` | src/components/Wheel.tsx:34-44 | the month start after index s is s + daysInMonth of the month starting at s |
| `WheelLayout.MonthArcsContiguous` | src/components/Wheel.tsx:43-44 | each month arc's end angle equals the next arc's start angle: no gap, no overlap |
| `WheelLayout.TotalSpanTelescopes` | src/components/Wheel.tsx:43-44 | contiguous arcs together span exactly last end minus first start |
| `WheelLayout.TickLength` | src/components/Wheel.tsx:126-128 | three disjoint cases: 108 on the 1st, 32 on other multiples of 5, 16 otherwise |
| `WheelLayout.ShowsDayLabel` | src/components/Wheel.tsx:146 | for days 1 to 31 a label shows exactly on 5, 10, 15, 20 and 25; a labelled day never has the full-length tick |
| `WheelLayout.DayTickAt` | src/components/Wheel.tsx:125-158 | the tick is a vertical line at x = CENTER_X rotated by angle(i) about the centre, runs outward from the inner ring by its tick length, carries the day number iff the label rule holds, 6 units beyond the tip; today-highlight iff the date is today; year-start highlight iff the date is 1 January, year-end highlight iff it is 31 December, never both |
| `WheelLayout.DayTicks` | src/components/Wheel.tsx:125-161 | one tick per entry of the day array, in order |
| `WheelLayout.TodayHighlightOnlyFirst` | src/components/Wheel.tsx:135 | on the day array only tick 0 carries the today highlight |
| `WheelLayout.YearHighlightsAdjacent` | src/components/Wheel.tsx:136-137 | tick i has the year-end highlight iff tick i + 1 has the year-start highlight |
| `WheelLayout.TrimesterBand` | src/components/Wheel.tsx:166-180 | band k is the wedge from angle(98k) to angle(98(k + 1)) on the inner ring; it spans 98 · 360/365 < 180, so its flags are large-arc 0 and sweep 0 |
| `WheelLayout.TrimesterBands` | src/components/Wheel.tsx:165-181 | exactly the three bands k = 0, 1, 2 in order |
| `WheelLayout.TrimesterBandsContiguous` | src/components/Wheel.tsx:169-179 | the bands start at angle 0, each ends where the next starts, and the last ends at angle(294) < 360 |
| `WheelLayout.Wheel` | src/components/Wheel.tsx:32-62 | the whole layout for a given today: 365 consecutive days, the exact month-start indices, contiguous month arcs with flags 0/1 whose spans sum to last end minus first start, the 365 day ticks of the day array, with only the first highlighted as today, and the three trimester bands |

## Left out

- `polar` (src/lib/utils.ts:8-15): floating-point trigonometry; it is an uninterpreted parameter, so nothing is stated about where its points lie.
- Floating point: all numbers are exact reals, so rounding in `%`, in `360 / 365` and in the angle sums is not modelled. NaN and infinite angles are not modelled.
- Number-to-string formatting of the path templates (src/lib/utils.ts:27,37) and the `rotate(...)` transform strings (src/components/Wheel.tsx:144,153): paths are command lists, and a tick carries its rotation angle.
- `cn` (src/lib/utils.ts:4-6): a class-name helper over external libraries.
- The clock: `dayjs()` is read in `createDaysArray` and again for the today highlight (src/components/Wheel.tsx:18,135). Both readings are the one `today` parameter, so a render that straddles midnight is not modelled.
- dayjs itself: replaced by the minimal Gregorian calendar of `Calendar`. Time zones and times of day are not modelled.
- The month label text (`format("MMMM").toUpperCase()`, src/components/Wheel.tsx:55) is kept as the 0-based month number. The arc id string `month-arc-${mi}` is kept as `mi`.
- JSX rendering, ring circles, text paths, CSS classes and colours (src/components/Wheel.tsx:64-212).
- src/App.tsx: view state only. It passes an `offset` prop that `Wheel` does not accept, so `angle` is always called with offset 0 by the component. The offset parameter is modelled in `Angle`.
- `describeArc`'s and `describeArc2`'s optional `cw` is a `bool` parameter; an absent `cw` is `false`.
