/**
  Date-to-wheel layout of the pregnancy wheel (src/components/Wheel.tsx).

  The wheel shows 365 consecutive days starting at today, one day per
  360/365 degrees clockwise from the top.  It draws one labelled arc per
  month that starts inside those days, one tick per day, and three trimester
  wedges of 98 days each.  The clock is not read here: today is a parameter.
*/
module WheelLayout {
  import opened ArcPaths
  import opened Calendar

  datatype Option<T> = None | Some(value: T)

  const Width: int := 1024
  const Height: int := 896
  const CenterX: real := Width as real / 2.0
  const CenterY: real := Height as real / 2.0
  const RadiusLabel: real := (if Width > Height then Height else Width) as real / 2.0 - 40.0
  const RadiusOuter: real := RadiusLabel + 20.0
  const RadiusMiddle: real := RadiusOuter - 40.0
  const RadiusInner: real := RadiusOuter - 108.0
  const DegPerDay: real := 360.0 / 365.0
  const TickLong: real := 32.0
  const TickShort: real := 16.0

  /** Number of days on the wheel. */
  const DayCount: nat := 365
  /** Length of each trimester band, in days. */
  const TrimesterDays: nat := 98

  // ---------------------------------------------------------------------------
  // The day array

  /** days[i] is i days after today, for every entry. */
  predicate ConsecutiveFrom(days: seq<Date>, today: Date)
  {
    Valid(today) && forall i :: 0 <= i < |days| ==> days[i] == AddDays(today, i)
  }

  /** createDaysArray: the 365 days today, today + 1, .., today + 364. */
  method CreateDaysArray(today: Date) returns (days: seq<Date>)
    requires Valid(today)
    ensures |days| == DayCount
    ensures ConsecutiveFrom(days, today)
  {
    days := [];
    for i := 0 to DayCount
      invariant |days| == i
      invariant forall j :: 0 <= j < i ==> days[j] == AddDays(today, j)
    {
      days := days + [AddDays(today, i)];
    }
  }

  /** Consecutive entries are consecutive calendar days. */
  lemma ConsecutiveSucc(days: seq<Date>, today: Date, i: nat)
    requires ConsecutiveFrom(days, today) && i + 1 < |days|
    ensures Valid(days[i]) && days[i + 1] == Succ(days[i])
  {
  }

  // ---------------------------------------------------------------------------
  // Month starts

  /** idx lists, in increasing order, exactly the indices of days that fall on the first of a month. */
  predicate IsMonthStartIndex(days: seq<Date>, idx: seq<int>)
  {
    (forall k :: 0 <= k < |idx| ==> 0 <= idx[k] < |days| && days[idx[k]].day == 1) &&
    (forall j, k :: 0 <= j < k < |idx| ==> idx[j] < idx[k]) &&
    (forall i :: 0 <= i < |days| && days[i].day == 1 ==> i in idx)
  }

  /** The monthStartIdx reduce: push every index whose day of month is 1. */
  method MonthStartIndices(days: seq<Date>) returns (acc: seq<int>)
    ensures IsMonthStartIndex(days, acc)
  {
    acc := [];
    for i := 0 to |days|
      invariant forall k :: 0 <= k < |acc| ==> 0 <= acc[k] < i && days[acc[k]].day == 1
      invariant forall j, k :: 0 <= j < k < |acc| ==> acc[j] < acc[k]
      invariant forall j :: 0 <= j < i && days[j].day == 1 ==> j in acc
    {
      if days[i].day == 1 {
        acc := acc + [i];
      }
    }
  }

  /** The characterisation leaves no choice: two index lists that meet it are equal. */
  lemma MonthStartIndexUnique(days: seq<Date>, a: seq<int>, b: seq<int>)
    requires IsMonthStartIndex(days, a) && IsMonthStartIndex(days, b)
    ensures a == b
  {
    IncreasingSameElements(a, b);
  }

  /** Two strictly increasing lists with the same elements are the same list. */
  lemma {:induction false} IncreasingSameElements(a: seq<int>, b: seq<int>)
    requires forall j, k :: 0 <= j < k < |a| ==> a[j] < a[k]
    requires forall j, k :: 0 <= j < k < |b| ==> b[j] < b[k]
    requires forall x :: x in a <==> x in b
    ensures a == b
  {
    if a != [] { assert a[0] in a; }
    if b != [] { assert b[0] in b; }
    if a != [] && b != [] {
      assert a[0] == b[0] by {
        assert a[0] in b && b[0] in a;
      }
      forall x
        ensures x in a[1..] <==> x in b[1..]
      {
        assert x in a[1..] <==> x in a && x != a[0];
        assert x in b[1..] <==> x in b && x != b[0];
      }
      IncreasingSameElements(a[1..], b[1..]);
      assert a == [a[0]] + a[1..] && b == [b[0]] + b[1..];
    }
  }

  // ---------------------------------------------------------------------------
  // Angles

  /** angle(i, offset): the wheel angle of day index i shifted by offset days. */
  function Angle(i: int, offset: int := 0): (a: real)
  {
    (i + offset) as real * DegPerDay
  }

  /** The angle is linear in the day index: 0 at index 0, a full turn at 365, one day's step per index. */
  lemma AngleLaws(i: int, j: int, offset: int)
    ensures Angle(0) == 0.0 && Angle(DayCount) == 360.0
    ensures Angle(i + 1) - Angle(i) == DegPerDay
    ensures Angle(i, offset) == Angle(i + offset)
    ensures Angle(j) - Angle(i) == (j - i) as real * DegPerDay
    ensures i < j <==> Angle(i) < Angle(j)
  {
  }

  // ---------------------------------------------------------------------------
  // Month arcs

  /** One month arc: label month (0-based; the label is its upper-case name), angles and the open-arc path the label follows. */
  datatype MonthArc = MonthArc(id: nat, month: int, startAngle: real, endAngle: real, path: Path)

  /** The arc of the mi-th month start: from angle(startIdx), daysInMonth days long, drawn clockwise on the label ring. */
  function MonthArcAt(polar: Polar, days: seq<Date>, idx: seq<int>, mi: nat): (arc: MonthArc)
    requires mi < |idx| && 0 <= idx[mi] < |days| && Valid(days[idx[mi]])
    ensures arc.id == mi && arc.month == days[idx[mi]].month
    ensures arc.startAngle == Angle(idx[mi])
    ensures arc.endAngle - arc.startAngle
         == DaysInMonth(days[idx[mi]].year, days[idx[mi]].month) as real * DegPerDay
    ensures 0.0 < arc.endAngle - arc.startAngle < 180.0
    ensures arc.path == DescribeArc(polar, CenterX, CenterY, RadiusLabel, arc.startAngle, arc.endAngle, true)
    ensures arc.path[1].largeArc == 0 && arc.path[1].sweep == 1
  {
    var startIdx := idx[mi];
    var startDate := days[startIdx];
    var daysInMonth := DaysInMonth(startDate.year, startDate.month);
    var startAngle := Angle(startIdx);
    var endAngle := startAngle + daysInMonth as real * DegPerDay;
    NormalizedDeltaOfSmallSpan(startAngle, endAngle);
    NormalizedDeltaIsForwardDelta(startAngle, endAngle);
    MonthArc(mi, startDate.month, startAngle, endAngle,
             DescribeArc(polar, CenterX, CenterY, RadiusLabel, startAngle, endAngle, true))
  }

  /** monthArcs: the arc of every month start, in array order. */
  function MonthArcs(polar: Polar, days: seq<Date>, idx: seq<int>): (arcs: seq<MonthArc>)
    requires forall k :: 0 <= k < |idx| ==> 0 <= idx[k] < |days| && Valid(days[idx[k]])
    ensures |arcs| == |idx|
    ensures forall mi :: 0 <= mi < |idx| ==> arcs[mi] == MonthArcAt(polar, days, idx, mi)
  {
    seq(|idx|, mi requires 0 <= mi < |idx| => MonthArcAt(polar, days, idx, mi))
  }

  /** After a month start, the next month start is exactly that month's length later. */
  lemma NextMonthStart(today: Date, days: seq<Date>, idx: seq<int>, k: nat)
    requires ConsecutiveFrom(days, today) && IsMonthStartIndex(days, idx)
    requires k + 1 < |idx|
    ensures idx[k + 1] == idx[k] + DaysInMonth(days[idx[k]].year, days[idx[k]].month)
  {
    var s := idx[k];
    var d := days[s];
    var n := DaysInMonth(d.year, d.month);
    // No first of a month strictly inside the month that starts at s.
    forall j | s < j < s + n && j < |days|
      ensures days[j].day != 1
    {
      AddDaysAdditive(today, s, j - s);
      DaysOfMonth(d, j - s);
    }
    assert idx[k + 1] >= s + n by {
      assert s < idx[k + 1] && days[idx[k + 1]].day == 1;
    }
    if s + n < |days| {
      AddDaysAdditive(today, s, n);
      DaysOfMonth(d, n);
      assert s + n in idx;
      var p :| 0 <= p < |idx| && idx[p] == s + n;
      assert k < p;
      assert idx[k + 1] <= idx[p];
    }
  }

  /** The first month start is today when today is the first of a month, otherwise the first of next month. */
  lemma FirstMonthStart(today: Date, days: seq<Date>, idx: seq<int>)
    requires ConsecutiveFrom(days, today) && IsMonthStartIndex(days, idx)
    requires |days| == DayCount
    ensures |idx| > 0
    ensures idx[0] == if today.day == 1 then 0 else DaysInMonth(today.year, today.month) - today.day + 1
  {
    var f := if today.day == 1 then 0 else DaysInMonth(today.year, today.month) - today.day + 1;
    forall j | 0 <= j < f
      ensures days[j].day != 1
    {
      DaysOfMonth(today, j);
    }
    DaysOfMonth(today, f);
    assert f in idx;
    var p :| 0 <= p < |idx| && idx[p] == f;
    assert idx[0] <= idx[p];
  }

  /** Month arcs meet end to start: no gap and no overlap between consecutive months. */
  lemma MonthArcsContiguous(polar: Polar, today: Date, days: seq<Date>, idx: seq<int>)
    requires ConsecutiveFrom(days, today) && IsMonthStartIndex(days, idx)
    ensures forall k :: 0 <= k < |idx| ==> Valid(days[idx[k]])
    ensures var arcs := MonthArcs(polar, days, idx);
            forall k :: 0 <= k < |arcs| - 1 ==> arcs[k].endAngle == arcs[k + 1].startAngle
  {
    var arcs := MonthArcs(polar, days, idx);
    forall k | 0 <= k < |arcs| - 1
      ensures arcs[k].endAngle == arcs[k + 1].startAngle
    {
      NextMonthStart(today, days, idx, k);
      AngleLaws(idx[k], idx[k + 1], 0);
    }
  }

  /** The angle the month arcs cover, counting each arc once. */
  function TotalSpan(arcs: seq<MonthArc>): real
  {
    if arcs == [] then 0.0 else (arcs[0].endAngle - arcs[0].startAngle) + TotalSpan(arcs[1..])
  }

  /** Arcs that meet end to start cover, together, exactly the angle from the first start to the last end. */
  lemma {:induction false} TotalSpanTelescopes(arcs: seq<MonthArc>)
    requires |arcs| > 0
    requires forall k :: 0 <= k < |arcs| - 1 ==> arcs[k].endAngle == arcs[k + 1].startAngle
    ensures TotalSpan(arcs) == arcs[|arcs| - 1].endAngle - arcs[0].startAngle
  {
    if |arcs| > 1 {
      TotalSpanTelescopes(arcs[1..]);
    }
  }

  // ---------------------------------------------------------------------------
  // Day ticks

  /** Tick length by day of month: full band on the first, long on multiples of 5, short otherwise. */
  function TickLength(day: int): (len: real)
    ensures len == RadiusOuter - RadiusInner <==> day == 1
    ensures len == TickLong <==> day != 1 && day % 5 == 0
    ensures len == TickShort <==> day % 5 != 0 && day != 1
    ensures len == 108.0 || len == 32.0 || len == 16.0
  {
    if day == 1 then RadiusOuter - RadiusInner else if day % 5 == 0 then TickLong else TickShort
  }

  /** A day gets a number label on multiples of 5, except the 30th. */
  function ShowsDayLabel(day: int): (b: bool)
    ensures 1 <= day <= 31 ==> (b <==> day == 5 || day == 10 || day == 15 || day == 20 || day == 25)
    ensures b ==> day != 1 && TickLength(day) == TickLong
  {
    day % 5 == 0 && day != 30
  }

  predicate IsYearStart(d: Date) { d.month == 0 && d.day == 1 }

  predicate IsYearEnd(d: Date) { d.month == 11 && d.day == 31 }

  /**
    One day tick: the vertical line at x from y1 up to y2 (from the inner ring
    outwards by its length), rotated by angle(i) about the centre; an optional
    day-number label at x, 6 units beyond its tip;
    and its highlight classes (today, first of January, last of December).
  */
  datatype DayTick = DayTick(
    angle: real, length: real, x: real, y1: real, y2: real,
    dayLabel: Option<int>, labelY: real,
    isToday: bool, isYearStart: bool, isYearEnd: bool)

  function DayTickAt(date: Date, i: int, today: Date): (t: DayTick)
    ensures t.angle == Angle(i)
    ensures t.x == CenterX
    ensures t.y1 == CenterY - RadiusInner && t.y2 == t.y1 - t.length
    ensures t.labelY == t.y2 - 6.0
    ensures t.length == TickLength(date.day)
    ensures t.dayLabel.Some? <==> ShowsDayLabel(date.day)
    ensures t.dayLabel.Some? ==> t.dayLabel.value == date.day
    ensures t.isToday <==> date == today
    ensures t.isYearStart <==> date.month == 0 && date.day == 1
    ensures t.isYearEnd <==> date.month == 11 && date.day == 31
    ensures t.isYearStart ==> !t.isYearEnd
  {
    var tickLength := TickLength(date.day);
    DayTick(Angle(i), tickLength, CenterX, CenterY - RadiusInner, CenterY - (RadiusInner + tickLength),
            if ShowsDayLabel(date.day) then Some(date.day) else None,
            CenterY - (RadiusInner + tickLength + 6.0),
            date == today, IsYearStart(date), IsYearEnd(date))
  }

  /** The day-ticks map over the day array. */
  function DayTicks(days: seq<Date>, today: Date): (ticks: seq<DayTick>)
    ensures |ticks| == |days|
    ensures forall i :: 0 <= i < |days| ==> ticks[i] == DayTickAt(days[i], i, today)
  {
    seq(|days|, i requires 0 <= i < |days| => DayTickAt(days[i], i, today))
  }

  /** On the day array, only the first tick carries the today highlight. */
  lemma TodayHighlightOnlyFirst(today: Date, days: seq<Date>)
    requires ConsecutiveFrom(days, today)
    ensures forall i :: 0 <= i < |days| ==> (DayTicks(days, today)[i].isToday <==> i == 0)
  {
    forall i | 0 < i < |days|
      ensures days[i] != today
    {
      AddDaysIncreasing(today, 0, i);
    }
  }

  /** A year-end tick is always followed by a year-start tick, and a year-start tick preceded by a year-end tick. */
  lemma YearHighlightsAdjacent(today: Date, days: seq<Date>, i: nat)
    requires ConsecutiveFrom(days, today) && i + 1 < |days|
    ensures DayTicks(days, today)[i].isYearEnd <==> DayTicks(days, today)[i + 1].isYearStart
  {
    ConsecutiveSucc(days, today, i);
    YearEndPrecedesYearStart(days[i]);
  }

  // ---------------------------------------------------------------------------
  // Trimester wedges

  /** A trimester band: a closed wedge on the inner ring from angle(98k) to angle(98(k + 1)). */
  datatype Band = Band(startAngle: real, endAngle: real, path: Path)

  function TrimesterBand(polar: Polar, k: nat): (b: Band)
    requires k < 3
    ensures b.startAngle == Angle(TrimesterDays * k) && b.endAngle == Angle(TrimesterDays * (k + 1))
    ensures b.path == DescribeArc2(polar, CenterX, CenterY, RadiusInner, b.startAngle, b.endAngle, false)
    ensures b.endAngle - b.startAngle == TrimesterDays as real * DegPerDay < 180.0
    ensures b.path[2].largeArc == 0 && b.path[2].sweep == 0
  {
    var startAngle := Angle(TrimesterDays * k);
    var endAngle := Angle(TrimesterDays * (k + 1));
    AngleLaws(TrimesterDays * k, TrimesterDays * (k + 1), 0);
    Band(startAngle, endAngle, DescribeArc2(polar, CenterX, CenterY, RadiusInner, startAngle, endAngle, false))
  }

  function TrimesterBands(polar: Polar): (bands: seq<Band>)
    ensures |bands| == 3
    ensures forall k :: 0 <= k < 3 ==> bands[k] == TrimesterBand(polar, k)
  {
    [TrimesterBand(polar, 0), TrimesterBand(polar, 1), TrimesterBand(polar, 2)]
  }

  /** The bands start at the top, meet end to start, and stop short of a full turn (294 of 365 days). */
  lemma TrimesterBandsContiguous(polar: Polar)
    ensures var bands := TrimesterBands(polar);
            bands[0].startAngle == 0.0 &&
            bands[0].endAngle == bands[1].startAngle &&
            bands[1].endAngle == bands[2].startAngle &&
            bands[2].endAngle == Angle(3 * TrimesterDays) < 360.0
  {
    AngleLaws(3 * TrimesterDays, DayCount, 0);
  }

  // ---------------------------------------------------------------------------
  // The whole wheel

  datatype Layout = Layout(
    days: seq<Date>, monthStartIdx: seq<int>, monthArcs: seq<MonthArc>,
    dayTicks: seq<DayTick>, trimesters: seq<Band>)

  /** Wheel(): everything the component computes before rendering, for a given today. */
  method Wheel(polar: Polar, today: Date) returns (w: Layout)
    requires Valid(today)
    ensures |w.days| == DayCount && ConsecutiveFrom(w.days, today)
    ensures IsMonthStartIndex(w.days, w.monthStartIdx)
    ensures w.monthArcs == MonthArcs(polar, w.days, w.monthStartIdx)
    ensures |w.monthArcs| > 0
    ensures w.monthArcs[0].startAngle
         == Angle(if today.day == 1 then 0 else DaysInMonth(today.year, today.month) - today.day + 1)
    ensures forall k :: 0 <= k < |w.monthArcs| ==>
              w.monthArcs[k].startAngle == Angle(w.monthStartIdx[k]) &&
              w.monthArcs[k].path[1].largeArc == 0 && w.monthArcs[k].path[1].sweep == 1
    ensures forall k :: 0 <= k < |w.monthArcs| - 1 ==> w.monthArcs[k].endAngle == w.monthArcs[k + 1].startAngle
    ensures TotalSpan(w.monthArcs) == w.monthArcs[|w.monthArcs| - 1].endAngle - w.monthArcs[0].startAngle
    ensures w.dayTicks == DayTicks(w.days, today) && |w.dayTicks| == DayCount
    ensures forall i :: 0 <= i < DayCount ==> (w.dayTicks[i].isToday <==> i == 0)
    ensures w.trimesters == TrimesterBands(polar)
  {
    var days := CreateDaysArray(today);
    var monthStartIdx := MonthStartIndices(days);
    MonthArcsContiguous(polar, today, days, monthStartIdx);
    TodayHighlightOnlyFirst(today, days);
    var monthArcs := MonthArcs(polar, days, monthStartIdx);
    FirstMonthStart(today, days, monthStartIdx);
    TotalSpanTelescopes(monthArcs);
    w := Layout(days, monthStartIdx, monthArcs, DayTicks(days, today), TrimesterBands(polar));
  }
}
