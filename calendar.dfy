/**
 * The calendar widget's logic: the month grid, and the selection rules for
 * the single, multiple and range modes. A date is a day number counted from
 * 1970-01-01 (a Thursday); weeks start on Sunday.
 */
module Calendar {
  import opened Types
  import opened Seqs

  // ----- Days and weeks -----

  /** 0 = Sunday, …, 6 = Saturday. */
  function Weekday(day: int): (w: int)
    ensures 0 <= w < 7
    ensures (day - w) % 7 == 3
  {
    (day + 4) % 7
  }

  function StartOfWeek(day: int): (s: int)
    ensures s <= day < s + 7
    ensures Weekday(s) == 0
  {
    day - Weekday(day)
  }

  function EndOfWeek(day: int): (e: int)
    ensures e - 7 < day <= e
    ensures Weekday(e) == 6
  {
    day + 6 - Weekday(day)
  }

  // ----- Months of the Gregorian calendar -----

  datatype YearMonth = YearMonth(year: int, month: int)

  predicate ValidMonth(ym: YearMonth) {
    1 <= ym.month <= 12
  }

  predicate IsLeapYear(year: int) {
    year % 4 == 0 && (year % 100 != 0 || year % 400 == 0)
  }

  function DaysInMonth(ym: YearMonth): (n: int)
    requires ValidMonth(ym)
    ensures 28 <= n <= 31
    ensures ym.month == 2 ==> (n == 29 <==> IsLeapYear(ym.year))
  {
    if ym.month == 2 then (if IsLeapYear(ym.year) then 29 else 28)
    else if ym.month in {4, 6, 9, 11} then 30
    else 31
  }

  /** Days of the year before the first of `ym.month`. */
  function DaysBeforeMonth(ym: YearMonth): (n: int)
    requires ValidMonth(ym)
    ensures ym.month == 1 ==> n == 0
    ensures 30 * (ym.month - 1) - 2 <= n <= 31 * (ym.month - 1)
  {
    var m := ym.month;
    var common :=
      if m == 1 then 0 else if m == 2 then 31 else if m == 3 then 59 else if m == 4 then 90
      else if m == 5 then 120 else if m == 6 then 151 else if m == 7 then 181 else if m == 8 then 212
      else if m == 9 then 243 else if m == 10 then 273 else if m == 11 then 304 else 334;
    common + (if m > 2 && IsLeapYear(ym.year) then 1 else 0)
  }

  /** Leap years `y` with `y < year`, counted from year 0 (Euclidean division is floor here). */
  function LeapYearsBefore(year: int): int {
    (year - 1) / 4 - (year - 1) / 100 + (year - 1) / 400
  }

  /** The day number of the first of the month (`startOfMonth`). */
  function StartOfMonth(ym: YearMonth): (d: int)
    requires ValidMonth(ym)
    ensures ym == YearMonth(1970, 1) ==> d == 0
    ensures ym.month > 1 ==> d == StartOfMonth(YearMonth(ym.year, 1)) + DaysBeforeMonth(ym)
    decreases ym.month
  {
    365 * (ym.year - 1970) + (LeapYearsBefore(ym.year) - LeapYearsBefore(1970)) + DaysBeforeMonth(ym)
  }

  /** The day number of the last of the month (`endOfMonth`). */
  function EndOfMonth(ym: YearMonth): (d: int)
    requires ValidMonth(ym)
    ensures d - StartOfMonth(ym) + 1 == DaysInMonth(ym)
  {
    StartOfMonth(ym) + DaysInMonth(ym) - 1
  }

  function NextMonth(ym: YearMonth): (r: YearMonth)
    requires ValidMonth(ym)
    ensures ValidMonth(r)
  {
    if ym.month == 12 then YearMonth(ym.year + 1, 1) else YearMonth(ym.year, ym.month + 1)
  }

  lemma {:induction false} MulAtLeast(n: int, d: int)
    requires n > 0 && d >= 1
    ensures n * d >= n
    decreases d
  {
    if d > 1 {
      MulAtLeast(n, d - 1);
      assert n * d == n * (d - 1) + n;
    }
  }

  /** Division by a positive divisor has one quotient and one remainder. */
  lemma DivModUnique(a: int, n: int, q: int, r: int)
    requires n > 0 && 0 <= r < n && a == n * q + r
    ensures a / n == q && a % n == r
  {
    var q', r' := a / n, a % n;
    assert n * q' + r' == n * q + r;
    if q' > q {
      assert n * (q' - q) == r - r';
      MulAtLeast(n, q' - q);
    } else if q' < q {
      assert n * (q - q') == r' - r;
      MulAtLeast(n, q - q');
    }
  }

  lemma FloorStep(y: int, n: int)
    requires n > 0
    ensures y / n - (y - 1) / n == (if y % n == 0 then 1 else 0)
  {
    var q, r := y / n, y % n;
    assert y == n * q + r;
    if r > 0 {
      DivModUnique(y - 1, n, q, r - 1);
    } else {
      assert y - 1 == n * (q - 1) + (n - 1);
      DivModUnique(y - 1, n, q - 1, n - 1);
    }
  }

  lemma LeapYearStep(year: int)
    ensures LeapYearsBefore(year + 1) - LeapYearsBefore(year) == if IsLeapYear(year) then 1 else 0
  {
    FloorStep(year, 4);
    FloorStep(year, 100);
    FloorStep(year, 400);
    assert year % 400 == 0 ==> year % 100 == 0 && year % 4 == 0 by {
      if year % 400 == 0 { DivModUnique(year, 100, 4 * (year / 400), 0); DivModUnique(year, 4, 100 * (year / 400), 0); }
    }
    assert year % 100 == 0 ==> year % 4 == 0 by {
      if year % 100 == 0 { DivModUnique(year, 4, 25 * (year / 100), 0); }
    }
  }

  /** Months tile the day line: the next month starts the day after this one ends. */
  lemma NextMonthFollows(ym: YearMonth)
    requires ValidMonth(ym)
    ensures StartOfMonth(NextMonth(ym)) == EndOfMonth(ym) + 1
  {
    if ym.month == 12 {
      LeapYearStep(ym.year);
    }
  }

  lemma KnownWeekdays()
    ensures Weekday(StartOfMonth(YearMonth(1970, 1))) == 4
    ensures Weekday(StartOfMonth(YearMonth(2024, 1))) == 1
    ensures Weekday(StartOfMonth(YearMonth(2000, 3))) == 3
  {
  }

  // ----- The month grid -----

  /** `eachDayOfInterval({start, end})` */
  function EachDay(start: int, end: int): (days: seq<int>)
    requires start <= end + 1
    ensures |days| == end - start + 1
    ensures forall i :: 0 <= i < |days| ==> days[i] == start + i
  {
    seq(end - start + 1, i requires 0 <= i <= end - start => start + i)
  }

  function GridStart(ym: YearMonth): int
    requires ValidMonth(ym)
  {
    StartOfWeek(StartOfMonth(ym))
  }

  function GridEnd(ym: YearMonth): int
    requires ValidMonth(ym)
  {
    EndOfWeek(EndOfMonth(ym))
  }

  /** Rows of seven consecutive days from the Sunday on or before the 1st to the Saturday on or after the last day. */
  ghost predicate IsMonthGrid(weeks: seq<seq<int>>, ym: YearMonth)
    requires ValidMonth(ym)
  {
    && |weeks| > 0
    && (forall w :: 0 <= w < |weeks| ==> |weeks[w]| == 7)
    && (forall w, k :: 0 <= w < |weeks| && 0 <= k < |weeks[w]| ==> weeks[w][k] == GridStart(ym) + 7 * w + k)
    && 7 * |weeks| == GridEnd(ym) - GridStart(ym) + 1
  }

  lemma GridSpan(ym: YearMonth)
    requires ValidMonth(ym)
    ensures (GridEnd(ym) - GridStart(ym) + 1) % 7 == 0
    ensures 28 <= GridEnd(ym) - GridStart(ym) + 1 <= 42
  {
    WeekSpan(StartOfMonth(ym), EndOfMonth(ym));
  }

  /** From the Sunday on or before `first` to the Saturday on or after `last`: whole weeks. */
  lemma WeekSpan(first: int, last: int)
    requires first <= last
    ensures (EndOfWeek(last) - StartOfWeek(first) + 1) % 7 == 0
    ensures last - first + 1 <= EndOfWeek(last) - StartOfWeek(first) + 1 <= last - first + 13
  {
    var s, e := StartOfWeek(first), EndOfWeek(last);
    var a, b := s / 7, (e - 6) / 7;
    assert s == 7 * a + 3 by { assert (s - Weekday(s)) % 7 == 3; }
    assert e - 6 == 7 * b + 3 by { assert (e - Weekday(e)) % 7 == 3; }
    assert e - s + 1 == 7 * (b - a + 1);
  }

  /** `buildCalendarMatrix`: the interval's days, sliced into rows of seven. */
  method BuildCalendarMatrix(month: YearMonth) returns (weeks: seq<seq<int>>)
    requires ValidMonth(month)
    ensures IsMonthGrid(weeks, month)
  {
    var start := StartOfWeek(StartOfMonth(month));
    var end := EndOfWeek(EndOfMonth(month));
    var days := EachDay(start, end);
    GridSpan(month);
    ghost var rows := |days| / 7;
    assert 7 * rows == |days|;
    weeks := [];
    var i := 0;
    while i < |days|
      invariant i == 7 * |weeks| && |weeks| <= rows
      invariant forall w :: 0 <= w < |weeks| ==> |weeks[w]| == 7
      invariant forall w, k :: 0 <= w < |weeks| && 0 <= k < |weeks[w]| ==> weeks[w][k] == start + 7 * w + k
    {
      var stop := if i + 7 < |days| then i + 7 else |days|;
      assert stop == i + 7;
      var row := days[i..stop];
      assert forall k :: 0 <= k < |row| ==> row[k] == start + i + k;
      weeks := weeks + [row];
      i := i + 7;
    }
  }

  /** Counting whole weeks and then `k` days from a Sunday lands on weekday `k`. */
  lemma WeekdayShift(s: int, w: int, k: int)
    requires Weekday(s) == 0 && 0 <= k < 7
    ensures Weekday(s + 7 * w + k) == k
  {
    var a := (s + 4) / 7;
    assert s + 4 == 7 * a;
    DivModUnique(s + 7 * w + k + 4, 7, a + w, k);
  }
  /** The first cell is a Sunday and each column holds one weekday. */
  lemma GridWeekdays(weeks: seq<seq<int>>, ym: YearMonth)
    requires ValidMonth(ym) && IsMonthGrid(weeks, ym)
    ensures Weekday(weeks[0][0]) == 0
    ensures forall w, k :: 0 <= w < |weeks| && 0 <= k < 7 ==> Weekday(weeks[w][k]) == k
  {
    var s := GridStart(ym);
    forall w, k | 0 <= w < |weeks| && 0 <= k < 7 ensures Weekday(weeks[w][k]) == k {
      assert weeks[w][k] == s + 7 * w + k;
      WeekdayShift(s, w, k);
    }
  }

  /** Reading the rows in order gives consecutive days. */
  lemma GridConsecutive(weeks: seq<seq<int>>, ym: YearMonth)
    requires ValidMonth(ym) && IsMonthGrid(weeks, ym)
    ensures forall w, k :: 0 <= w < |weeks| && 0 <= k < 6 ==> weeks[w][k + 1] == weeks[w][k] + 1
    ensures forall w :: 0 <= w < |weeks| - 1 ==> weeks[w + 1][0] == weeks[w][6] + 1
  {
  }

  /** The cell that `day` falls in, counted from the grid's first Sunday, holds `day`. */
  ghost predicate InGrid(weeks: seq<seq<int>>, ym: YearMonth, day: int)
    requires ValidMonth(ym)
  {
    var w, k := (day - GridStart(ym)) / 7, (day - GridStart(ym)) % 7;
    0 <= w < |weeks| && k < |weeks[w]| && weeks[w][k] == day
  }

  /** Every day of the month has a cell, and no two cells hold the same day. */
  lemma GridHoldsMonthOnce(weeks: seq<seq<int>>, ym: YearMonth)
    requires ValidMonth(ym) && IsMonthGrid(weeks, ym)
    ensures forall d :: StartOfMonth(ym) <= d <= EndOfMonth(ym) ==> InGrid(weeks, ym, d)
    ensures forall w1, k1, w2, k2 ::
      0 <= w1 < |weeks| && 0 <= k1 < 7 && 0 <= w2 < |weeks| && 0 <= k2 < 7 && weeks[w1][k1] == weeks[w2][k2] ==>
      w1 == w2 && k1 == k2
    ensures 4 <= |weeks| <= 6
  {
    var s := GridStart(ym);
    forall d | StartOfMonth(ym) <= d <= EndOfMonth(ym)
      ensures InGrid(weeks, ym, d)
    {
      var w, k := (d - s) / 7, (d - s) % 7;
      assert d - s == 7 * w + k;
      assert weeks[w][k] == s + 7 * w + k;
    }
    forall w1, k1, w2, k2 |
      0 <= w1 < |weeks| && 0 <= k1 < 7 && 0 <= w2 < |weeks| && 0 <= k2 < 7 && weeks[w1][k1] == weeks[w2][k2]
      ensures w1 == w2 && k1 == k2
    {
      assert 7 * w1 + k1 == 7 * w2 + k2;
    }
    GridSpan(ym);
  }

  // ----- Selection -----

  datatype Mode = Single | Multiple | Range

  datatype DateRange = DateRange(from: Option<int>, to: Option<int>)

  /** The `selected` prop: nothing, one date, a list of dates, or a range. */
  datatype Selection = NoSelection | OneDate(date: int) | Dates(dates: seq<int>) | SelRange(range: DateRange)

  datatype DayState = DayState(isSelected: bool, isRangeStart: bool, isRangeEnd: bool, isInRange: bool)

  function Min(a: int, b: int): int { if a <= b then a else b }
  function Max(a: int, b: int): int { if a >= b then a else b }

  /** Inclusive on both ends, whichever end is earlier. */
  function IsWithinRange(date: int, range: Option<DateRange>): (r: bool)
    ensures r <==>
      && range.Some? && range.value.from.Some? && range.value.to.Some?
      && Min(range.value.from.value, range.value.to.value) <= date <= Max(range.value.from.value, range.value.to.value)
  {
    if range.None? || range.value.from.None? || range.value.to.None? then false
    else
      var from, to := range.value.from.value, range.value.to.value;
      var start := if from <= to then from else to;
      var end := if to >= from then to else from;
      (date > start || date == start) && (date < end || date == end)
  }

  lemma WithinRangeSymmetric(date: int, a: int, b: int)
    ensures IsWithinRange(date, Some(DateRange(Some(a), Some(b)))) == IsWithinRange(date, Some(DateRange(Some(b), Some(a))))
  {
  }

  /** `current.filter(value => !isSameDay(value, day))` */
  function RemoveDay(days: seq<int>, day: int): (r: seq<int>)
    ensures day !in r && |r| <= |days|
  {
    if days == [] then []
    else (if days[0] == day then [] else [days[0]]) + RemoveDay(days[1..], day)
  }

  /** The kept dates stay in their order. */
  lemma {:induction false} RemoveDayIsSubsequence(days: seq<int>, day: int)
    ensures IsSubsequence(RemoveDay(days, day), days)
  {
    if days != [] {
      RemoveDayIsSubsequence(days[1..], day);
      var rest := RemoveDay(days[1..], day);
      var r := RemoveDay(days, day);
      if days[0] != day {
        assert r == [days[0]] + rest && r[0] == days[0] && r[1..] == rest;
      } else {
        assert r == rest;
      }
    }
  }

  /** Every other date keeps its number of occurrences, repeats included. */
  lemma {:induction false} RemoveDayCounts(days: seq<int>, day: int)
    ensures multiset(RemoveDay(days, day))[day] == 0
    ensures forall x :: x != day ==> multiset(RemoveDay(days, day))[x] == multiset(days)[x]
  {
    if days != [] {
      RemoveDayCounts(days[1..], day);
      assert days == [days[0]] + days[1..];
    }
  }

  lemma {:induction false} RemoveDayMembers(days: seq<int>, day: int)
    ensures forall x :: x in RemoveDay(days, day) <==> x in days && x != day
  {
    if days != [] {
      RemoveDayMembers(days[1..], day);
      assert days == [days[0]] + days[1..];
    }
  }

  lemma {:induction false} RemoveAbsentDay(days: seq<int>, day: int)
    requires day !in days
    ensures RemoveDay(days, day) == days
  {
    if days != [] {
      assert days == [days[0]] + days[1..];
      RemoveAbsentDay(days[1..], day);
    }
  }

  lemma {:induction false} RemoveDayAppend(a: seq<int>, b: seq<int>, day: int)
    ensures RemoveDay(a + b, day) == RemoveDay(a, day) + RemoveDay(b, day)
  {
    if a != [] {
      assert (a + b)[0] == a[0] && (a + b)[1..] == a[1..] + b;
      RemoveDayAppend(a[1..], b, day);
    } else {
      assert a + b == b;
    }
  }

  /** The multiple-mode click: drop every entry on `day` if there is one, else append `day`. */
  function ToggleMultiple(current: Option<seq<int>>, day: int): (r: seq<int>)
    ensures current.None? ==> r == [day]
    ensures current.Some? && day !in current.value ==> r == current.value + [day]
    ensures current.Some? && day in current.value ==>
      && day !in r
      && (forall x :: x in r <==> x in current.value && x != day)
      && IsSubsequence(r, current.value)
      && (forall x :: x != day ==> multiset(r)[x] == multiset(current.value)[x])
  {
    match current
    case None => [day]
    case Some(days) =>
      if day in days then
        RemoveDayMembers(days, day);
        RemoveDayIsSubsequence(days, day);
        RemoveDayCounts(days, day);
        RemoveDay(days, day)
      else days + [day]
  }

  /** Clicking an unselected day twice gives back the original list. */
  lemma ToggleTwice(days: seq<int>, day: int)
    requires day !in days
    ensures ToggleMultiple(Some(ToggleMultiple(Some(days), day)), day) == days
  {
    RemoveDayAppend(days, [day], day);
    RemoveAbsentDay(days, day);
    assert RemoveDay([day], day) == [] + RemoveDay([], day);
  }

  /** The range-mode click. */
  function UpdateRange(current: Option<DateRange>, day: int): (r: DateRange)
    ensures current.None? || current.value.from.None? || current.value.to.Some? ==>
      r == DateRange(Some(day), None)
    ensures current.Some? && current.value.from.Some? && current.value.to.None? ==>
      var from := current.value.from.value;
      && r.from.Some? && r.to.Some? && r.from.value <= r.to.value
      && r.from.value == Min(from, day) && r.to.value == Max(from, day)
  {
    if current.None? || current.value.from.None? || (current.value.from.Some? && current.value.to.Some?) then
      DateRange(Some(day), None)
    else if day < current.value.from.value then
      DateRange(Some(day), current.value.from)
    else if day == current.value.from.value then
      DateRange(current.value.from, current.value.from)
    else
      DateRange(current.value.from, Some(day))
  }

  /** How `range` mode reads a non-list selection: a lone date has neither end. */
  function AsRange(selected: Selection): Option<DateRange> {
    match selected
    case NoSelection => None
    case OneDate(_) => Some(DateRange(None, None))
    case Dates(_) => None
    case SelRange(range) => Some(range)
  }

  function GetDayState(day: int, mode: Mode, selected: Selection): (r: DayState)
    ensures r.isInRange ==> mode == Range && !r.isRangeStart && !r.isRangeEnd && r.isSelected == false
    ensures mode == Range ==> r.isSelected == (r.isRangeStart || r.isRangeEnd)
    ensures mode != Range ==> !r.isRangeStart && !r.isRangeEnd && !r.isInRange
    ensures mode == Range && selected.SelRange? ==>
      && (r.isRangeStart <==> selected.range.from == Some(day))
      && (r.isRangeEnd <==> selected.range.to == Some(day))
      && (r.isInRange <==> IsWithinRange(day, Some(selected.range)) && !r.isRangeStart && !r.isRangeEnd)
    ensures mode == Multiple ==> (r.isSelected <==> selected.Dates? && day in selected.dates)
    ensures mode == Single ==> (r.isSelected <==> selected == OneDate(day))
    ensures mode == Range && !selected.SelRange? ==> r == DayState(false, false, false, false)
  {
    if mode == Multiple && selected.Dates? then
      DayState(day in selected.dates, false, false, false)
    else if mode == Range && selected != NoSelection && !selected.Dates? then
      var range := AsRange(selected).value;
      var isStart := range.from.Some? && range.from.value == day;
      var isEnd := range.to.Some? && range.to.value == day;
      DayState(isStart || isEnd, isStart, isEnd, IsWithinRange(day, Some(range)) && !isStart && !isEnd)
    else if mode == Single && selected.OneDate? then
      DayState(selected.date == day, false, false, false)
    else
      DayState(false, false, false, false)
  }

  /**
   * `handleDaySelection`: the value handed to `onSelect`, or `None` when a
   * disabled day is clicked and `onSelect` is not called.
   */
  function HandleDaySelection(day: int, disabled: bool, mode: Mode, selected: Selection): (r: Option<Selection>)
    ensures disabled <==> r.None?
    ensures !disabled && mode == Single ==>
      r == if selected == OneDate(day) then Some(NoSelection) else Some(OneDate(day))
    ensures !disabled && mode == Multiple ==>
      r == Some(Dates(ToggleMultiple(if selected.Dates? then Some(selected.dates) else None, day)))
    ensures !disabled && mode == Range && selected.SelRange? ==>
      r == Some(SelRange(UpdateRange(Some(selected.range), day)))
    ensures !disabled && mode == Range && !selected.SelRange? ==>
      r == Some(SelRange(DateRange(Some(day), None)))
  {
    if disabled then None
    else if mode == Multiple then
      Some(Dates(ToggleMultiple(if selected.Dates? then Some(selected.dates) else None, day)))
    else if mode == Range then
      Some(SelRange(UpdateRange(if selected.Dates? then None else AsRange(selected), day)))
    else if selected.OneDate? && selected.date == day then Some(NoSelection)
    else Some(OneDate(day))
  }

  /** Two clicks on the same day in single mode restore the selection. */
  lemma SingleClickTwice(day: int, selected: Selection)
    requires selected == NoSelection || selected == OneDate(day)
    ensures var once := HandleDaySelection(day, false, Single, selected).value;
      HandleDaySelection(day, false, Single, once) == Some(selected)
  {
  }
}
