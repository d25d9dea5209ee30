/** The owner's month calendar: a Monday-first grid of the days of one
    month, each day marked when some reservation's date strings enclose it,
    and buttons that move to the previous or next month. */
module CalendarPage {
  import opened Basics
  import opened Domain
  import opened Engine
  import opened Gregorian
  import opened IsoDates

  /** A reservation as the calendar receives it: its dates as strings. */
  datatype Span = Span(startDate: string, endDate: string)

  /** The grid column (0 is Monday) of a `getDay()` weekday (0 is Sunday). */
  function MondayColumn(w: int): int
  {
    (w + 6) % 7
  }

  /** `firstDay === 0 ? 6 : firstDay - 1`: the empty cells before day 1. */
  function StartOffset(firstDay: int): (r: int)
    requires 0 <= firstDay < 7
    ensures 0 <= r < 7
    ensures r == MondayColumn(firstDay)
  {
    if firstDay == 0 then 6 else firstDay - 1
  }

  /** `dateStr >= r.start_date && dateStr <= r.end_date`. */
  predicate CoversDate(r: Span, dateStr: string)
  {
    StrLe(r.startDate, dateStr) && StrLe(dateStr, r.endDate)
  }

  /** `reservations.some(...)`. */
  predicate AnyCovers(rs: seq<Span>, dateStr: string)
  {
    exists i :: 0 <= i < |rs| && CoversDate(rs[i], dateStr)
  }

  /** The month the "next" button shows: December wraps to January. */
  function NextMonthOf(m: int): (r: int)
    requires 0 <= m < 12
    ensures 0 <= r < 12 && r == (m + 1) % 12
  {
    if m == 11 then 0 else m + 1
  }

  /** The month the "previous" button shows: January wraps to December. */
  function PrevMonthOf(m: int): (r: int)
    requires 0 <= m < 12
    ensures 0 <= r < 12 && r == (m + 11) % 12
  {
    if m == 0 then 11 else m - 1
  }

  class CalendarView {
    /** Today's year; the component never changes it. */
    const year: nat
    /** 0-based month shown. */
    var month: int
    const reservations: seq<Span>

    ghost predicate Valid()
      reads this
    {
      0 <= month < 12
    }

    /** Opens on today's month. */
    constructor (todayYear: nat, todayMonth: int, reservations: seq<Span>)
      requires 0 <= todayMonth < 12
      ensures Valid()
      ensures year == todayYear && month == todayMonth && this.reservations == reservations
    {
      year := todayYear;
      month := todayMonth;
      this.reservations := reservations;
    }

    /** `daysInMonth`. */
    function DaysInMonth(): (n: int)
      reads this
      requires Valid()
      ensures 28 <= n <= 31
    {
      MonthLength(ConstructorYear(year), month)
    }

    /** `firstDay`: the weekday of the first of the month, 0 for Sunday. */
    function FirstDay(): (w: int)
      reads this
      requires Valid()
      ensures 0 <= w < 7
    {
      Weekday(year, month, 1)
    }

    /** `getDaysArray()`: `StartOffset` empty cells, then the days 1 to
        `daysInMonth` in order. */
    method GetDaysArray() returns (days: seq<Option<int>>)
      requires Valid()
      ensures |days| == StartOffset(FirstDay()) + DaysInMonth()
      ensures forall i :: 0 <= i < StartOffset(FirstDay()) ==> days[i].None?
      ensures forall i :: StartOffset(FirstDay()) <= i < |days| ==>
                days[i].Some? && days[i].value == i - StartOffset(FirstDay()) + 1
    {
      var startOffset := if FirstDay() == 0 then 6 else FirstDay() - 1;
      var daysInMonth := DaysInMonth();
      days := [];
      var i := 0;
      while i < startOffset
        invariant 0 <= i <= startOffset
        invariant |days| == i
        invariant forall j :: 0 <= j < i ==> days[j].None?
      {
        days := days + [None];
        i := i + 1;
      }
      i := 1;
      while i <= daysInMonth
        invariant 1 <= i <= daysInMonth + 1
        invariant |days| == startOffset + i - 1
        invariant forall j :: 0 <= j < startOffset ==> days[j].None?
        invariant forall j :: startOffset <= j < |days| ==> days[j].Some? && days[j].value == j - startOffset + 1
      {
        days := days + [Some(i)];
        i := i + 1;
      }
    }

    /** `isReserved(day)`: the day's `YYYY-MM-DD` string lies, in string
        order, between some reservation's start and end strings. */
    predicate IsReserved(day: nat)
      reads this
      requires Valid()
    {
      AnyCovers(reservations, DateString(year, month, day))
    }

    /** The "<" button. */
    method PrevMonth()
      requires Valid()
      modifies this`month
      ensures Valid() && month == PrevMonthOf(old(month))
    {
      month := if month == 0 then 11 else month - 1;
    }

    /** The ">" button. */
    method NextMonth()
      requires Valid()
      modifies this`month
      ensures Valid() && month == NextMonthOf(old(month))
    {
      month := if month == 11 then 0 else month + 1;
    }
  }

  /** The cell of day `d` sits in the column of its weekday, so the grid
      lines up under the Monday-to-Sunday header. */
  lemma DayColumn(y: nat, m: int, d: int)
    requires 0 <= m < 12 && 1 <= d
    ensures (StartOffset(Weekday(y, m, 1)) + d - 1) % 7 == MondayColumn(Weekday(y, m, d))
  {
    var w, v := Weekday(y, m, 1), Weekday(y, m, d);
    WeekdayOfDay(y, m, d);
    assert v == (w + d - 1) % 7;
    assert StartOffset(w) == (w + 6) % 7;
    ModSeven(w + 6, d - 1);
    ModSeven(w + d - 1, 6);
    assert (StartOffset(w) + d - 1) % 7 == (w + d + 5) % 7;
  }

  /** Consecutive months agree: the next month's grid starts in the column
      right after this month's last day. */
  lemma NextGridContinues(y: nat, m: int)
    requires 0 <= m < 11
    ensures StartOffset(Weekday(y, m + 1, 1)) == (StartOffset(Weekday(y, m, 1)) + MonthLength(ConstructorYear(y), m)) % 7
  {
    NextFirstWeekday(y, m);
    ShiftedColumn(Weekday(y, m, 1), MonthLength(ConstructorYear(y), m));
  }

  /** Column arithmetic: shifting a weekday by `k` shifts its column by `k`. */
  lemma ShiftedColumn(w: int, k: int)
    requires 0 <= w < 7
    ensures MondayColumn((w + k) % 7) == (MondayColumn(w) + k) % 7
  {
    ModSeven(w + k, 6);
    ModSeven(w + 6, k);
  }

  /** For reservations whose strings are calendar dates of four-digit years,
      the string test marks a day exactly when it lies inside the
      reservation's inclusive range, measured in day ordinals: the same
      test the availability engine applies to ordinals. */
  lemma CoversDateIsActive(sy: nat, sm: nat, sd: nat, ey: nat, em: nat, ed: nat, y: nat, m: nat, d: nat, r: Reservation)
    requires 1000 <= sy <= 9999 && 1000 <= ey <= 9999 && 1000 <= y <= 9999
    requires ValidDate(sy, sm, sd) && ValidDate(ey, em, ed) && ValidDate(y, m, d)
    requires r.startDate == DayNumber(sy, sm, sd) && r.endDate == DayNumber(ey, em, ed)
    ensures CoversDate(Span(DateString(sy, sm, sd), DateString(ey, em, ed)), DateString(y, m, d)) <==>
              Active(r, DayNumber(y, m, d))
  {
    DateStringOrder(y, m, d, sy, sm, sd);
    DateStringOrder(ey, em, ed, y, m, d);
    ChronologicalOrder(y, m, d, sy, sm, sd);
    ChronologicalOrder(ey, em, ed, y, m, d);
  }

  type Month = m: nat | m < 12

  /** A calendar date: year, 0-based month, day of the month. */
  datatype CalDate = CalDate(y: nat, m: Month, d: nat)

  predicate FourDigitDate(x: CalDate)
  {
    1000 <= x.y <= 9999 && ValidDate(x.y, x.m, x.d)
  }

  function Ordinal(x: CalDate): Day
  {
    DayNumber(x.y, x.m, x.d)
  }

  /** The span a reservation from `start` to `end` arrives as. */
  function SpanOf(start: CalDate, end: CalDate): Span
  {
    Span(DateString(start.y, start.m, start.d), DateString(end.y, end.m, end.d))
  }

  /** A shown day of a four-digit year is marked exactly when its ordinal
      lies in the inclusive ordinal range of some reservation. */
  lemma IsReservedChronological(c: CalendarView, day: nat, starts: seq<CalDate>, ends: seq<CalDate>)
    requires c.Valid() && 1000 <= c.year <= 9999 && ValidDate(c.year, c.month, day)
    requires |starts| == |ends| == |c.reservations|
    requires forall i :: 0 <= i < |starts| ==> FourDigitDate(starts[i])
    requires forall i :: 0 <= i < |ends| ==> FourDigitDate(ends[i])
    requires forall i :: 0 <= i < |starts| ==> c.reservations[i] == SpanOf(starts[i], ends[i])
    ensures c.IsReserved(day) <==>
              exists i :: 0 <= i < |starts| && Ordinal(starts[i]) <= DayNumber(c.year, c.month, day) <= Ordinal(ends[i])
  {
    var today := DayNumber(c.year, c.month, day);
    forall i | 0 <= i < |starts|
      ensures CoversDate(c.reservations[i], DateString(c.year, c.month, day)) <==>
                Ordinal(starts[i]) <= today <= Ordinal(ends[i])
    {
      var a, b := starts[i], ends[i];
      CoversDateIsActive(a.y, a.m, a.d, b.y, b.m, b.d, c.year, c.month, day,
                         Reservation("", Ordinal(a), Ordinal(b), None, None, None, Pending));
    }
  }

  /** The two buttons undo each other, and twelve presses of either come
      back to the same month (of the same year). */
  lemma NavigationWraps(m: int)
    requires 0 <= m < 12
    ensures PrevMonthOf(NextMonthOf(m)) == m && NextMonthOf(PrevMonthOf(m)) == m
    ensures NextMonthOf(11) == 0 && PrevMonthOf(0) == 11
  {
  }

  /** As written, the year of the calendar is fixed: ">" from December shows
      January of the same year, a month that began eleven months earlier. */
  lemma NextFromDecemberGoesBack(y: int)
    ensures NextMonthOf(11) == 0
    ensures DayNumber(y, NextMonthOf(11), 1) < DayNumber(y, 11, 1)
  {
    MonthsIncrease(y, 0, 11);
  }

  /** The month after (y, m), crossing into the next year after December. */
  function AdvanceMonth(y: int, m: int): (r: (int, int))
    requires 0 <= m < 12
    ensures 0 <= r.1 < 12
    ensures r.0 * 12 + r.1 == y * 12 + m + 1
  {
    if m == 11 then (y + 1, 0) else (y, m + 1)
  }

  /** The month before (y, m), crossing into the previous year before January. */
  function RetreatMonth(y: int, m: int): (r: (int, int))
    requires 0 <= m < 12
    ensures 0 <= r.1 < 12
    ensures r.0 * 12 + r.1 == y * 12 + m - 1
  {
    if m == 0 then (y - 1, 11) else (y, m - 1)
  }

  /** With the year carried, ">" always shows the month that starts the day
      after the shown month ends, and "<" the month that ends the day
      before it starts. */
  lemma CarriedYearIsContiguous(y: int, m: int)
    requires 0 <= m < 12
    ensures var (y2, m2) := AdvanceMonth(y, m);
            DayNumber(y2, m2, 1) == DayNumber(y, m, MonthLength(y, m)) + 1
    ensures var (y0, m0) := RetreatMonth(y, m);
            DayNumber(y0, m0, MonthLength(y0, m0)) + 1 == DayNumber(y, m, 1)
    ensures RetreatMonth(AdvanceMonth(y, m).0, AdvanceMonth(y, m).1) == (y, m)
  {
    NextMonthFollows(y, m);
    var (y0, m0) := RetreatMonth(y, m);
    NextMonthFollows(y0, m0);
  }
}
