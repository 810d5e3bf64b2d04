/**
 * One month of the maturity calendar (components/market/month-calendar.tsx): the grid of leading
 * blank cells followed by the days of the month, the lookup of a day's instruments, and what a
 * day cell shows (at most two ticker badges, a "+n" overflow badge, the first three flows).
 */
module MonthCalendar {
  import opened Wrappers
  import opened Seqs
  import opened Strings
  import opened Dates
  import opened Market

  /** The instruments maturing on one day; `date` is `None` when the day did not parse (`NaN`). */
  datatype DayEvent = DayEvent(date: Option<int>, instruments: seq<FlowInstrument>)

  /** A grid cell: `null` before the first of the month, otherwise a day number. */
  datatype Cell = Blank | Day(n: int)

  // ---------------------------------------------------------------------------------------------
  // The Gregorian calendar behind `new Date(year, month, day)`

  predicate IsLeapYear(y: int)
  {
    y % 4 == 0 && (y % 100 != 0 || y % 400 == 0)
  }

  /** The number of days of month `m` of year `y`. */
  function DaysInMonth(y: int, m: Month): int
  {
    if m == 1 then (if IsLeapYear(y) then 29 else 28)
    else if m == 3 || m == 5 || m == 8 || m == 10 then 30
    else 31
  }

  /** Days of the months of year `y` before month `m`. */
  function DaysBeforeMonth(y: int, m: Month): int
  {
    if m == 0 then 0 else DaysBeforeMonth(y, m - 1) + DaysInMonth(y, m - 1)
  }

  /** Leap years among the years 0 .. y-1 (negative, counting years y .. -1, when y < 0). */
  function LeapYearsBefore(y: int): int
  {
    (y + 3) / 4 - (y + 99) / 100 + (y + 399) / 400
  }

  /** Days from 1 January 1970 to the first of month `m` of year `y`. */
  function DaysFromEpoch(y: int, m: Month): int
  {
    365 * (y - 1970) + (LeapYearsBefore(y) - LeapYearsBefore(1970)) + DaysBeforeMonth(y, m)
  }

  /** `getDay()` of the first of the month: 0 is Sunday; 1 January 1970 was a Thursday. */
  function FirstWeekday(y: int, m: Month): (d: int)
    ensures 0 <= d < 7
  {
    (DaysFromEpoch(y, m) + 4) % 7
  }

  /** `new Date(year, month, 1).getDay()`, the month first normalised into 0..11. */
  function FirstDay(year: int, month: int): (d: int)
    ensures 0 <= d < 7
  {
    var ym := Normalize(year, month);
    FirstWeekday(ym.0, ym.1)
  }

  /** `new Date(year, month + 1, 0).getDate()`: day 0 of the next month is the last day of this one. */
  function MonthDays(year: int, month: int): int
  {
    var ym := Normalize(year, month);
    DaysInMonth(ym.0, ym.1)
  }

  /** Every month has 28 to 31 days; February has 29 exactly in a leap year, and the rest are fixed. */
  lemma MonthDaysRange(year: int, month: int)
    ensures 28 <= MonthDays(year, month) <= 31
    ensures var ym := Normalize(year, month);
      ym.1 == 1 ==> (MonthDays(year, month) == 29 <==> IsLeapYear(ym.0))
    ensures var ym := Normalize(year, month);
      ym.1 != 1 ==> MonthDays(year, month) == (if ym.1 in {3, 5, 8, 10} then 30 else 31)
  {
  }

  /** The months add up to a year of 365 days, or 366 in a leap year. */
  lemma YearLength(y: int)
    ensures DaysBeforeMonth(y, 11) + DaysInMonth(y, 11) == if IsLeapYear(y) then 366 else 365
  {
    var feb := if IsLeapYear(y) then 29 else 28;
    assert DaysBeforeMonth(y, 1) == 31;
    assert DaysBeforeMonth(y, 2) == 31 + feb;
    assert DaysBeforeMonth(y, 3) == 62 + feb;
    assert DaysBeforeMonth(y, 4) == 92 + feb;
    assert DaysBeforeMonth(y, 5) == 123 + feb;
    assert DaysBeforeMonth(y, 6) == 153 + feb;
    assert DaysBeforeMonth(y, 7) == 184 + feb;
    assert DaysBeforeMonth(y, 8) == 215 + feb;
    assert DaysBeforeMonth(y, 9) == 245 + feb;
    assert DaysBeforeMonth(y, 10) == 276 + feb;
    assert DaysBeforeMonth(y, 11) == 306 + feb;
  }

  /** Moving from year `y` to `y + 1` passes exactly one more leap year when `y` is one. */
  lemma LeapYearsStep(y: int)
    ensures LeapYearsBefore(y + 1) - LeapYearsBefore(y) == if IsLeapYear(y) then 1 else 0
  {
    assert (y + 4) / 4 - (y + 3) / 4 == if y % 4 == 0 then 1 else 0;
    assert (y + 100) / 100 - (y + 99) / 100 == if y % 100 == 0 then 1 else 0;
    assert (y + 400) / 400 - (y + 399) / 400 == if y % 400 == 0 then 1 else 0;
  }

  /** The first of the next month comes exactly `DaysInMonth` days after the first of this one. */
  lemma DaysFromEpochNext(y: int, m: Month)
    ensures var next := Normalize(y, m + 1);
      DaysFromEpoch(next.0, next.1) == DaysFromEpoch(y, m) + DaysInMonth(y, m)
  {
    if m < 11 {
      NormalizeValid(y, m + 1);
    } else {
      NormalizeValid(y + 1, 0);
      NormalizeByIndex(y, 12, y + 1, 0);
      LeapYearsStep(y);
      YearLength(y);
    }
  }

  /** So the next month starts on the weekday this month's length moves this month's start to. */
  lemma FirstWeekdayNext(y: int, m: Month)
    ensures var next := Normalize(y, m + 1);
      FirstWeekday(next.0, next.1) == (FirstWeekday(y, m) + DaysInMonth(y, m)) % 7
  {
    var next := Normalize(y, m + 1);
    DaysFromEpochNext(y, m);
    WeekdayShift(DaysFromEpoch(y, m), DaysInMonth(y, m));
    assert DaysFromEpoch(next.0, next.1) + 4 == (DaysFromEpoch(y, m) + 4) + DaysInMonth(y, m);
  }

  /** Adding `n` days to a day moves its weekday on by `n`, modulo 7. */
  lemma WeekdayShift(d: int, n: int)
    ensures (d + 4 + n) % 7 == ((d + 4) % 7 + n) % 7
  {
  }

  /** 1 January 1970 was a Thursday and 1 April 2025 a Tuesday. */
  lemma FirstWeekdayExamples()
    ensures FirstWeekday(1970, 0) == 4
    ensures FirstWeekday(2025, 3) == 2
  {
    assert LeapYearsBefore(2025) - LeapYearsBefore(1970) == 14;
    assert DaysBeforeMonth(2025, 3) == 90;
  }

  // ---------------------------------------------------------------------------------------------
  // The grid

  /**
   * `calendarDays`: `firstDay` blank cells, then the days 1 .. `daysInMonth`, built by two loops
   * that push onto the array.
   */
  method CalendarDays(year: int, month: int) returns (cells: seq<Cell>)
    ensures |cells| == FirstDay(year, month) + MonthDays(year, month)
    ensures forall i :: 0 <= i < FirstDay(year, month) ==> cells[i] == Blank
    ensures forall i :: FirstDay(year, month) <= i < |cells| ==> cells[i] == Day(i - FirstDay(year, month) + 1)
  {
    var firstDay := FirstDay(year, month);
    var daysInMonth := MonthDays(year, month);
    cells := [];
    var i := 0;
    while i < firstDay
      invariant 0 <= i <= firstDay
      invariant cells == seq(i, _ => Blank)
    {
      cells := cells + [Blank];
      i := i + 1;
    }
    var day := 1;
    while day <= daysInMonth
      invariant 1 <= day <= if daysInMonth < 1 then 1 else daysInMonth + 1
      invariant |cells| == firstDay + day - 1
      invariant forall i :: 0 <= i < firstDay ==> cells[i] == Blank
      invariant forall i :: firstDay <= i < |cells| ==> cells[i] == Day(i - firstDay + 1)
    {
      cells := cells + [Day(day)];
      day := day + 1;
    }
  }

  // ---------------------------------------------------------------------------------------------
  // Looking up a day

  /** `events.find((e) => e.date === day)`, as the index of the first event with that date. */
  function FindEvent(events: seq<DayEvent>, day: int): (r: Option<nat>)
    ensures r.None? ==> forall j :: 0 <= j < |events| ==> events[j].date != Some(day)
    ensures r.Some? ==>
      r.value < |events| && events[r.value].date == Some(day) &&
      forall j :: 0 <= j < r.value ==> events[j].date != Some(day)
  {
    if events == [] then None
    else if events[0].date == Some(day) then Some(0)
    else match FindEvent(events[1..], day)
      case None => None
      case Some(i) => Some(i + 1)
  }

  /** `getEventsForDay`: no instruments for a blank cell or day 0, else those of the day's first event. */
  function GetEventsForDay(cell: Cell, events: seq<DayEvent>): (r: seq<FlowInstrument>)
    ensures (cell.Blank? || cell.n == 0 || forall j :: 0 <= j < |events| ==> events[j].date != Some(cell.n)) ==> r == []
    ensures cell.Day? && cell.n != 0 ==>
      forall j :: (0 <= j < |events| && events[j].date == Some(cell.n) &&
                   forall k :: 0 <= k < j ==> events[k].date != Some(cell.n)) ==> r == events[j].instruments
  {
    match cell
    case Blank => []
    case Day(day) =>
      if day == 0 then []
      else match FindEvent(events, day)
        case None => []
        case Some(i) => events[i].instruments
  }

  // ---------------------------------------------------------------------------------------------
  // What a cell shows

  /** What a grid cell renders. */
  datatype CellView =
    | EmptyCell
    | PlainDay(day: int)
    | EventDay(day: int, badges: seq<string>, overflow: Option<int>, heading: string,
               instruments: seq<FlowInstrument>, flows: seq<seq<FlowDetail>>)

  /** The tickers of `dayEvents.slice(0, 2)`. */
  function Badges(instruments: seq<FlowInstrument>): (badges: seq<string>)
    ensures |badges| == if |instruments| <= 2 then |instruments| else 2
    ensures forall i :: 0 <= i < |badges| ==> badges[i] == instruments[i].ticker
  {
    var shown := Prefix(instruments, 2);
    seq(|shown|, i requires 0 <= i < |shown| => shown[i].ticker)
  }

  /** The "+n" badge: present only when more than two instruments mature that day. */
  function Overflow(count: int): (r: Option<int>)
    ensures r.Some? <==> count > 2
    ensures r.Some? ==> r.value >= 1
  {
    if count > 2 then Some(count - 2) else None
  }

  /** `instrument.flujos.slice(0, 3)`: the flows listed for an instrument in the popover. */
  function ListedFlows(x: FlowInstrument): (r: seq<FlowDetail>)
    ensures |r| <= 3 && |r| <= |x.flujos| && r == x.flujos[..|r|]
    ensures |x.flujos| <= 3 ==> r == x.flujos
  {
    Prefix(x.flujos, 3)
  }

  /** The popover title "Vencimientos - day/month/year" with the month counted from 1. */
  function PopoverHeading(day: int, month: int, year: int): string
  {
    "Vencimientos - " + IntToString(day) + "/" + IntToString(month + 1) + "/" + IntToString(year)
  }

  /** How the calendar of `month` of `year` renders one cell. */
  function RenderCell(cell: Cell, year: int, month: int, events: seq<DayEvent>): (v: CellView)
    ensures v.EmptyCell? <==> cell.Blank? || cell.n == 0
    ensures v.PlainDay? ==> v.day == cell.n && GetEventsForDay(cell, events) == []
    ensures v.EventDay? ==>
      v.day == cell.n && v.instruments == GetEventsForDay(cell, events) && |v.instruments| > 0 &&
      v.heading == PopoverHeading(cell.n, month, year)
  {
    match cell
    case Blank => EmptyCell
    case Day(day) =>
      if day == 0 then EmptyCell
      else
        var dayEvents := GetEventsForDay(cell, events);
        if |dayEvents| == 0 then PlainDay(day)
        else
          EventDay(day, Badges(dayEvents), Overflow(|dayEvents|), PopoverHeading(day, month, year), dayEvents,
                   seq(|dayEvents|, i requires 0 <= i < |dayEvents| => ListedFlows(dayEvents[i])))
  }

  /**
   * The badges of a day cell account for every instrument of the day: at most two tickers are
   * shown, and the overflow badge counts exactly the rest; every instrument lists its first three flows.
   */
  lemma BadgesAccountForAll(cell: Cell, year: int, month: int, events: seq<DayEvent>)
    requires RenderCell(cell, year, month, events).EventDay?
    ensures var v := RenderCell(cell, year, month, events);
      |v.badges| <= 2 &&
      |v.badges| + (if v.overflow.Some? then v.overflow.value else 0) == |v.instruments| &&
      (v.overflow.Some? <==> |v.instruments| > 2) &&
      |v.flows| == |v.instruments| &&
      forall i :: 0 <= i < |v.flows| ==> v.flows[i] == Prefix(v.instruments[i].flujos, 3)
  {
  }
}
