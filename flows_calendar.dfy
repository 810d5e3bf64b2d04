/**
 * The maturity calendar of components/market/flows-calendar.tsx: maturity dates are parsed from
 * "DD/MM/YYYY", instruments are filtered by ticker, and they are grouped into month buckets of day
 * events, both over a fixed window of twelve months from today and over every month that has a
 * maturity; the "show only months with maturities" switch chooses between the two.
 */
module FlowsCalendar {
  import opened Wrappers
  import opened Seqs
  import opened Strings
  import opened Dates
  import opened Market
  import opened MonthCalendar

  // ---------------------------------------------------------------------------------------------
  // Parsing a maturity date

  /** The result of `parseDateString`; a field that is `NaN` or `undefined` is `None`. */
  datatype ParsedDate = ParsedDate(day: Option<int>, month: Option<int>, year: Option<int>)

  function MinusOne(n: Option<int>): Option<int>
  {
    match n
    case None => None
    case Some(v) => Some(v - 1)
  }

  /**
   * `parseDateString`: the text is split on "/" and the first three pieces are read with `Number`;
   * the month is shifted to count from 0. Missing pieces are `undefined`, and the month then `NaN`.
   */
  function ParseDateString(s: string): ParsedDate
  {
    var parts := Split(s, '/');
    ParsedDate(
      JsNumber(parts[0]),
      if |parts| >= 2 then MinusOne(JsNumber(parts[1])) else None,
      if |parts| >= 3 then JsNumber(parts[2]) else None)
  }

  /** Three slash-free pieces joined by slashes are read piece by piece. */
  lemma ParseDateStringPieces(a: string, b: string, c: string)
    requires '/' !in a && '/' !in b && '/' !in c
    ensures ParseDateString(a + "/" + b + "/" + c) == ParsedDate(JsNumber(a), MinusOne(JsNumber(b)), JsNumber(c))
  {
    SplitThree(a, b, c, '/');
  }

  /** A number below 100 written with two digits, as in "05". */
  function TwoDigitText(n: nat): (s: string)
    requires n < 100
    ensures |s| == 2 && AllDigits(s)
  {
    NatToStringLength(n);
    PadStart(NatToString(n), 2, '0')
  }

  /** The padded text still reads as the number. */
  lemma TwoDigitTextReads(n: nat)
    requires n < 100
    ensures JsNumber(TwoDigitText(n)) == Some(n)
  {
    NatToStringLength(n);
    var s := TwoDigitText(n);
    if n < 10 {
      assert s == "0" + NatToString(n);
      JsNumberLeadingZero(n);
    } else {
      assert s == IntToString(n);
      JsNumberIntToString(n);
    }
  }

  /** "DD/MM/YYYY" reads back as that day, the month counted from 0, and that year. */
  lemma ParseDateStringRoundTrip(day: nat, month: Month, year: int)
    requires 1 <= day <= 31
    ensures ParseDateString(TwoDigitText(day) + "/" + TwoDigitText(month + 1) + "/" + IntToString(year))
      == ParsedDate(Some(day), Some(month), Some(year))
  {
    var a, b := TwoDigitText(day), TwoDigitText(month + 1);
    assert '/' !in a by { assert forall i :: 0 <= i < |a| ==> IsDigit(a[i]); }
    assert '/' !in b by { assert forall i :: 0 <= i < |b| ==> IsDigit(b[i]); }
    ParseDateStringPieces(a, b, IntToString(year));
    TwoDigitTextReads(day);
    TwoDigitTextReads(month + 1);
    JsNumberIntToString(year);
  }

  /** Without a slash there is no month and no year: no other date format is understood. */
  lemma ParseDateStringNeedsSlashes(s: string)
    requires '/' !in s
    ensures ParseDateString(s).month.None? && ParseDateString(s).year.None?
  {
    SplitNoSeparator(s, '/');
  }

  /** The popover heading of a calendar day, "day/month/year" with the month from 1, reads back as that date. */
  lemma PopoverHeadingReadsBack(day: int, month: int, year: int)
    ensures var h := PopoverHeading(day, month, year);
      |h| >= 15 && ParseDateString(h[15..]) == ParsedDate(Some(day), Some(month), Some(year))
  {
    var a, b, c := IntToString(day), IntToString(month + 1), IntToString(year);
    AfterPrefix("Vencimientos - ", a, b, c, '/');
    ParseDateStringPieces(a, b, c);
    JsNumberIntToString(day);
    JsNumberIntToString(month + 1);
    JsNumberIntToString(year);
  }

  // ---------------------------------------------------------------------------------------------
  // The ticker search

  /** The test applied to each instrument once the query has been lower-cased. */
  function TickerContains(loweredQuery: string): FlowInstrument -> bool
  {
    (x: FlowInstrument) => Contains(ToLower(x.ticker), loweredQuery)
  }

  /**
   * `filteredInstruments`: a blank query keeps the whole list; otherwise, in input order, exactly
   * the instruments whose lower-cased ticker contains the lower-cased query, which is not trimmed.
   */
  function FilterInstruments(instruments: seq<FlowInstrument>, query: string): (r: seq<FlowInstrument>)
    ensures IsBlank(query) ==> r == instruments
    ensures !IsBlank(query) ==>
      forall x :: x in r <==> x in instruments && Contains(ToLower(x.ticker), ToLower(query))
    ensures !IsBlank(query) ==>
      forall x :: multiset(r)[x] == if Contains(ToLower(x.ticker), ToLower(query)) then multiset(instruments)[x] else 0
    ensures IsSubsequence(r, instruments)
  {
    if IsBlank(query) then
      SubsequenceRefl(instruments);
      instruments
    else
      FilterCounts(instruments, TickerContains(ToLower(query)));
      Filter(instruments, TickerContains(ToLower(query)))
  }

  lemma LowerKeepsWhitespace(s: string)
    ensures forall i :: 0 <= i < |s| ==> (IsWhitespace(ToLower(s)[i]) <==> IsWhitespace(s[i]))
  {
  }

  /** Queries that differ only in the case of their letters select the same instruments. */
  lemma FilterIgnoresCase(instruments: seq<FlowInstrument>, q1: string, q2: string)
    requires ToLower(q1) == ToLower(q2)
    ensures FilterInstruments(instruments, q1) == FilterInstruments(instruments, q2)
  {
    LowerKeepsWhitespace(q1);
    LowerKeepsWhitespace(q2);
    BlankIffAllWhitespace(q1);
    BlankIffAllWhitespace(q2);
    BlankIffAllWhitespace(ToLower(q1));
  }

  /** "al3" finds "AL30", but "al3 " with a trailing space does not: the query is not trimmed. */
  lemma FilterQueryNotTrimmed(x: FlowInstrument)
    requires x.ticker == "AL30"
    ensures FilterInstruments([x], "al3") == [x]
    ensures FilterInstruments([x], "al3 ") == []
  {
    var t := ToLower(x.ticker);
    assert t == "al30";
    assert OccursAt(t, "al3", 0);
    assert !IsBlank("al3") by { BlankIffAllWhitespace("al3"); }
    assert !IsBlank("al3 ") by { BlankIffAllWhitespace("al3 "); }
    assert ToLower("al3") == "al3";
    assert ToLower("al3 ") == "al3 ";
    assert !Contains(t, "al3 ") by {
      forall i | 0 <= i <= |t|
        ensures !OccursAt(t, "al3 ", i)
      {
        if i == 0 {
          assert t[3] != "al3 "[3];
        }
      }
    }
  }

  // ---------------------------------------------------------------------------------------------
  // Buckets and their day events

  /** `MonthData`: a bucket for one (year, month) with its day events. */
  datatype MonthData = MonthData(year: int, month: int, events: seq<DayEvent>)

  /** `new Date(year, month).getTime()` orders buckets as their month index does. */
  function MonthOrder(b: MonthData): int
  {
    MonthIndex(b.year, b.month)
  }

  /** Instrument `x` parses to day `date` of (year, month). */
  predicate MaturesOn(x: FlowInstrument, year: int, month: int, date: Option<int>)
  {
    var p := ParseDateString(x.vencimiento);
    p.year == Some(year) && p.month == Some(month) && p.day == date
  }

  /** The instruments of `xs` that mature on day `date` of (year, month), in input order. */
  function MaturingOn(xs: seq<FlowInstrument>, year: int, month: int, date: Option<int>): seq<FlowInstrument>
  {
    if xs == [] then []
    else
      var x := xs[|xs| - 1];
      MaturingOn(xs[..|xs| - 1], year, month, date) + if MaturesOn(x, year, month, date) then [x] else []
  }

  lemma MaturingOnSnoc(xs: seq<FlowInstrument>, k: nat, year: int, month: int, date: Option<int>)
    requires k < |xs|
    ensures MaturingOn(xs[..k + 1], year, month, date)
      == MaturingOn(xs[..k], year, month, date) + if MaturesOn(xs[k], year, month, date) then [xs[k]] else []
  {
    assert xs[..k + 1][..k] == xs[..k];
  }

  /** `MaturingOn` keeps exactly the instruments that mature on that day. */
  lemma {:induction false} MaturingOnMembers(xs: seq<FlowInstrument>, year: int, month: int, date: Option<int>)
    ensures forall x :: x in MaturingOn(xs, year, month, date) <==> x in xs && MaturesOn(x, year, month, date)
    decreases |xs|
  {
    if xs != [] {
      MaturingOnMembers(xs[..|xs| - 1], year, month, date);
      assert xs == xs[..|xs| - 1] + [xs[|xs| - 1]];
    }
  }

  /** No instrument of `xs` is in (year, month): nothing matures there on any day. */
  lemma {:induction false} MaturingOnNone(xs: seq<FlowInstrument>, year: int, month: int, date: Option<int>)
    requires forall x :: x in xs ==> !(ParseDateString(x.vencimiento).year == Some(year) &&
                                       ParseDateString(x.vencimiento).month == Some(month))
    ensures MaturingOn(xs, year, month, date) == []
    decreases |xs|
  {
    if xs != [] {
      MaturingOnNone(xs[..|xs| - 1], year, month, date);
    }
  }

  /** The instruments of every event dated `date`, in event order. */
  function InstrumentsOn(events: seq<DayEvent>, date: Option<int>): seq<FlowInstrument>
  {
    if events == [] then []
    else
      var e := events[|events| - 1];
      InstrumentsOn(events[..|events| - 1], date) + if e.date == date then e.instruments else []
  }

  /** An event's instruments are among those listed for its date. */
  lemma {:induction false} EventInInstrumentsOn(events: seq<DayEvent>, i: nat, x: FlowInstrument)
    requires i < |events| && x in events[i].instruments
    ensures x in InstrumentsOn(events, events[i].date)
    decreases |events|
  {
    if i < |events| - 1 {
      EventInInstrumentsOn(events[..|events| - 1], i, x);
    }
  }

  /**
   * Day events are well formed when parsed days are unique, an event of an unparsed day (which
   * `===` never matches) holds a single instrument, and no event is empty.
   */
  predicate WellFormedEvents(events: seq<DayEvent>)
  {
    (forall i, j :: 0 <= i < j < |events| && events[i].date.Some? ==> events[i].date != events[j].date) &&
    (forall i :: 0 <= i < |events| ==> |events[i].instruments| >= 1) &&
    (forall i :: 0 <= i < |events| && events[i].date.None? ==> |events[i].instruments| == 1)
  }

  /**
   * The in-place step of both groupings: the instrument is pushed onto the existing event of its
   * day, or a new event for that day is pushed.
   */
  function AddToEvents(events: seq<DayEvent>, day: Option<int>, x: FlowInstrument): seq<DayEvent>
  {
    match day
    case None => events + [DayEvent(None, [x])]
    case Some(d) =>
      match FindEvent(events, d)
      case None => events + [DayEvent(day, [x])]
      case Some(i) => events[i := events[i].(instruments := events[i].instruments + [x])]
  }

  lemma InstrumentsOnSnoc(events: seq<DayEvent>, e: DayEvent, date: Option<int>)
    ensures InstrumentsOn(events + [e], date) == InstrumentsOn(events, date) + if e.date == date then e.instruments else []
  {
    assert (events + [e])[..|events|] == events;
  }

  lemma {:induction false} InstrumentsOnExtend(events: seq<DayEvent>, i: nat, x: FlowInstrument, date: Option<int>)
    requires i < |events|
    requires forall j :: i < j < |events| ==> events[j].date != events[i].date
    ensures InstrumentsOn(events[i := events[i].(instruments := events[i].instruments + [x])], date)
      == InstrumentsOn(events, date) + if events[i].date == date then [x] else []
    decreases |events|
  {
    var updated := events[i := events[i].(instruments := events[i].instruments + [x])];
    var n := |events| - 1;
    if i == n {
      assert updated[..n] == events[..n];
    } else {
      assert updated[..n] == events[..n][i := events[i].(instruments := events[i].instruments + [x])];
      InstrumentsOnExtend(events[..n], i, x, date);
    }
  }

  /** Adding an instrument puts it last among the instruments of its day and changes no other day. */
  lemma AddToEventsSpec(events: seq<DayEvent>, day: Option<int>, x: FlowInstrument)
    requires WellFormedEvents(events)
    ensures WellFormedEvents(AddToEvents(events, day, x))
    ensures |AddToEvents(events, day, x)| >= 1
    ensures forall date ::
      InstrumentsOn(AddToEvents(events, day, x), date) == InstrumentsOn(events, date) + if date == day then [x] else []
  {
    var e := DayEvent(day, [x]);
    match day
    case None =>
      forall date ensures InstrumentsOn(events + [e], date) == InstrumentsOn(events, date) + if date == day then [x] else [] {
        InstrumentsOnSnoc(events, e, date);
      }
    case Some(d) =>
      match FindEvent(events, d)
      case None =>
        forall date ensures InstrumentsOn(events + [e], date) == InstrumentsOn(events, date) + if date == day then [x] else [] {
          InstrumentsOnSnoc(events, e, date);
        }
      case Some(i) =>
        forall date
          ensures InstrumentsOn(AddToEvents(events, day, x), date) == InstrumentsOn(events, date) + if date == day then [x] else []
        {
          InstrumentsOnExtend(events, i, x, date);
        }
  }

  /**
   * A bucket is right for the instruments `xs` when its events are well formed and, for every
   * day, its events list exactly the instruments of `xs` maturing that day, in input order.
   */
  ghost predicate BucketHolds(b: MonthData, xs: seq<FlowInstrument>)
  {
    WellFormedEvents(b.events) &&
    forall date :: InstrumentsOn(b.events, date) == MaturingOn(xs, b.year, b.month, date)
  }

  /** Taking one more instrument into account: its own bucket gets it added, the others stay as they are. */
  lemma BucketStep(b: MonthData, xs: seq<FlowInstrument>, k: nat)
    requires k < |xs| && BucketHolds(b, xs[..k])
    ensures var p := ParseDateString(xs[k].vencimiento);
      if p.year == Some(b.year) && p.month == Some(b.month)
      then BucketHolds(b.(events := AddToEvents(b.events, p.day, xs[k])), xs[..k + 1])
      else BucketHolds(b, xs[..k + 1])
  {
    var p := ParseDateString(xs[k].vencimiento);
    forall date ensures MaturingOn(xs[..k + 1], b.year, b.month, date)
      == MaturingOn(xs[..k], b.year, b.month, date) + if MaturesOn(xs[k], b.year, b.month, date) then [xs[k]] else []
    {
      MaturingOnSnoc(xs, k, b.year, b.month, date);
    }
    if p.year == Some(b.year) && p.month == Some(b.month) {
      AddToEventsSpec(b.events, p.day, xs[k]);
    }
  }

  // ---------------------------------------------------------------------------------------------
  // The twelve-month window

  /** The `i`-th month of the window: `new Date(today.getFullYear(), today.getMonth() + i, 1)`. */
  function WindowMonth(today: Date, i: int): (int, Month)
  {
    Normalize(today.year, today.month + i)
  }

  /** What `monthsData` promises: twelve buckets for the window months, in order, each right for `filtered`. */
  ghost predicate WindowView(today: Date, filtered: seq<FlowInstrument>, months: seq<MonthData>)
  {
    |months| == 12 &&
    (forall i :: 0 <= i < 12 ==> (months[i].year, months[i].month) == WindowMonth(today, i)) &&
    (forall i :: 0 <= i < 12 ==> BucketHolds(months[i], filtered))
  }

  /**
   * `monthsData`: twelve empty buckets are put in a map keyed by (year, month); then every filtered
   * instrument whose bucket exists is added to that bucket's events; the buckets are finally sorted
   * by month, which leaves them in window order.
   */
  method MonthsData(today: Date, filtered: seq<FlowInstrument>) returns (months: seq<MonthData>)
    ensures WindowView(today, filtered, months)
    ensures SortedBy(months, MonthOrder)
  {
    var buckets, keys := EmptyWindow(today);
    EmptyBucketsHold(buckets);
    var k := 0;
    while k < |filtered|
      invariant 0 <= k <= |filtered|
      invariant forall j :: 0 <= j < 12 ==> keys[j] in buckets
      invariant BucketsHold(filtered[..k], buckets)
    {
      WindowStep(filtered, k, buckets);
      buckets := PlaceInWindow(buckets, filtered[k]);
      k := k + 1;
    }
    assert filtered[..k] == filtered;
    var values := seq(12, j requires 0 <= j < 12 => buckets[keys[j]]);
    WindowValuesInOrder(today, filtered, buckets, keys, values);
    months := SortBy(values, MonthOrder);
  }

  /** The first loop of `monthsData`: an empty bucket for each month of the window, keyed by that month. */
  method EmptyWindow(today: Date) returns (buckets: map<(int, int), MonthData>, keys: seq<(int, int)>)
    ensures |keys| == 12 && forall j :: 0 <= j < 12 ==> keys[j] == WindowMonth(today, j)
    ensures forall j :: 0 <= j < 12 ==> keys[j] in buckets
    ensures forall key :: key in buckets ==> buckets[key] == MonthData(key.0, key.1, [])
  {
    buckets := map[];
    keys := [];
    var i := 0;
    while i < 12
      invariant 0 <= i <= 12 && |keys| == i
      invariant forall j :: 0 <= j < i ==> keys[j] == WindowMonth(today, j)
      invariant forall j :: 0 <= j < i ==> keys[j] in buckets
      invariant forall key :: key in buckets ==> buckets[key] == MonthData(key.0, key.1, [])
    {
      var date := WindowMonth(today, i);
      var key := (date.0, date.1 as int);
      buckets := buckets[key := MonthData(key.0, key.1, [])];
      keys := keys + [key];
      i := i + 1;
    }
  }

  /** Empty buckets under their own months are right while no instrument has been read. */
  lemma EmptyBucketsHold(buckets: map<(int, int), MonthData>)
    requires forall key :: key in buckets ==> buckets[key] == MonthData(key.0, key.1, [])
    ensures BucketsHold([], buckets)
  {
    forall key | key in buckets
      ensures BucketHolds(buckets[key], [])
    {
      assert buckets[key].events == [];
    }
  }

  /** The window's buckets, read in window order, are already in month order, and each is right. */
  lemma WindowValuesInOrder(today: Date, filtered: seq<FlowInstrument>, buckets: map<(int, int), MonthData>,
                            keys: seq<(int, int)>, values: seq<MonthData>)
    requires |keys| == 12 && forall j :: 0 <= j < 12 ==> keys[j] == WindowMonth(today, j)
    requires forall j :: 0 <= j < 12 ==> keys[j] in buckets
    requires BucketsHold(filtered, buckets)
    requires values == seq(12, j requires 0 <= j < 12 => buckets[keys[j]])
    ensures WindowView(today, filtered, SortBy(values, MonthOrder))
    ensures SortedBy(SortBy(values, MonthOrder), MonthOrder)
  {
    forall a, b | 0 <= a < b < 12
      ensures MonthOrder(values[a]) <= MonthOrder(values[b])
    {
    }
    SortBySortedIsIdentity(values, MonthOrder);
  }

  /** Every bucket of the map sits under its own (year, month) and is right for `xs`. */
  ghost predicate BucketsHold(xs: seq<FlowInstrument>, buckets: map<(int, int), MonthData>)
  {
    forall key :: key in buckets ==>
      buckets[key].year == key.0 && buckets[key].month == key.1 && BucketHolds(buckets[key], xs)
  }

  /**
   * The body of `monthsData`'s loop over the instruments: an instrument whose (year, month) has a
   * bucket is added to that bucket's events; any other instrument is skipped.
   */
  function PlaceInWindow(buckets: map<(int, int), MonthData>, x: FlowInstrument): map<(int, int), MonthData>
  {
    var p := ParseDateString(x.vencimiento);
    if p.year.Some? && p.month.Some? && (p.year.value, p.month.value) in buckets then
      var key := (p.year.value, p.month.value);
      buckets[key := buckets[key].(events := AddToEvents(buckets[key].events, p.day, x))]
    else buckets
  }

  /** One step of `monthsData`'s loop keeps every bucket right and adds no key. */
  lemma WindowStep(xs: seq<FlowInstrument>, k: nat, buckets: map<(int, int), MonthData>)
    requires k < |xs| && BucketsHold(xs[..k], buckets)
    ensures var buckets' := PlaceInWindow(buckets, xs[k]);
      BucketsHold(xs[..k + 1], buckets') && buckets'.Keys == buckets.Keys
  {
    var buckets' := PlaceInWindow(buckets, xs[k]);
    forall key | key in buckets'
      ensures buckets'[key].year == key.0 && buckets'[key].month == key.1 && BucketHolds(buckets'[key], xs[..k + 1])
    {
      BucketStep(buckets[key], xs, k);
    }
  }

  /** The window months are twelve different months, one month apart, starting with today's. */
  lemma WindowMonthIndex(today: Date, i: int)
    ensures MonthIndex(WindowMonth(today, i).0, WindowMonth(today, i).1) == MonthIndex(today.year, today.month) + i
    ensures WindowMonth(today, 0) == (today.year, today.month)
  {
    NormalizeValid(today.year, today.month);
  }

  /** Every instrument the window lists on a day matures on that day of the bucket's month. */
  lemma WindowListsOnlyItsDay(today: Date, filtered: seq<FlowInstrument>, months: seq<MonthData>, x: FlowInstrument)
    requires WindowView(today, filtered, months)
    ensures forall i, date :: 0 <= i < 12 && x in InstrumentsOn(months[i].events, date) ==>
      MaturesOn(x, months[i].year, months[i].month, date)
  {
    forall i, date | 0 <= i < 12 && x in InstrumentsOn(months[i].events, date)
      ensures MaturesOn(x, months[i].year, months[i].month, date)
    {
      MaturingOnMembers(filtered, months[i].year, months[i].month, date);
    }
  }

  /**
   * An instrument whose month is in the window lands on its own day in the bucket of that month.
   */
  lemma WindowPlacement(today: Date, filtered: seq<FlowInstrument>, months: seq<MonthData>, x: FlowInstrument)
    requires WindowView(today, filtered, months)
    requires x in filtered
    ensures var p := ParseDateString(x.vencimiento);
      p.year.Some? && p.month.Some? && 0 <= p.month.value < 12 ==>
      var offset := MonthIndex(p.year.value, p.month.value) - MonthIndex(today.year, today.month);
      0 <= offset < 12 ==> x in InstrumentsOn(months[offset].events, p.day)
  {
    var p := ParseDateString(x.vencimiento);
    if p.year.Some? && p.month.Some? && 0 <= p.month.value < 12 {
      var offset := MonthIndex(p.year.value, p.month.value) - MonthIndex(today.year, today.month);
      if 0 <= offset < 12 {
        WindowMonthIndex(today, offset);
        var w := WindowMonth(today, offset);
        MonthIndexInjective(w.0, w.1, p.year.value, p.month.value);
        MaturingOnMembers(filtered, months[offset].year, months[offset].month, p.day);
      }
    }
  }

  /** An instrument whose month is outside the window is in no bucket of the window. */
  lemma WindowDropsOutside(today: Date, filtered: seq<FlowInstrument>, months: seq<MonthData>, x: FlowInstrument)
    requires WindowView(today, filtered, months)
    requires var p := ParseDateString(x.vencimiento);
      p.year.None? || p.month.None? ||
      var offset := MonthIndex(p.year.value, p.month.value) - MonthIndex(today.year, today.month);
      !(0 <= p.month.value < 12 && 0 <= offset < 12)
    ensures forall i, date :: 0 <= i < 12 ==> x !in InstrumentsOn(months[i].events, date)
  {
    forall i, date | 0 <= i < 12
      ensures x !in InstrumentsOn(months[i].events, date)
    {
      MaturingOnMembers(filtered, months[i].year, months[i].month, date);
      WindowMonthIndex(today, i);
    }
  }

  // ---------------------------------------------------------------------------------------------
  // Every month with a maturity

  /** (year, month) of the instrument when both parsed. */
  predicate HasMonth(x: FlowInstrument)
  {
    ParseDateString(x.vencimiento).year.Some? && ParseDateString(x.vencimiento).month.Some?
  }

  /** What `monthsWithEventsAll` promises. */
  ghost predicate AllMonthsView(filtered: seq<FlowInstrument>, months: seq<MonthData>)
  {
    (forall i :: 0 <= i < |months| ==> BucketHolds(months[i], filtered) && |months[i].events| >= 1) &&
    (forall i, j :: 0 <= i < j < |months| ==> (months[i].year, months[i].month) != (months[j].year, months[j].month)) &&
    (forall x :: x in filtered && HasMonth(x) ==>
      exists i :: 0 <= i < |months| && months[i].year == ParseDateString(x.vencimiento).year.value &&
                                       months[i].month == ParseDateString(x.vencimiento).month.value)
  }

  /** `keys` lists the map's keys once each. */
  ghost predicate KeysListed(buckets: map<(int, int), MonthData>, keys: seq<(int, int)>)
  {
    (forall j :: 0 <= j < |keys| ==> keys[j] in buckets) &&
    (forall key :: key in buckets ==> key in keys) &&
    (forall a, b :: 0 <= a < b < |keys| ==> keys[a] != keys[b])
  }

  /** Every bucket sits under its own (year, month), is right for `xs` and is not empty. */
  ghost predicate BucketsFilled(xs: seq<FlowInstrument>, buckets: map<(int, int), MonthData>)
  {
    forall key :: key in buckets ==>
      buckets[key].year == key.0 && buckets[key].month == key.1 &&
      BucketHolds(buckets[key], xs) && |buckets[key].events| >= 1
  }

  /** Every instrument of `xs` with a parsed month has its bucket. */
  ghost predicate Covered(xs: seq<FlowInstrument>, buckets: map<(int, int), MonthData>)
  {
    forall x :: x in xs && HasMonth(x) ==>
      (ParseDateString(x.vencimiento).year.value, ParseDateString(x.vencimiento).month.value) in buckets
  }

  /**
   * The state of the grouping after the instruments `xs`: `keys` lists the map's keys once each,
   * in the order they were created; each bucket is right for `xs` and not empty; and every
   * instrument of `xs` with a parsed month has its bucket.
   */
  ghost predicate Grouped(xs: seq<FlowInstrument>, buckets: map<(int, int), MonthData>, keys: seq<(int, int)>)
  {
    KeysListed(buckets, keys) && BucketsFilled(xs, buckets) && Covered(xs, buckets)
  }

  /** The key of the instrument's bucket, when its year and month parsed. */
  function BucketKey(x: FlowInstrument): Option<(int, int)>
  {
    var p := ParseDateString(x.vencimiento);
    if p.year.Some? && p.month.Some? then Some((p.year.value, p.month.value)) else None
  }

  /**
   * The body of `monthsWithEventsAll`'s loop: the bucket of the instrument's month is created
   * when missing (its key listed last) and the instrument is added to its events.
   */
  function AddToGroup(buckets: map<(int, int), MonthData>, keys: seq<(int, int)>, x: FlowInstrument)
    : (map<(int, int), MonthData>, seq<(int, int)>)
  {
    match BucketKey(x)
    case None => (buckets, keys)
    case Some(key) =>
      var b := if key in buckets then buckets[key] else MonthData(key.0, key.1, []);
      (buckets[key := b.(events := AddToEvents(b.events, ParseDateString(x.vencimiento).day, x))],
       if key in buckets then keys else keys + [key])
  }

  lemma KeysListedStep(buckets: map<(int, int), MonthData>, keys: seq<(int, int)>, x: FlowInstrument)
    requires KeysListed(buckets, keys)
    ensures KeysListed(AddToGroup(buckets, keys, x).0, AddToGroup(buckets, keys, x).1)
  {
  }

  lemma CoveredStep(xs: seq<FlowInstrument>, k: nat, buckets: map<(int, int), MonthData>, keys: seq<(int, int)>)
    requires k < |xs| && Covered(xs[..k], buckets)
    ensures Covered(xs[..k + 1], AddToGroup(buckets, keys, xs[k]).0)
  {
    assert xs[..k + 1] == xs[..k] + [xs[k]];
  }

  lemma BucketsFilledStep(xs: seq<FlowInstrument>, k: nat, buckets: map<(int, int), MonthData>,
                          keys: seq<(int, int)>)
    requires k < |xs| && BucketsFilled(xs[..k], buckets) && Covered(xs[..k], buckets)
    ensures BucketsFilled(xs[..k + 1], AddToGroup(buckets, keys, xs[k]).0)
  {
    var buckets' := AddToGroup(buckets, keys, xs[k]).0;
    forall key' | key' in buckets'
      ensures buckets'[key'].year == key'.0 && buckets'[key'].month == key'.1
      ensures BucketHolds(buckets'[key'], xs[..k + 1]) && |buckets'[key'].events| >= 1
    {
      if BucketKey(xs[k]) == Some(key') {
        if key' !in buckets {
          NewBucketHolds(xs[..k], buckets, key');
        }
        var b := if key' in buckets then buckets[key'] else MonthData(key'.0, key'.1, []);
        BucketAdd(b, xs, k);
      } else {
        BucketStep(buckets[key'], xs, k);
      }
    }
  }

  /** A month without a bucket yet has no instrument of `xs`, so its empty bucket is right. */
  lemma NewBucketHolds(xs: seq<FlowInstrument>, buckets: map<(int, int), MonthData>, key: (int, int))
    requires Covered(xs, buckets) && key !in buckets
    ensures BucketHolds(MonthData(key.0, key.1, []), xs)
  {
    forall date ensures MaturingOn(xs, key.0, key.1, date) == [] {
      MaturingOnNone(xs, key.0, key.1, date);
    }
  }

  /** The bucket of the instrument's own month, with the instrument added, is right for one more instrument. */
  lemma BucketAdd(b: MonthData, xs: seq<FlowInstrument>, k: nat)
    requires k < |xs| && BucketKey(xs[k]) == Some((b.year, b.month)) && BucketHolds(b, xs[..k])
    ensures var b' := b.(events := AddToEvents(b.events, ParseDateString(xs[k].vencimiento).day, xs[k]));
      BucketHolds(b', xs[..k + 1]) && |b'.events| >= 1
  {
    AddToEventsSpec(b.events, ParseDateString(xs[k].vencimiento).day, xs[k]);
    BucketStep(b, xs, k);
  }

  /** One step of `monthsWithEventsAll` keeps the grouping right. */
  lemma GroupStep(xs: seq<FlowInstrument>, k: nat, buckets: map<(int, int), MonthData>, keys: seq<(int, int)>)
    requires k < |xs| && Grouped(xs[..k], buckets, keys)
    ensures Grouped(xs[..k + 1], AddToGroup(buckets, keys, xs[k]).0, AddToGroup(buckets, keys, xs[k]).1)
  {
    KeysListedStep(buckets, keys, xs[k]);
    BucketsFilledStep(xs, k, buckets, keys);
    CoveredStep(xs, k, buckets, keys);
  }

  /**
   * `monthsWithEventsAll`: a bucket is created the first time an instrument of its (year, month)
   * is met and the instrument is added to its events; the buckets are then sorted by month.
   */
  method MonthsWithEventsAll(filtered: seq<FlowInstrument>) returns (months: seq<MonthData>)
    ensures AllMonthsView(filtered, months)
    ensures SortedBy(months, MonthOrder)
  {
    var buckets: map<(int, int), MonthData> := map[];
    var keys: seq<(int, int)> := [];
    var k := 0;
    while k < |filtered|
      invariant 0 <= k <= |filtered|
      invariant Grouped(filtered[..k], buckets, keys)
    {
      GroupStep(filtered, k, buckets, keys);
      buckets, keys := AddToGroup(buckets, keys, filtered[k]).0, AddToGroup(buckets, keys, filtered[k]).1;
      k := k + 1;
    }
    assert filtered[..k] == filtered;
    var values := seq(|keys|, j requires 0 <= j < |keys| => buckets[keys[j]]);
    months := SortBy(values, MonthOrder);
    SortedBuckets(filtered, buckets, keys, values);
  }

  /** Sorting the buckets of the grouping by month keeps every property the grouping promises. */
  lemma SortedBuckets(filtered: seq<FlowInstrument>, buckets: map<(int, int), MonthData>, keys: seq<(int, int)>,
                      values: seq<MonthData>)
    requires Grouped(filtered, buckets, keys)
    requires values == seq(|keys|, j requires 0 <= j < |keys| => buckets[keys[j]])
    ensures AllMonthsView(filtered, SortBy(values, MonthOrder))
    ensures SortedBy(SortBy(values, MonthOrder), MonthOrder)
  {
    GroupedValues(filtered, buckets, keys, values);
    SortBySortsAndPermutes(values, MonthOrder);
    var months := SortBy(values, MonthOrder);
    DistinctUnderPermutation(values, months, (b: MonthData) => (b.year, b.month));
    forall i | 0 <= i < |months|
      ensures BucketHolds(months[i], filtered) && |months[i].events| >= 1
    {
      assert months[i] in multiset(values);
    }
    forall x | x in filtered && HasMonth(x)
      ensures exists i :: 0 <= i < |months| && months[i].year == ParseDateString(x.vencimiento).year.value &&
                                                months[i].month == ParseDateString(x.vencimiento).month.value
    {
      var j :| 0 <= j < |values| && values[j].year == ParseDateString(x.vencimiento).year.value &&
                                    values[j].month == ParseDateString(x.vencimiento).month.value;
      assert values[j] in multiset(months);
      var i :| 0 <= i < |months| && months[i] == values[j];
    }
  }

  /** The buckets read in key order already have every property of the view, except the order. */
  lemma GroupedValues(filtered: seq<FlowInstrument>, buckets: map<(int, int), MonthData>, keys: seq<(int, int)>,
                      values: seq<MonthData>)
    requires Grouped(filtered, buckets, keys)
    requires values == seq(|keys|, j requires 0 <= j < |keys| => buckets[keys[j]])
    ensures forall j :: 0 <= j < |values| ==> BucketHolds(values[j], filtered) && |values[j].events| >= 1
    ensures forall a, b :: 0 <= a < b < |values| ==> (values[a].year, values[a].month) != (values[b].year, values[b].month)
    ensures forall x :: x in filtered && HasMonth(x) ==>
      exists j :: 0 <= j < |values| && values[j].year == ParseDateString(x.vencimiento).year.value &&
                                       values[j].month == ParseDateString(x.vencimiento).month.value
  {
    forall a, b | 0 <= a < b < |values|
      ensures (values[a].year, values[a].month) != (values[b].year, values[b].month)
    {
      assert (values[a].year, values[a].month) == keys[a];
    }
    forall x | x in filtered && HasMonth(x)
      ensures exists j :: 0 <= j < |values| && values[j].year == ParseDateString(x.vencimiento).year.value &&
                                                values[j].month == ParseDateString(x.vencimiento).month.value
    {
      var key := (ParseDateString(x.vencimiento).year.value, ParseDateString(x.vencimiento).month.value);
      var j :| 0 <= j < |keys| && keys[j] == key;
      assert values[j] == buckets[key];
    }
  }

  /** With months in 0..11, distinct buckets in month order are strictly ascending. */
  lemma AllMonthsStrictlyAscending(months: seq<MonthData>)
    requires SortedBy(months, MonthOrder)
    requires forall i, j :: 0 <= i < j < |months| ==> (months[i].year, months[i].month) != (months[j].year, months[j].month)
    requires forall i :: 0 <= i < |months| ==> 0 <= months[i].month < 12
    ensures forall i, j :: 0 <= i < j < |months| ==> MonthOrder(months[i]) < MonthOrder(months[j])
  {
    forall i, j | 0 <= i < j < |months|
      ensures MonthOrder(months[i]) < MonthOrder(months[j])
    {
      MonthIndexInjective(months[i].year, months[i].month, months[j].year, months[j].month);
    }
  }

  /**
   * When every instrument's parsed month lies in 0..11, the all-months view is strictly ascending:
   * no two of its buckets stand for the same calendar month.
   */
  lemma AllMonthsViewStrictlyAscending(filtered: seq<FlowInstrument>, months: seq<MonthData>)
    requires AllMonthsView(filtered, months) && SortedBy(months, MonthOrder)
    requires forall x :: x in filtered && HasMonth(x) ==> 0 <= ParseDateString(x.vencimiento).month.value < 12
    ensures forall i, j :: 0 <= i < j < |months| ==> MonthOrder(months[i]) < MonthOrder(months[j])
  {
    forall i | 0 <= i < |months|
      ensures 0 <= months[i].month < 12
    {
      var b := months[i];
      var e := b.events[0];
      var x := e.instruments[0];
      EventInInstrumentsOn(b.events, 0, x);
      MaturingOnMembers(filtered, b.year, b.month, e.date);
      assert x in filtered && MaturesOn(x, b.year, b.month, e.date);
    }
    AllMonthsStrictlyAscending(months);
  }

  /**
   * A maturity text with month "13" parses to month 12, whose bucket key differs from January of
   * the next year although both buckets sort to the same calendar month.
   */
  lemma MonthTwelveSplitsCalendarMonth(year: int, e1: seq<DayEvent>, e2: seq<DayEvent>)
    ensures (year, 12) != (year + 1, 0)
    ensures MonthOrder(MonthData(year, 12, e1)) == MonthOrder(MonthData(year + 1, 0, e2))
  {
  }

  // ---------------------------------------------------------------------------------------------
  // What is displayed

  /**
   * `new Date(m.year, m.month).getTime() >= now.getTime()`: the instant the month starts (day 1,
   * millisecond 0) is not before `now`, given as a date and the millisecond of its day.
   */
  predicate StartsNotBefore(m: MonthData, now: Date, nowMillis: nat)
  {
    var start := MonthOrder(m);
    var current := MonthIndex(now.year, now.month);
    start > current || (start == current && (1 > now.day || (1 == now.day && 0 >= nowMillis)))
  }

  function NotBeforeNow(now: Date, nowMillis: nat): MonthData -> bool
  {
    (m: MonthData) => StartsNotBefore(m, now, nowMillis)
  }

  /**
   * `displayMonths`: the windowed buckets, or, when only months with maturities are wanted, the
   * first twelve buckets of the all-months view whose start is not before now, in that view's order.
   */
  function DisplayMonths(showOnly: bool, now: Date, nowMillis: nat, windowed: seq<MonthData>, all: seq<MonthData>)
    : (r: seq<MonthData>)
    ensures !showOnly ==> r == windowed
    ensures showOnly ==> IsSubsequence(r, all)
    ensures showOnly ==> |r| <= 12 && forall i :: 0 <= i < |r| ==> r[i] in all && StartsNotBefore(r[i], now, nowMillis)
    ensures showOnly ==> var kept := Filter(all, NotBeforeNow(now, nowMillis));
      |r| == (if |kept| <= 12 then |kept| else 12) && r == kept[..|r|]
    ensures showOnly && |Filter(all, NotBeforeNow(now, nowMillis))| <= 12 ==>
      forall m :: m in all && StartsNotBefore(m, now, nowMillis) ==> m in r
  {
    if !showOnly then windowed
    else
      var kept := Filter(all, NotBeforeNow(now, nowMillis));
      var r := Prefix(kept, 12);
      assert forall i :: 0 <= i < |r| ==> r[i] == kept[i];
      PrefixIsSubsequence(kept, |r|);
      SubsequenceTrans(r, kept, all);
      r
  }

  /**
   * Over an all-months view in month order, the months shown are in month order too, and every
   * qualifying month left out comes no earlier than any month shown.
   */
  lemma DisplayKeepsEarliest(now: Date, nowMillis: nat, windowed: seq<MonthData>, all: seq<MonthData>)
    requires SortedBy(all, MonthOrder)
    ensures var r := DisplayMonths(true, now, nowMillis, windowed, all);
      SortedBy(r, MonthOrder) &&
      forall m, i :: m in all && StartsNotBefore(m, now, nowMillis) && m !in r && 0 <= i < |r| ==>
        MonthOrder(r[i]) <= MonthOrder(m)
  {
    var kept := Filter(all, NotBeforeNow(now, nowMillis));
    var r := DisplayMonths(true, now, nowMillis, windowed, all);
    FilterSorted(all, NotBeforeNow(now, nowMillis), MonthOrder);
    SortedPrefixKeepsLowest(kept, |r|, MonthOrder);
    forall m | m in all && StartsNotBefore(m, now, nowMillis) ensures m in kept {
      assert NotBeforeNow(now, nowMillis)(m);
    }
  }

  /** Today's bucket is shown only at exactly midnight of the first of the month. */
  lemma TodaysMonthShownOnlyAtStart(m: MonthData, now: Date, nowMillis: nat)
    requires now.day >= 1
    requires MonthOrder(m) == MonthIndex(now.year, now.month)
    ensures StartsNotBefore(m, now, nowMillis) <==> now.day == 1 && nowMillis == 0
  {
  }

  /** Later months are always kept, earlier ones never. */
  lemma OtherMonthsShown(m: MonthData, now: Date, nowMillis: nat)
    ensures MonthOrder(m) > MonthIndex(now.year, now.month) ==> StartsNotBefore(m, now, nowMillis)
    ensures MonthOrder(m) < MonthIndex(now.year, now.month) ==> !StartsNotBefore(m, now, nowMillis)
  {
  }

  /** A bucket twelve months ahead, beyond the window, is displayed when only months with maturities are shown. */
  lemma DisplayReachesBeyondWindow(now: Date, nowMillis: nat, windowed: seq<MonthData>, events: seq<DayEvent>)
    requires WindowView(now, [], windowed)
    ensures var b := MonthData(now.year + 1, now.month, events);
      DisplayMonths(true, now, nowMillis, windowed, [b]) == [b] &&
      forall i :: 0 <= i < 12 ==> (windowed[i].year, windowed[i].month) != (b.year, b.month)
  {
    var b := MonthData(now.year + 1, now.month, events);
    forall i | 0 <= i < 12
      ensures (windowed[i].year, windowed[i].month) != (b.year, b.month)
    {
      WindowMonthIndex(now, i);
    }
    assert StartsNotBefore(b, now, nowMillis);
    assert Filter([b], NotBeforeNow(now, nowMillis)) == [b] by {
      assert NotBeforeNow(now, nowMillis)(b);
    }
  }
}
