/**
 * The dollar endpoints of lib/api-endpoints.ts: two fixed addresses and the address of the
 * official rate on one day, whose month is written with a leading zero below 10.
 */
module ApiEndpoints {
  import opened Wrappers
  import opened Strings

  /** `DOLLAR_ENDPOINTS.current`. */
  const DollarCurrent: string := "https://dolarapi.com/v1/dolares"
  /** `DOLLAR_ENDPOINTS.official`. */
  const DollarOfficial: string := "https://dolarapi.com/v1/dolares/oficial"
  /** The fixed part of `DOLLAR_ENDPOINTS.historical`. */
  const HistoricalPrefix: string := "https://api.argentinadatos.com/v1/cotizaciones/dolares/oficial/"

  /** `month < 10 ? "0" + month : month`, as it appears in the template. */
  function MonthSegment(month: int): (s: string)
    ensures '/' !in s
    ensures 0 <= month < 10 ==> |s| == 2 && s[0] == '0' && s[1] == DigitChar(month)
    ensures month >= 10 ==> s == IntToString(month) && s[0] != '0'
    ensures month >= 0 ==> JsNumber(s) == Some(month)
  {
    if month < 10 then
      (if month >= 0 then JsNumberLeadingZero(month); "0" + IntToString(month)
       else "0" + IntToString(month))
    else
      JsNumberIntToString(month);
      IntToString(month)
  }

  /** `DOLLAR_ENDPOINTS.historical(year, month, day)`. */
  function Historical(year: int, month: int, day: int): (url: string)
    ensures |url| > |HistoricalPrefix| && url[..|HistoricalPrefix|] == HistoricalPrefix
  {
    HistoricalPrefix + IntToString(year) + "/" + MonthSegment(month) + "/" + IntToString(day)
  }

  /**
   * After the prefix the address is three slash-separated pieces: the year as written by
   * `String`, the month segment and the day, never padded.
   */
  lemma HistoricalPath(year: int, month: int, day: int)
    ensures var url := Historical(year, month, day);
      Split(url[|HistoricalPrefix|..], '/') == [IntToString(year), MonthSegment(month), IntToString(day)]
  {
    var a, b, c := IntToString(year), MonthSegment(month), IntToString(day);
    AfterPrefix(HistoricalPrefix, a, b, c, '/');
    SplitThree(a, b, c, '/');
  }

  /** For a month that is not negative the three pieces read back as the year, month and day. */
  lemma HistoricalReadsBack(year: int, month: int, day: int)
    requires month >= 0
    ensures var pieces := Split(Historical(year, month, day)[|HistoricalPrefix|..], '/');
      |pieces| == 3 && JsNumber(pieces[0]) == Some(year) && JsNumber(pieces[1]) == Some(month) &&
      JsNumber(pieces[2]) == Some(day)
  {
    HistoricalPath(year, month, day);
    JsNumberIntToString(year);
    JsNumberIntToString(day);
  }

  /** Different dates give different addresses, as long as the month is not negative. */
  lemma HistoricalInjective(y1: int, m1: int, d1: int, y2: int, m2: int, d2: int)
    requires m1 >= 0 && m2 >= 0
    requires Historical(y1, m1, d1) == Historical(y2, m2, d2)
    ensures y1 == y2 && m1 == m2 && d1 == d2
  {
    HistoricalReadsBack(y1, m1, d1);
    HistoricalReadsBack(y2, m2, d2);
  }

  /** Months 1 to 9 are written with exactly one leading zero: 1 is "01" and 9 is "09". */
  lemma SingleDigitMonthPadded(month: int)
    requires 1 <= month <= 9
    ensures MonthSegment(month) == ['0', DigitChar(month)]
  {
  }

  /** A month below zero is written "0-" followed by its digits, which is not a number. */
  lemma NegativeMonthUnreadable(month: int)
    requires month < 0
    ensures MonthSegment(month)[..2] == "0-"
    ensures JsNumber(MonthSegment(month)) == None
  {
    var s := MonthSegment(month);
    assert s == "0" + "-" + NatToString(-month);
    assert !IsDigit(s[1]);
    TrimNoWhitespace(s);
  }
}
