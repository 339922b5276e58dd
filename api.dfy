/** The uptime arithmetic and the request handlers of src/toast/api.c.  The
    clock is left out: the start and current times come in as broken-down
    time records, as localtime_r produces them. */
module Api {
  import opened Wrappers
  import opened LibC

  // ---------------------------------------------------------------------
  // Calendar
  // ---------------------------------------------------------------------

  /** is_leap_year: the Gregorian rule.  C's truncating % and Dafny's
      Euclidean % agree on whether a remainder is zero, so this holds for
      negative years too. */
  predicate IsLeapYear(year: int) {
    (year % 4 == 0 && year % 100 != 0) || year % 400 == 0
  }

  /** The static table of days_in_month, indexed by 0-based month. */
  const MonthTable: seq<int> := [31, 28, 31, 30, 31, 30, 31, 31, 30, 31, 30, 31]

  /** days_in_month: the table value, except February in a leap year.  The C
      function indexes a 12-entry array, so the month must be 0..11. */
  function DaysInMonth(year: int, month: int): (r: int)
    requires 0 <= month < 12
    ensures 28 <= r <= 31
    ensures month == 1 ==> (r == 29 <==> IsLeapYear(year)) && (r == 28 <==> !IsLeapYear(year))
    ensures month != 1 ==> r == MonthTable[month] && r >= 30
  {
    if month == 1 then (if IsLeapYear(year) then 29 else 28) else MonthTable[month]
  }

  /** The days in the first `months` months of a year. */
  function DaysBefore(year: int, months: nat): int
    requires months <= 12
  {
    if months == 0 then 0 else DaysBefore(year, months - 1) + DaysInMonth(year, months - 1)
  }

  /** The month lengths add up to the length of the Gregorian year. */
  lemma YearLength(year: int)
    ensures DaysBefore(year, 12) == if IsLeapYear(year) then 366 else 365
  {
    var feb := DaysInMonth(year, 1);
    assert DaysBefore(year, 1) == 31;
    assert DaysBefore(year, 2) == 31 + feb;
    assert DaysBefore(year, 3) == 62 + feb;
    assert DaysBefore(year, 4) == 92 + feb;
    assert DaysBefore(year, 5) == 123 + feb;
    assert DaysBefore(year, 6) == 153 + feb;
    assert DaysBefore(year, 7) == 184 + feb;
    assert DaysBefore(year, 8) == 215 + feb;
    assert DaysBefore(year, 9) == 245 + feb;
    assert DaysBefore(year, 10) == 276 + feb;
    assert DaysBefore(year, 11) == 306 + feb;
  }

  // ---------------------------------------------------------------------
  // format_uptime
  // ---------------------------------------------------------------------

  /** `struct tm` as section 7.27.1 of ISO/IEC 9899:2011 defines it: `year`
      counts years since 1900 and `mon` is 0-based (0 is January). */
  datatype Tm = Tm(year: int, mon: int, mday: int, hour: int, min: int, sec: int)

  /** A calendar time localtime_r can produce (the leap second 60 aside). */
  predicate ValidTm(t: Tm) {
    && 0 <= t.mon < 12
    && 1 <= t.mday <= DaysInMonth(t.year + 1900, t.mon)
    && 0 <= t.hour < 24
    && 0 <= t.min < 60
    && 0 <= t.sec < 60
  }

  /** The five numbers format_uptime prints. */
  datatype Duration = Duration(months: int, days: int, hours: int, minutes: int, seconds: int)

  function Borrow(b: bool): int {
    if b then 1 else 0
  }

  /** The duration format_uptime computes, with each borrow of its chain
      written as a condition on the inputs.  The day borrow adds the length
      of the start month in year `leapBase + start.year`: format_uptime
      passes tm_year itself, which is leapBase 0. */
  function UptimeWith(start: Tm, end: Tm, leapBase: int): Duration
    requires 0 <= start.mon < 12
  {
    var dayBorrow := end.mday < start.mday;
    var secondBorrow := end.sec < start.sec;
    var minuteBorrow := end.min - start.min - Borrow(secondBorrow) < 0;
    var hourBorrow := end.hour - start.hour - Borrow(minuteBorrow) < 0;
    Duration(
      12 * (end.year - start.year) + end.mon - start.mon - Borrow(dayBorrow),
      end.mday - start.mday + (if dayBorrow then DaysInMonth(leapBase + start.year, start.mon) else 0)
        - Borrow(hourBorrow),
      end.hour - start.hour - Borrow(minuteBorrow) + 24 * Borrow(hourBorrow),
      end.min - start.min - Borrow(secondBorrow) + 60 * Borrow(minuteBorrow),
      end.sec - start.sec + 60 * Borrow(secondBorrow))
  }

  /** The duration as format_uptime computes it. */
  function Uptime(start: Tm, end: Tm): Duration
    requires 0 <= start.mon < 12
  {
    UptimeWith(start, end, 0)
  }

  /** The duration with the leap test applied to the calendar year. */
  function UptimeFixed(start: Tm, end: Tm): Duration
    requires 0 <= start.mon < 12
  {
    UptimeWith(start, end, 1900)
  }

  /** The text of "%dm %dd %02d:%02d:%02d". */
  function Render(d: Duration): string {
    Decimal(d.months) + "m " + Decimal(d.days) + "d "
      + Pad2(d.hours) + ":" + Pad2(d.minutes) + ":" + Pad2(d.seconds)
  }

  /** The text format_uptime writes, as written. */
  function UptimeText(start: Tm, end: Tm): string
    requires 0 <= start.mon < 12
  {
    Render(Uptime(start, end))
  }

  /** The text with the leap test applied to the calendar year. */
  function UptimeTextFixed(start: Tm, end: Tm): string
    requires 0 <= start.mon < 12
  {
    Render(UptimeFixed(start, end))
  }

  /** format_uptime: the differences, then the day borrow, then the second,
      minute and hour borrows, each on the running values.  The month length
      of the day borrow is looked up with tm_year itself, as the code is
      written, so this prints `UptimeText`; `UptimeTextFixed` is the text with
      the calendar year tm_year + 1900. */
  method FormatUptime(start: Tm, end: Tm) returns (text: string)
    requires 0 <= start.mon < 12
    ensures text == UptimeText(start, end)
  {
    var years := end.year - start.year;
    var months := end.mon - start.mon + years * 12;
    var days := end.mday - start.mday;
    var hours := end.hour - start.hour;
    var minutes := end.min - start.min;
    var seconds := end.sec - start.sec;

    if days < 0 {
      months := months - 1;
      days := days + DaysInMonth(start.year, start.mon);
    }
    if seconds < 0 {
      seconds := seconds + 60;
      minutes := minutes - 1;
    }
    if minutes < 0 {
      minutes := minutes + 60;
      hours := hours - 1;
    }
    if hours < 0 {
      hours := hours + 24;
      days := days - 1;
    }
    assert Duration(months, days, hours, minutes, seconds) == Uptime(start, end);
    text := Render(Duration(months, days, hours, minutes, seconds));
  }

  /** A span of days, hours, minutes and seconds in seconds. */
  function Seconds(days: int, hours: int, minutes: int, seconds: int): int {
    ((days * 24 + hours) * 60 + minutes) * 60 + seconds
  }

  /** What the borrow chain preserves: the months are the calendar month
      difference, one fewer when the end day of month is before the start
      day; the days, hours, minutes and seconds add up to the raw difference
      of the fields, plus the start month's length when a month was borrowed. */
  lemma UptimeKeepsElapsedTime(start: Tm, end: Tm, leapBase: int)
    requires 0 <= start.mon < 12
    ensures UptimeWith(start, end, leapBase).months ==
              12 * (end.year - start.year) + end.mon - start.mon - Borrow(end.mday < start.mday)
    ensures var d := UptimeWith(start, end, leapBase);
            Seconds(d.days, d.hours, d.minutes, d.seconds) ==
              Seconds(end.mday - start.mday
                        + (if end.mday < start.mday then DaysInMonth(leapBase + start.year, start.mon) else 0),
                      end.hour - start.hour, end.min - start.min, end.sec - start.sec)
  {
  }

  /** For calendar times the clock fields come out in range, and the days
      between -1 and 30: -1 because the hour borrow runs after the day borrow. */
  lemma UptimeInRange(start: Tm, end: Tm, leapBase: int)
    requires ValidTm(start) && ValidTm(end)
    ensures var d := UptimeWith(start, end, leapBase);
            && 0 <= d.seconds < 60
            && 0 <= d.minutes < 60
            && 0 <= d.hours < 24
            && -1 <= d.days <= 30
  {
    var actual := DaysInMonth(start.year + 1900, start.mon);
    var used := DaysInMonth(leapBase + start.year, start.mon);
    assert start.mday <= used + 1 by {
      if start.mon != 1 {
        assert actual == used;
      }
    }
  }

  lemma SmallNumbers()
    ensures Decimal(0) == "0" && Pad2(0) == "00"
    ensures Decimal(1) == "1" && Decimal(-1) == "-1"
    ensures Pad2(2) == "02"
  {
    assert Natural(0) == "0";
    assert Natural(1) == "1";
    assert Natural(2) == "2";
  }

  lemma RenderedExamples()
    ensures Render(Duration(0, 0, 0, 0, 0)) == "0m 0d 00:00:00"
    ensures Render(Duration(0, 0, 0, 0, 2)) == "0m 0d 00:00:02"
    ensures Render(Duration(1, -1, 2, 0, 0)) == "1m -1d 02:00:00"
    ensures Render(Duration(0, 1, 0, 0, 0)) == "0m 1d 00:00:00"
  {
    SmallNumbers();
  }

  /** Equal start and end times print as zero, with either leap test. */
  lemma SameInstantIsZero(t: Tm, leapBase: int)
    requires 0 <= t.mon < 12
    ensures Render(UptimeWith(t, t, leapBase)) == "0m 0d 00:00:00"
  {
    assert UptimeWith(t, t, leapBase) == Duration(0, 0, 0, 0, 0);
    RenderedExamples();
  }

  // The worked examples below take their dates as parameters pinned by a
  // `requires start == Tm(...)`: with the dates written as literals in the
  // lemma, the solver unfolds the rendering and the borrow chain on the
  // constants at once and runs out of its resource budget.

  /** 2024-01-31 23:59:59 to 2024-02-01 00:00:01 prints as two seconds,
      with either leap test. */
  lemma TwoSecondsAcrossMonthEnd(start: Tm, end: Tm, leapBase: int)
    requires start == Tm(124, 0, 31, 23, 59, 59) && end == Tm(124, 1, 1, 0, 0, 1)
    ensures Render(UptimeWith(start, end, leapBase)) == "0m 0d 00:00:02"
  {
    TwoSecondsDuration(start, end, leapBase);
    RenderedExamples();
  }

  lemma TwoSecondsDuration(start: Tm, end: Tm, leapBase: int)
    requires start == Tm(124, 0, 31, 23, 59, 59) && end == Tm(124, 1, 1, 0, 0, 1)
    ensures ValidTm(start) && ValidTm(end)
    ensures UptimeWith(start, end, leapBase) == Duration(0, 0, 0, 0, 2)
  {
  }

  /** The hour borrow after the day borrow: January 1 23:00:00 to February 1
      01:00:00 prints a negative day count, with either leap test. */
  lemma NegativeDays(start: Tm, end: Tm, leapBase: int)
    requires start == Tm(124, 0, 1, 23, 0, 0) && end == Tm(124, 1, 1, 1, 0, 0)
    ensures Render(UptimeWith(start, end, leapBase)) == "1m -1d 02:00:00"
  {
    NegativeDaysDuration(start, end, leapBase);
    RenderedExamples();
  }

  lemma NegativeDaysDuration(start: Tm, end: Tm, leapBase: int)
    requires start == Tm(124, 0, 1, 23, 0, 0) && end == Tm(124, 1, 1, 1, 0, 0)
    ensures ValidTm(start) && ValidTm(end)
    ensures UptimeWith(start, end, leapBase) == Duration(1, -1, 2, 0, 0)
  {
  }

  /** 2000 is a leap year, year 100 is not. */
  lemma CenturyYears()
    ensures IsLeapYear(2000) && DaysInMonth(2000, 1) == 29
    ensures !IsLeapYear(100) && DaysInMonth(100, 1) == 28
  {
    assert 2000 % 400 == 0;
    assert 100 % 100 == 0 && 100 % 400 != 0;
  }

  /** The day borrow as written applies the leap test to tm_year, years since
      1900: February 2000 counts 28 days, so the day from 2000-02-29 to
      2000-03-01 prints as nothing at all. */
  lemma LeapDayLost(start: Tm, end: Tm)
    requires start == Tm(100, 1, 29, 0, 0, 0) && end == Tm(100, 2, 1, 0, 0, 0)
    ensures UptimeText(start, end) == "0m 0d 00:00:00"
  {
    LeapDayDuration(start, end);
    RenderedExamples();
  }

  lemma LeapDayDuration(start: Tm, end: Tm)
    requires start == Tm(100, 1, 29, 0, 0, 0) && end == Tm(100, 2, 1, 0, 0, 0)
    ensures IsLeapYear(start.year + 1900) && DaysInMonth(start.year, 1) == 28
    ensures ValidTm(start) && ValidTm(end)
    ensures Uptime(start, end) == Duration(0, 0, 0, 0, 0)
  {
    CenturyYears();
  }

  /** With the leap test applied to the calendar year, the same interval
      prints as the one day it is. */
  lemma LeapDayCounted(start: Tm, end: Tm)
    requires start == Tm(100, 1, 29, 0, 0, 0) && end == Tm(100, 2, 1, 0, 0, 0)
    ensures UptimeTextFixed(start, end) == "0m 1d 00:00:00"
  {
    LeapDayFixedDuration(start, end);
    RenderedExamples();
  }

  lemma LeapDayFixedDuration(start: Tm, end: Tm)
    requires start == Tm(100, 1, 29, 0, 0, 0) && end == Tm(100, 2, 1, 0, 0, 0)
    ensures UptimeFixed(start, end) == Duration(0, 1, 0, 0, 0)
  {
    CenturyYears();
  }

  /** With the leap test applied to the calendar year, the time from any day
      of a month to the first of the next month, at the same time of day, is
      the exact number of days between them. */
  lemma FixedCountsDaysToNextMonth(start: Tm)
    requires ValidTm(start) && start.mon < 11 && start.mday > 1
    ensures UptimeFixed(start, start.(mon := start.mon + 1, mday := 1)) ==
              Duration(0, DaysInMonth(start.year + 1900, start.mon) - start.mday + 1, 0, 0, 0)
  {
  }

  // ---------------------------------------------------------------------
  // Handlers
  // ---------------------------------------------------------------------

  /** What a handler sends.  `Declined` is a return of -1 with nothing sent.
      `JsonReply` carries the "uptime" member of the JSON body; the other
      members of /api/serverinfo are build-time constants.  The handlers add
      their content-type header to the request's header list, not to the
      response, so a JSON reply carries no content type. */
  datatype Reply =
    | Declined
    | JsonReply(status: int, uptime: string)
    | FileReply(status: int, mimeType: string, path: string)

  const CvDirectory: string := "./assets/cvs/"
  const SwedishCv: string := "./assets/cvs/CV_-_Swedish.pdf"
  const EnglishCv: string := "./assets/cvs/CV_-_English.pdf"

  /** A request header as h2o keeps it in `req->headers`.  h2o stores header
      names lower-cased. */
  datatype Header = Header(name: string, value: string)

  /** h2o_find_header_by_str(headers, name, cursor): the index of the first
      header called `name` strictly after position `cursor`, or -1 when there
      is none; a search from the start passes -1. */
  function FindHeader(headers: seq<Header>, name: string, cursor: int): (r: int)
    requires cursor >= -1
    ensures r == -1 || cursor < r < |headers|
    ensures r != -1 ==> headers[r].name == name
    ensures r != -1 ==> forall i :: cursor < i < r ==> headers[i].name != name
    ensures r == -1 ==> forall i :: cursor < i < |headers| ==> headers[i].name != name
    decreases |headers| - cursor
  {
    if cursor + 1 >= |headers| then -1
    else if headers[cursor + 1].name == name then cursor + 1
    else FindHeader(headers, name, cursor + 1)
  }

  /** The cursor get_cv passes to the header search. */
  const LanguageCursor: int := 0

  /** get_cv: only GET is served; the "language" header is searched for with
      cursor 0, and its value chosen by a byte-exact comparison with
      "Swedish"; the file is always sent as a PDF. */
  method GetCv(requestMethod: string, headers: seq<Header>) returns (rc: int, reply: Reply)
    ensures rc == 0 || rc == -1
    ensures rc == 0 <==> requestMethod == "GET" && FindHeader(headers, "language", LanguageCursor) != -1
    ensures rc != 0 ==> reply == Declined
    ensures rc == 0 ==> reply.FileReply? && reply.status == 200 && reply.mimeType == "application/pdf"
    ensures rc == 0 ==> var i := FindHeader(headers, "language", LanguageCursor);
      (reply.path == SwedishCv <==> headers[i].value == "Swedish") &&
      (reply.path == EnglishCv <==> headers[i].value != "Swedish")
  {
    var path := CvDirectory;
    if requestMethod != "GET" {
      return -1, Declined;
    }
    var mimeType := "application/pdf";
    var index := FindHeader(headers, "language", LanguageCursor);
    if index == -1 {
      return -1, Declined;
    }
    if headers[index].value == "Swedish" {
      path := path + "CV_-_Swedish.pdf";
      assert path == SwedishCv;
    } else {
      path := path + "CV_-_English.pdf";
      assert path == EnglishCv;
    }
    assert EnglishCv[18] != SwedishCv[18];
    rc, reply := 0, FileReply(200, mimeType, path);
  }

  /** The search get_cv makes starts after index 0, so a "language" header
      that comes first in the request is never seen: a request whose only
      header is "language: Swedish" is declined. */
  lemma FirstLanguageHeaderMissed(headers: seq<Header>)
    requires headers == [Header("language", "Swedish")]
    ensures FindHeader(headers, "language", LanguageCursor) == -1
  {
  }

  /** A search from the start, with cursor -1, finds a header exactly when the
      request has one of that name, and finds the first. */
  lemma FindFromStart(headers: seq<Header>, name: string)
    ensures FindHeader(headers, name, -1) != -1 <==> exists i :: 0 <= i < |headers| && headers[i].name == name
    ensures FindHeader(headers, name, -1) != -1 ==>
      forall i :: 0 <= i < FindHeader(headers, name, -1) ==> headers[i].name != name
  {
  }

  /** get_server_info: the uptime is formatted first, then any method but
      GET is refused. */
  method GetServerInfo(requestMethod: string, start: Tm, now: Tm) returns (rc: int, reply: Reply)
    requires 0 <= start.mon < 12
    ensures rc == 0 || rc == -1
    ensures rc == 0 <==> requestMethod == "GET"
    ensures rc != 0 ==> reply == Declined
    ensures rc == 0 ==> reply == JsonReply(200, UptimeText(start, now))
  {
    var uptime := FormatUptime(start, now);
    if requestMethod != "GET" {
      return -1, Declined;
    }
    rc, reply := 0, JsonReply(200, uptime);
  }

  /** get_uptime: answers every method, since it checks none. */
  method GetUptime(requestMethod: string, start: Tm, now: Tm) returns (rc: int, reply: Reply)
    requires 0 <= start.mon < 12
    ensures rc == 0
    ensures reply == JsonReply(200, UptimeText(start, now))
  {
    var uptime := FormatUptime(start, now);
    rc, reply := 0, JsonReply(200, uptime);
  }
}
