/**
 * Calendar values as the training record stores them: the DATE column
 * keeps a civil date, the TIME column a time of day.  The API projection
 * renders them with PHP's `format('Y-m-d')` and `format('H:i')`; the
 * parse functions here exist to show that those renderings lose nothing
 * but the seconds.
 */
module Calendar {
  import opened Base

  datatype CivilDate = CivilDate(year: int, month: nat, day: nat)
  {
    predicate Valid() {
      1 <= month <= 12 && 1 <= day <= DaysInMonth(year, month)
    }
  }

  datatype ClockTime = ClockTime(hour: nat, minute: nat, second: nat)
  {
    predicate Valid() {
      hour < 24 && minute < 60 && second < 60
    }
  }

  /** What `new \DateTime(...)` yields: a date and a time of day. */
  datatype Stamp = Stamp(date: CivilDate, clock: ClockTime)
  {
    predicate Valid() {
      date.Valid() && clock.Valid()
    }
  }

  type DateTime = s: Stamp | s.Valid() witness Stamp(CivilDate(1970, 1, 1), ClockTime(0, 0, 0))

  /** Gregorian leap years, as PHP's calendar uses them. */
  predicate IsLeapYear(y: int) {
    (y % 4 == 0 && y % 100 != 0) || y % 400 == 0
  }

  function DaysInMonth(y: int, m: nat): (n: nat)
    requires 1 <= m <= 12
    ensures 28 <= n <= 31
  {
    if m == 2 then (if IsLeapYear(y) then 29 else 28)
    else if m == 4 || m == 6 || m == 9 || m == 11 then 30
    else 31
  }

  /** Calendar order on dates: year, then month, then day. */
  predicate DateBefore(a: CivilDate, b: CivilDate) {
    a.year < b.year
    || (a.year == b.year && a.month < b.month)
    || (a.year == b.year && a.month == b.month && a.day < b.day)
  }

  /** Seconds since midnight; orders valid times of day. */
  function SecondOfDay(c: ClockTime): nat {
    c.hour * 3600 + c.minute * 60 + c.second
  }

  /** PHP 'Y': the year in at least four digits, with '-' before years
      before year 0. */
  function YearText(y: int): (s: string)
    ensures |s| >= 4
  {
    var n: nat := if y < 0 then -y else y;
    var w := if DigitCount(n) < 4 then 4 else DigitCount(n);
    if y < 0 then "-" + Digits(n, w) else Digits(n, w)
  }

  /** The 'Y' text reads back as the year. */
  lemma YearTextReadsBack(y: int)
    ensures var s := YearText(y);
            && (y >= 0 ==> AllDigits(s) && ParseNat(s) == y)
            && (y < 0 ==> s[0] == '-' && AllDigits(s[1..]) && ParseNat(s[1..]) == -y)
  {
    var n: nat := if y < 0 then -y else y;
    var w := if DigitCount(n) < 4 then 4 else DigitCount(n);
    Pow10Monotone(DigitCount(n), w);
    ParseNatOfDigits(n, w);
    if y < 0 {
      assert YearText(y)[1..] == Digits(n, w);
    }
  }

  /** `format('Y-m-d')`. */
  function FormatYmd(d: CivilDate): (s: string)
    requires d.Valid()
    ensures |s| >= 10
  {
    YearText(d.year) + "-" + Digits(d.month, 2) + "-" + Digits(d.day, 2)
  }

  /** `format('H:i')`. */
  function FormatHi(c: ClockTime): (s: string)
    requires c.Valid()
    ensures |s| == 5
  {
    Digits(c.hour, 2) + ":" + Digits(c.minute, 2)
  }

  /** Reads a "Y-m-d" text back; the reference against which FormatYmd
      is checked.  The last six characters hold "-mm-dd". */
  function ParseYmd(s: string): Option<CivilDate> {
    if |s| >= 7 && s[|s| - 3] == '-' && s[|s| - 6] == '-' then
      ParseYmdFields(s[..|s| - 6], s[|s| - 5..|s| - 3], s[|s| - 2..])
    else None
  }

  /** Reads the three fields of a "Y-m-d" text; the year may carry a '-'. */
  function ParseYmdFields(y: string, mm: string, dd: string): Option<CivilDate> {
    if !AllDigits(mm) || !AllDigits(dd) then None
    else if |y| >= 1 && y[0] == '-' && AllDigits(y[1..]) then
      Some(CivilDate(-(ParseNat(y[1..]) as int), ParseNat(mm), ParseNat(dd)))
    else if AllDigits(y) then
      Some(CivilDate(ParseNat(y), ParseNat(mm), ParseNat(dd)))
    else None
  }

  /** Reads an "H:i" text back as (hour, minute). */
  function ParseHi(s: string): Option<(nat, nat)> {
    if |s| == 5 && s[2] == ':' && AllDigits(s[..2]) && AllDigits(s[3..]) then
      Some((ParseNat(s[..2]), ParseNat(s[3..])))
    else None
  }

  /** The 'Y-m-d' rendering of a date determines the date. */
  lemma ParseYmdOfFormatYmd(d: CivilDate)
    requires d.Valid()
    ensures ParseYmd(FormatYmd(d)) == Some(d)
  {
    var y, mm, dd := YearText(d.year), Digits(d.month, 2), Digits(d.day, 2);
    YearTextReadsBack(d.year);
    ParseNatOfDigits(d.month, 2);
    ParseNatOfDigits(d.day, 2);
    assert FormatYmd(d) == y + "-" + mm + "-" + dd;
    SplitYmd(y, mm, dd);
    assert AllDigits(y) ==> y[0] != '-';
  }

  /** The three fields of a "Y-m-d" text are where ParseYmd looks. */
  lemma SplitYmd(y: string, mm: string, dd: string)
    requires |y| >= 1 && |mm| == 2 && |dd| == 2
    ensures var s := y + "-" + mm + "-" + dd;
            && |s| >= 7 && s[|s| - 3] == '-' && s[|s| - 6] == '-'
            && s[..|s| - 6] == y && s[|s| - 5..|s| - 3] == mm && s[|s| - 2..] == dd
  {
    var s := y + "-" + mm + "-" + dd;
    assert s == (y + "-") + (mm + "-" + dd);
    assert s[..|s| - 6] == y;
    assert s[|s| - 6..] == "-" + mm + "-" + dd;
  }

  /** The 'H:i' rendering determines the hour and the minute. */
  lemma ParseHiOfFormatHi(c: ClockTime)
    requires c.Valid()
    ensures ParseHi(FormatHi(c)) == Some((c.hour, c.minute))
  {
    ParseNatOfDigits(c.hour, 2);
    ParseNatOfDigits(c.minute, 2);
    var s := FormatHi(c);
    assert s[..2] == Digits(c.hour, 2);
    assert s[3..] == Digits(c.minute, 2);
  }

  /** Two dates with the same 'Y-m-d' text are the same date. */
  lemma FormatYmdInjective(a: CivilDate, b: CivilDate)
    requires a.Valid() && b.Valid()
    ensures FormatYmd(a) == FormatYmd(b) <==> a == b
  {
    ParseYmdOfFormatYmd(a);
    ParseYmdOfFormatYmd(b);
  }
}
