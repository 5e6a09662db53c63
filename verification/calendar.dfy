/** Proleptic Gregorian dates as Python's `datetime` handles them: the
    `%d%m%y` reading used by `strptime`, the `%d/%m/%Y` rendering used by
    `strftime`, and subtraction of one day (`- timedelta(1)`). */
module Calendar {

  import opened Results

  datatype Date = Date(day: int, month: int, year: int)

  /** `datetime.MINYEAR` and `datetime.MAXYEAR`. */
  const MinYear: int := 1
  const MaxYear: int := 9999

  predicate IsLeapYear(y: int)
  {
    y % 4 == 0 && (y % 100 != 0 || y % 400 == 0)
  }

  function DaysInMonth(month: int, year: int): (n: int)
    requires 1 <= month <= 12
    ensures 28 <= n <= 31
    ensures month == 2 ==> (n == 29 <==> IsLeapYear(year))
    ensures month != 2 ==> (n == 30 <==> month == 4 || month == 6 || month == 9 || month == 11)
  {
    if month == 2 then (if IsLeapYear(year) then 29 else 28)
    else if month == 4 || month == 6 || month == 9 || month == 11 then 30
    else 31
  }

  /** A date `datetime` accepts. */
  predicate Valid(d: Date)
  {
    && MinYear <= d.year <= MaxYear
    && 1 <= d.month <= 12
    && 1 <= d.day <= DaysInMonth(d.month, d.year)
  }

  /** Chronological order on dates. */
  predicate Before(a: Date, b: Date)
  {
    || a.year < b.year
    || (a.year == b.year && a.month < b.month)
    || (a.year == b.year && a.month == b.month && a.day < b.day)
  }

  /** Days in the years before `y` (independent reference count, as in `date.toordinal`). */
  function DaysBeforeYear(y: int): int
    requires y >= 1
  {
    var p := y - 1;
    p * 365 + p / 4 - p / 100 + p / 400
  }

  /** Days in the months of year `y` before `m`. */
  function DaysBeforeMonth(m: int, y: int): int
    requires 1 <= m <= 12
  {
    if m == 1 then 0 else DaysBeforeMonth(m - 1, y) + DaysInMonth(m - 1, y)
  }

  /** Proleptic Gregorian ordinal: 1 January of year 1 is day 1. */
  function Ordinal(d: Date): int
    requires Valid(d)
  {
    DaysBeforeYear(d.year) + DaysBeforeMonth(d.month, d.year) + d.day
  }

  /** The calendar day after `d`. */
  function Next(d: Date): (r: Date)
    requires Valid(d) && d != Date(31, 12, MaxYear)
    ensures Valid(r) && Before(d, r)
    ensures d.year <= r.year <= d.year + 1
  {
    if d.day < DaysInMonth(d.month, d.year) then Date(d.day + 1, d.month, d.year)
    else if d.month < 12 then Date(1, d.month + 1, d.year)
    else Date(1, 1, d.year + 1)
  }

  /** The calendar day before `d`: `d - timedelta(1)`. */
  function Previous(d: Date): (r: Date)
    requires Valid(d) && d != Date(1, 1, MinYear)
    ensures Valid(r) && Before(r, d)
    ensures d.year - 1 <= r.year <= d.year
  {
    if d.day > 1 then Date(d.day - 1, d.month, d.year)
    else if d.month > 1 then Date(DaysInMonth(d.month - 1, d.year), d.month - 1, d.year)
    else Date(31, 12, d.year - 1)
  }

  /** Going back one day and then forward one day returns to the start. */
  lemma NextOfPrevious(d: Date)
    requires Valid(d) && d != Date(1, 1, MinYear)
    ensures Previous(d) != Date(31, 12, MaxYear)
    ensures Next(Previous(d)) == d
  {
  }

  /** Going forward one day and then back one day returns to the start. */
  lemma PreviousOfNext(d: Date)
    requires Valid(d) && d != Date(31, 12, MaxYear)
    ensures Next(d) != Date(1, 1, MinYear)
    ensures Previous(Next(d)) == d
  {
  }

  lemma {:induction false} DaysBeforeYearStep(y: int)
    requires y >= 2
    ensures DaysBeforeYear(y) == DaysBeforeYear(y - 1) + (if IsLeapYear(y - 1) then 366 else 365)
  {
    var p := y - 2;
    DivSucc4(p);
    DivSucc100(p);
    DivSucc400(p);
    if (p + 1) % 400 == 0 {
      MultipleOf400(p + 1);
    } else if (p + 1) % 100 == 0 {
      MultipleOf100(p + 1);
    }
  }

  /** Going from `p` to `p + 1` raises `p / 4` (and `p / 100`, `p / 400`)
      by one exactly at the multiples. */
  lemma DivSucc4(p: nat)
    ensures (p + 1) / 4 == p / 4 + (if (p + 1) % 4 == 0 then 1 else 0)
  {
  }

  lemma DivSucc100(p: nat)
    ensures (p + 1) / 100 == p / 100 + (if (p + 1) % 100 == 0 then 1 else 0)
  {
  }

  lemma DivSucc400(p: nat)
    ensures (p + 1) / 400 == p / 400 + (if (p + 1) % 400 == 0 then 1 else 0)
  {
  }

  lemma MultipleOf400(n: int)
    requires n % 400 == 0
    ensures n % 100 == 0 && n % 4 == 0
  {
    var q := n / 400;
    assert n == 100 * (4 * q) && n == 4 * (100 * q);
  }

  lemma MultipleOf100(n: int)
    requires n % 100 == 0
    ensures n % 4 == 0
  {
    var q := n / 100;
    assert n == 4 * (25 * q);
  }

  lemma {:induction false} DaysInYear(y: int)
    ensures DaysBeforeMonth(12, y) + 31 == (if IsLeapYear(y) then 366 else 365)
  {
    var f := DaysInMonth(2, y) - 28;
    assert DaysBeforeMonth(2, y) == 31;
    assert DaysBeforeMonth(3, y) == 59 + f;
    assert DaysBeforeMonth(4, y) == 90 + f;
    assert DaysBeforeMonth(5, y) == 120 + f;
    assert DaysBeforeMonth(6, y) == 151 + f;
    assert DaysBeforeMonth(7, y) == 181 + f;
    assert DaysBeforeMonth(8, y) == 212 + f;
    assert DaysBeforeMonth(9, y) == 243 + f;
    assert DaysBeforeMonth(10, y) == 273 + f;
    assert DaysBeforeMonth(11, y) == 304 + f;
  }

  /** `Previous` is exactly one day back on the ordinal day count, across
      month ends, year ends and 29 February alike. */
  lemma {:induction false} PreviousIsOneDayBack(d: Date)
    requires Valid(d) && d != Date(1, 1, MinYear)
    ensures Ordinal(Previous(d)) == Ordinal(d) - 1
  {
    if d.day == 1 && d.month == 1 {
      DaysBeforeYearStep(d.year);
      DaysInYear(d.year - 1);
    }
  }

  /** No valid date lies strictly between `Previous(d)` and `d`. */
  lemma NothingBetweenPreviousAndDay(d: Date, e: Date)
    requires Valid(d) && d != Date(1, 1, MinYear) && Valid(e)
    requires Before(Previous(d), e)
    ensures !Before(e, d)
  {
  }

  // ---------------------------------------------------------------------
  // Digits

  predicate IsDigit(ch: char)
  {
    '0' <= ch <= '9'
  }

  predicate AllDigits(s: string)
  {
    forall i :: 0 <= i < |s| ==> IsDigit(s[i])
  }

  /** The characters `s[lo..hi]` are all digits. */
  predicate DigitsAt(s: string, lo: nat, hi: nat)
    requires lo <= hi <= |s|
  {
    forall i :: lo <= i < hi ==> IsDigit(s[i])
  }

  function DigitValue(ch: char): (n: int)
    requires IsDigit(ch)
    ensures 0 <= n <= 9
  {
    ch as int - '0' as int
  }

  function DigitChar(n: int): (ch: char)
    requires 0 <= n <= 9
    ensures IsDigit(ch) && DigitValue(ch) == n
  {
    ('0' as int + n) as char
  }

  /** The value of the two-digit field starting at `i`. */
  function TwoDigitValue(s: string, i: nat): (n: int)
    requires i + 2 <= |s| && IsDigit(s[i]) && IsDigit(s[i + 1])
    ensures 0 <= n <= 99
  {
    10 * DigitValue(s[i]) + DigitValue(s[i + 1])
  }

  /** `n` written with exactly two digits, zero-padded. */
  function TwoDigitText(n: int): (s: string)
    requires 0 <= n <= 99
    ensures |s| == 2 && AllDigits(s) && TwoDigitValue(s, 0) == n
  {
    [DigitChar(n / 10), DigitChar(n % 10)]
  }

  /** `n` written with exactly four digits. */
  function FourDigitText(n: int): (s: string)
    requires 1000 <= n <= 9999
    ensures |s| == 4 && AllDigits(s)
    ensures 100 * TwoDigitValue(s, 0) + TwoDigitValue(s, 2) == n
  {
    TwoDigitText(n / 100) + TwoDigitText(n % 100)
  }

  // ---------------------------------------------------------------------
  // strptime(s, "%d%m%y")

  /** The POSIX `%y` convention: 00-68 are 2000-2068, 69-99 are 1969-1999. */
  function CenturyOf(yy: int): (y: int)
    requires 0 <= yy <= 99
    ensures 1969 <= y <= 2068 && y % 100 == yy
  {
    if yy <= 68 then 2000 + yy else 1900 + yy
  }

  /** The years a two-digit `%y` field can denote. */
  predicate InTwoDigitRange(d: Date)
  {
    1969 <= d.year <= 2068
  }

  /** A strict `ddmmyy` reading: six ASCII digits naming an existing day. */
  function ParseDdmmyy(s: string): (r: Option<Date>)
    ensures r.Some? ==> Valid(r.value) && InTwoDigitRange(r.value)
    ensures r.Some? <==> |s| == 6 && AllDigits(s) &&
                         Valid(Date(TwoDigitValue(s, 0), TwoDigitValue(s, 2), CenturyOf(TwoDigitValue(s, 4))))
  {
    if |s| != 6 || !AllDigits(s) then None
    else
      var d := Date(TwoDigitValue(s, 0), TwoDigitValue(s, 2), CenturyOf(TwoDigitValue(s, 4)));
      if Valid(d) then Some(d) else None
  }

  /** The `ddmmyy` text of a date the two-digit year can denote. */
  function Ddmmyy(d: Date): (s: string)
    requires Valid(d) && InTwoDigitRange(d)
    ensures |s| == 6 && AllDigits(s)
  {
    TwoDigitText(d.day) + TwoDigitText(d.month) + TwoDigitText(d.year % 100)
  }

  /** Round trip: every date in range is read back from its `ddmmyy` text. */
  lemma DdmmyyRoundTrip(d: Date)
    requires Valid(d) && InTwoDigitRange(d)
    ensures ParseDdmmyy(Ddmmyy(d)) == Some(d)
  {
    var s := Ddmmyy(d);
    assert s[0..2] == TwoDigitText(d.day);
    assert s[2..4] == TwoDigitText(d.month);
    assert s[4..6] == TwoDigitText(d.year % 100);
    assert TwoDigitValue(s, 0) == d.day;
    assert TwoDigitValue(s, 2) == d.month;
    assert TwoDigitValue(s, 4) == d.year % 100;
  }

  /** Round trip the other way: a text that reads as a date is that date's text. */
  lemma ParseDdmmyyInverse(s: string)
    requires ParseDdmmyy(s).Some?
    ensures Ddmmyy(ParseDdmmyy(s).value) == s
  {
    var d := ParseDdmmyy(s).value;
    TwoDigitTextOfValue(s, 0);
    TwoDigitTextOfValue(s, 2);
    TwoDigitTextOfValue(s, 4);
    assert s == s[0..2] + s[2..4] + s[4..6];
  }

  /** Writing back the value of a two-digit field gives the field. */
  lemma TwoDigitTextOfValue(s: string, i: nat)
    requires i + 2 <= |s| && IsDigit(s[i]) && IsDigit(s[i + 1])
    ensures TwoDigitText(TwoDigitValue(s, i)) == s[i..i + 2]
  {
    var n := TwoDigitValue(s, i);
    assert n / 10 == DigitValue(s[i]) && n % 10 == DigitValue(s[i + 1]);
  }

  // ---------------------------------------------------------------------
  // strftime("%d/%m/%Y")

  /** `d.strftime('%d/%m/%Y')` for four-digit years. */
  function FormatDmy(d: Date): (s: string)
    requires Valid(d) && d.year >= 1000
    ensures |s| == 10 && s[2] == '/' && s[5] == '/'
    ensures DigitsAt(s, 0, 2) && DigitsAt(s, 3, 5) && DigitsAt(s, 6, 10)
  {
    TwoDigitText(d.day) + "/" + TwoDigitText(d.month) + "/" + FourDigitText(d.year)
  }

  /** Reads back a `dd/mm/YYYY` text; the partner of `FormatDmy`. */
  function ReadDmy(s: string): (r: Option<Date>)
    ensures r.Some? ==> Valid(r.value)
  {
    if |s| != 10 || s[2] != '/' || s[5] != '/' then None
    else if !(DigitsAt(s, 0, 2) && DigitsAt(s, 3, 5) && DigitsAt(s, 6, 10)) then None
    else
      var d := Date(TwoDigitValue(s, 0), TwoDigitValue(s, 3), 100 * TwoDigitValue(s, 6) + TwoDigitValue(s, 8));
      if Valid(d) then Some(d) else None
  }

  /** Round trip: a formatted date reads back as itself. */
  lemma FormatDmyRoundTrip(d: Date)
    requires Valid(d) && d.year >= 1000
    ensures ReadDmy(FormatDmy(d)) == Some(d)
  {
    var s := FormatDmy(d);
    var dd := TwoDigitText(d.day);
    var mm := TwoDigitText(d.month);
    var yyyy := FourDigitText(d.year);
    assert s[0..2] == dd && s[3..5] == mm && s[6..10] == yyyy;
    assert TwoDigitValue(s, 0) == TwoDigitValue(dd, 0);
    assert TwoDigitValue(s, 3) == TwoDigitValue(mm, 0);
    assert TwoDigitValue(s, 6) == TwoDigitValue(yyyy, 0);
    assert TwoDigitValue(s, 8) == TwoDigitValue(yyyy, 2);
  }
}
