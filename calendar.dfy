/** Time as the application sees it: an instant is a local calendar day
    (counted from 1970-01-01) plus milliseconds into that day, so that
    `addDays`, `getDay`, `getTime` and `format(d, 'yyyyMMdd')` can be stated
    without a time-zone database. */
module Calendar {

  const MsPerDay: nat := 86400000

  type TimeOfDay = ms: nat | ms < MsPerDay

  /** A JavaScript `Date`, read in local time. */
  datatype Instant = Instant(day: nat, ms: TimeOfDay)

  /** `date.getTime()`: milliseconds since the epoch. */
  function GetTime(t: Instant): nat
  {
    t.day * MsPerDay + t.ms
  }

  /** `addDays(t, i)`: the same time of day, `i` calendar days later. */
  function AddDays(t: Instant, i: nat): (r: Instant)
    ensures r.day == t.day + i && r.ms == t.ms
  {
    Instant(t.day + i, t.ms)
  }

  /** `getDay()` of a day index: 0 is Sunday; 1970-01-01 was a Thursday (4).
      Stated week by week, so that the solver unfolds it one week at a time. */
  function Weekday(day: nat): (w: nat)
    ensures w < 7
    decreases day
  {
    if day >= 7 then Weekday(day - 7) else if day < 3 then day + 4 else day - 3
  }

  /** The closed form: four days after the epoch's weekday, modulo seven. */
  lemma {:induction false} WeekdayFormula(day: nat)
    ensures Weekday(day) == (day + 4) % 7
    decreases day
  {
    if day >= 7 {
      WeekdayFormula(day - 7);
    }
  }

  /** A proleptic Gregorian calendar date. */
  datatype Date = Date(year: nat, month: nat, dayOfMonth: nat)

  predicate IsLeapYear(y: nat)
  {
    y % 4 == 0 && (y % 100 != 0 || y % 400 == 0)
  }

  function DaysInMonth(y: nat, m: nat): (n: nat)
    ensures 28 <= n <= 31
  {
    if m == 2 then (if IsLeapYear(y) then 29 else 28)
    else if m == 4 || m == 6 || m == 9 || m == 11 then 30
    else 31
  }

  predicate ValidDate(c: Date)
  {
    1 <= c.month <= 12 && 1 <= c.dayOfMonth <= DaysInMonth(c.year, c.month)
  }

  /** The calendar date that follows `c`. */
  function NextDate(c: Date): Date
  {
    if c.dayOfMonth < DaysInMonth(c.year, c.month) then Date(c.year, c.month, c.dayOfMonth + 1)
    else if c.month < 12 then Date(c.year, c.month + 1, 1)
    else Date(c.year + 1, 1, 1)
  }

  /** The calendar date of day index `n`. */
  function CivilDate(n: nat): (c: Date)
    ensures ValidDate(c)
    ensures c.year >= 1970
    decreases n
  {
    if n == 0 then Date(1970, 1, 1) else NextDate(CivilDate(n - 1))
  }

  /** The date read as the number yyyyMMdd. */
  function DateKey(c: Date): nat
  {
    c.year * 10000 + c.month * 100 + c.dayOfMonth
  }

  lemma NextDateIsLater(c: Date)
    requires ValidDate(c)
    ensures DateKey(NextDate(c)) > DateKey(c)
  {
  }

  /** Later day indices have later dates. */
  lemma {:induction false} CivilDateMonotone(i: nat, j: nat)
    requires i < j
    ensures DateKey(CivilDate(i)) < DateKey(CivilDate(j))
    decreases j
  {
    NextDateIsLater(CivilDate(j - 1));
    if i < j - 1 {
      CivilDateMonotone(i, j - 1);
    }
  }

  /** Distinct day indices are distinct calendar dates. */
  lemma CivilDateInjective(i: nat, j: nat)
    requires CivilDate(i) == CivilDate(j)
    ensures i == j
  {
    if i < j {
      CivilDateMonotone(i, j);
    } else if j < i {
      CivilDateMonotone(j, i);
    }
  }

  /** Years never decrease from one day index to a later one. */
  lemma YearMonotone(i: nat, j: nat)
    requires i <= j
    ensures CivilDate(i).year <= CivilDate(j).year
  {
    if i < j {
      CivilDateMonotone(i, j);
    }
  }

  /** `getDate()`, `getMonth()` and `getFullYear()` all agree. */
  predicate SameCalendarDay(a: Instant, b: Instant)
  {
    CivilDate(a.day) == CivilDate(b.day)
  }

  lemma SameCalendarDayIff(a: Instant, b: Instant)
    ensures SameCalendarDay(a, b) <==> a.day == b.day
  {
    if SameCalendarDay(a, b) {
      CivilDateInjective(a.day, b.day);
    }
  }

  // ---- fixed-width decimal text ----

  predicate IsDigit(c: char)
  {
    '0' <= c <= '9'
  }

  predicate AllDigits(s: string)
  {
    forall k :: 0 <= k < |s| ==> IsDigit(s[k])
  }

  function Pow10(k: nat): (p: nat)
    ensures p >= 1
  {
    if k == 0 then 1 else 10 * Pow10(k - 1)
  }

  function DigitChar(d: nat): (c: char)
    requires d < 10
    ensures IsDigit(c)
  {
    ('0' as int + d) as char
  }

  /** The last `k` decimal digits of `n`, zero-padded on the left. */
  function Digits(n: nat, k: nat): (s: string)
    ensures |s| == k && AllDigits(s)
    decreases k
  {
    if k == 0 then "" else Digits(n / 10, k - 1) + [DigitChar(n % 10)]
  }

  /** The number a string of decimal digits denotes. */
  function DigitsValue(s: string): nat
    requires AllDigits(s)
    decreases |s|
  {
    if s == [] then 0 else DigitsValue(s[..|s| - 1]) * 10 + (s[|s| - 1] as int - '0' as int)
  }

  /** Reading back `k` printed digits of a number below 10^k gives the number. */
  lemma {:induction false} DigitsRoundTrip(n: nat, k: nat)
    requires n < Pow10(k)
    ensures DigitsValue(Digits(n, k)) == n
    decreases k
  {
    if k > 0 {
      var s := Digits(n, k);
      assert s[..|s| - 1] == Digits(n / 10, k - 1);
      DigitsRoundTrip(n / 10, k - 1);
    }
  }

  /** The stamp width, kept behind a call so that the solver does not
      unfold `Digits` eight times wherever a stamp appears. */
  function StampWidth(): nat
  {
    8
  }

  /** `format(date, 'yyyyMMdd')`. */
  function DateStamp(day: nat): (s: string)
    ensures |s| == 8 && AllDigits(s)
  {
    Digits(DateKey(CivilDate(day)), StampWidth())
  }

  /** Up to year 9999 the eight-digit stamp names exactly one day. */
  lemma DateStampInjective(i: nat, j: nat)
    requires CivilDate(i).year < 10000 && CivilDate(j).year < 10000
    requires DateStamp(i) == DateStamp(j)
    ensures i == j
  {
    var ki, kj := DateKey(CivilDate(i)), DateKey(CivilDate(j));
    assert Pow10(StampWidth()) == 100000000;
    DigitsRoundTrip(ki, StampWidth());
    DigitsRoundTrip(kj, StampWidth());
    if i < j {
      CivilDateMonotone(i, j);
    } else if j < i {
      CivilDateMonotone(j, i);
    }
  }
}
