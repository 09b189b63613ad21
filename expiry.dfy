/**
 * The next monthly expiry: the last Thursday of the month after today,
 * written DD-MM-YYYY. Dates are proleptic Gregorian, numbered the way
 * Python's `date.toordinal` numbers them (1 January of year 1 is day 1, a
 * Monday), and weekdays run Monday = 0 to Sunday = 6.
 */
module Expiry {
  import opened Common

  datatype Date = Date(year: int, month: int, day: int)

  const MinYear: int := 1
  const MaxYear: int := 9999
  const Thursday: int := 3

  predicate IsLeapYear(year: int)
  {
    year % 4 == 0 && (year % 100 != 0 || year % 400 == 0)
  }

  /** `calendar.monthrange(year, month)[1]`. */
  function DaysInMonth(year: int, month: int): (n: int)
    requires 1 <= month <= 12
    ensures 28 <= n <= 31
    ensures month == 2 ==> (n == 29 <==> IsLeapYear(year))
  {
    if month == 2 then (if IsLeapYear(year) then 29 else 28)
    else if month == 4 || month == 6 || month == 9 || month == 11 then 30
    else 31
  }

  /** A date `datetime` accepts: year 1 to 9999, a real month and day. */
  predicate ValidDate(d: Date)
  {
    MinYear <= d.year <= MaxYear && 1 <= d.month <= 12 && 1 <= d.day <= DaysInMonth(d.year, d.month)
  }

  function DaysBeforeYear(year: int): int
    requires year >= 1
  {
    var y := year - 1;
    y * 365 + y / 4 - y / 100 + y / 400
  }

  function DaysBeforeMonth(year: int, month: int): int
    requires 1 <= month <= 12
  {
    if month == 1 then 0 else DaysBeforeMonth(year, month - 1) + DaysInMonth(year, month - 1)
  }

  /** The day number of a date, 1 January of year 1 being day 1. */
  function Ordinal(d: Date): int
    requires ValidDate(d)
  {
    DaysBeforeYear(d.year) + DaysBeforeMonth(d.year, d.month) + d.day
  }

  /** `date.weekday()`: Monday is 0, Thursday 3, Sunday 6. */
  function Weekday(d: Date): (w: int)
    requires ValidDate(d)
    ensures 0 <= w < 7
  {
    (Ordinal(d) + 6) % 7
  }

  /** `d - timedelta(days=1)`. */
  function PreviousDay(d: Date): (p: Date)
    requires ValidDate(d) && d != Date(MinYear, 1, 1)
    ensures ValidDate(p)
  {
    if d.day > 1 then Date(d.year, d.month, d.day - 1)
    else if d.month > 1 then Date(d.year, d.month - 1, DaysInMonth(d.year, d.month - 1))
    else Date(d.year - 1, 12, 31)
  }

  lemma DaysBeforeDecember(year: int)
    ensures DaysBeforeMonth(year, 12) == if IsLeapYear(year) then 335 else 334
  {
    var feb := DaysInMonth(year, 2);
    assert DaysBeforeMonth(year, 2) == 31;
    assert DaysBeforeMonth(year, 3) == 31 + feb;
    assert DaysBeforeMonth(year, 4) == 31 + feb + 31;
    assert DaysBeforeMonth(year, 5) == 31 + feb + 31 + 30;
    assert DaysBeforeMonth(year, 6) == 31 + feb + 31 + 30 + 31;
    assert DaysBeforeMonth(year, 7) == 31 + feb + 31 + 30 + 31 + 30;
    assert DaysBeforeMonth(year, 8) == 31 + feb + 31 + 30 + 31 + 30 + 31;
    assert DaysBeforeMonth(year, 9) == 31 + feb + 31 + 30 + 31 + 30 + 31 + 31;
    assert DaysBeforeMonth(year, 10) == 31 + feb + 31 + 30 + 31 + 30 + 31 + 31 + 30;
    assert DaysBeforeMonth(year, 11) == 31 + feb + 31 + 30 + 31 + 30 + 31 + 31 + 30 + 31;
    assert DaysBeforeMonth(year, 12) == 31 + feb + 31 + 30 + 31 + 30 + 31 + 31 + 30 + 31 + 30;
  }

  /** The whole year before `year` fills the gap between their first days. */
  lemma DaysBeforeYearStep(year: int)
    requires year >= 2
    ensures DaysBeforeYear(year) == DaysBeforeYear(year - 1) + DaysBeforeMonth(year - 1, 12) + 31
  {
    var y := year - 1;
    DaysBeforeDecember(y);
    var q := y - 1;
    assert y / 4 == q / 4 + (if y % 4 == 0 then 1 else 0);
    assert y / 100 == q / 100 + (if y % 100 == 0 then 1 else 0);
    assert y / 400 == q / 400 + (if y % 400 == 0 then 1 else 0);
  }

  /** Stepping back one day lowers the day number by exactly one. */
  lemma PreviousDayOrdinal(d: Date)
    requires ValidDate(d) && d != Date(MinYear, 1, 1)
    ensures Ordinal(PreviousDay(d)) == Ordinal(d) - 1
  {
    if d.day == 1 && d.month == 1 {
      DaysBeforeYearStep(d.year);
    }
  }

  /** The weekday moves back by one with the day number. */
  lemma PreviousDayWeekday(d: Date)
    requires ValidDate(d) && d != Date(MinYear, 1, 1)
    ensures Weekday(PreviousDay(d)) == (Weekday(d) + 6) % 7
  {
    PreviousDayOrdinal(d);
    var x := Ordinal(d) + 6;
    StepBackMod7(x);
  }

  lemma StepBackMod7(x: int)
    ensures (x - 1) % 7 == (x % 7 + 6) % 7
  {
    var q, r := x / 7, x % 7;
    assert x == 7 * q + r;
    if r == 0 {
      assert x - 1 == 7 * (q - 1) + 6;
    } else {
      assert x - 1 == 7 * q + (r - 1);
    }
  }

  /** The (year, month) after today's; None when that year is past 9999. */
  function FollowingMonth(today: Date): (r: Option<(int, int)>)
    requires ValidDate(today)
    ensures r.None? <==> today.year == MaxYear && today.month == 12
    ensures r.Some? ==> MinYear <= r.value.0 <= MaxYear && 1 <= r.value.1 <= 12
    ensures r.Some? ==> r.value.0 * 12 + r.value.1 == today.year * 12 + today.month + 1
  {
    if today.month == 12 then
      if today.year + 1 > MaxYear then None else Some((today.year + 1, 1))
    else Some((today.year, today.month + 1))
  }

  /** The last Thursday of a month, counted back from its last day. */
  function LastThursday(year: int, month: int): (day: int)
    requires MinYear <= year <= MaxYear && 1 <= month <= 12
  {
    var last := DaysInMonth(year, month);
    last - (Weekday(Date(year, month, last)) + 4) % 7
  }

  /** Days `k` back from a weekday `w`, the weekday is Thursday exactly when `k` is (w + 4) % 7. */
  lemma ThursdayOffset(w: int, k: int)
    requires 0 <= w < 7 && 0 <= k < 7
    ensures (w - k) % 7 == Thursday <==> k == (w + 4) % 7
  {
  }

  /** The weekday of the day `k` days before the last of the month. */
  lemma WeekdayBeforeLast(year: int, month: int, k: int)
    requires MinYear <= year <= MaxYear && 1 <= month <= 12
    requires 0 <= k < DaysInMonth(year, month)
    ensures var last := DaysInMonth(year, month);
      Weekday(Date(year, month, last - k)) == (Weekday(Date(year, month, last)) - k) % 7
  {
    var last := DaysInMonth(year, month);
    var x := Ordinal(Date(year, month, last)) + 6;
    assert Ordinal(Date(year, month, last - k)) + 6 == x - k;
    assert x == 7 * (x / 7) + x % 7;
    assert x - k == 7 * (x / 7) + (x % 7 - k);
  }

  /**
   * The last Thursday is a Thursday of that month, no later day of the month
   * is one, a week later is already the next month, and it lies at most six
   * days before the month's end.
   */
  lemma LastThursdayFacts(year: int, month: int)
    requires MinYear <= year <= MaxYear && 1 <= month <= 12
    ensures var t := LastThursday(year, month);
      && ValidDate(Date(year, month, t))
      && Weekday(Date(year, month, t)) == Thursday
      && t + 7 > DaysInMonth(year, month)
      && DaysInMonth(year, month) - t <= 6
      && forall day :: t < day <= DaysInMonth(year, month) ==> Weekday(Date(year, month, day)) != Thursday
  {
    var last := DaysInMonth(year, month);
    var w := Weekday(Date(year, month, last));
    var k := (w + 4) % 7;
    WeekdayBeforeLast(year, month, k);
    ThursdayOffset(w, k);
    forall day | last - k < day <= last
      ensures Weekday(Date(year, month, day)) != Thursday
    {
      WeekdayBeforeLast(year, month, last - day);
      ThursdayOffset(w, last - day);
    }
  }

  /** The next expiry date: None when the following month is beyond year 9999. */
  function NextExpiryDate(today: Date): (r: Option<Date>)
    requires ValidDate(today)
    ensures r.None? <==> today.year == MaxYear && today.month == 12
  {
    match FollowingMonth(today)
    case None => None
    case Some(ym) => Some(Date(ym.0, ym.1, LastThursday(ym.0, ym.1)))
  }

  /** The next expiry lies in the month after today's and is that month's last Thursday. */
  lemma NextExpiryIsLastThursdayOfNextMonth(today: Date)
    requires ValidDate(today)
    requires NextExpiryDate(today).Some?
    ensures var e := NextExpiryDate(today).value;
      && ValidDate(e)
      && e.year * 12 + e.month == today.year * 12 + today.month + 1
      && (today.month == 12 ==> e.year == today.year + 1 && e.month == 1)
      && (today.month < 12 ==> e.year == today.year && e.month == today.month + 1)
      && Weekday(e) == Thursday
      && e.day + 7 > DaysInMonth(e.year, e.month)
  {
    var ym := FollowingMonth(today).value;
    LastThursdayFacts(ym.0, ym.1);
  }

  // ---------------------------------------------------------------------
  // DD-MM-YYYY
  // ---------------------------------------------------------------------

  predicate IsDigit(c: char)
  {
    '0' <= c <= '9'
  }

  predicate AllDigits(s: string)
  {
    forall i :: 0 <= i < |s| ==> IsDigit(s[i])
  }

  function DigitChar(k: int): (c: char)
    requires 0 <= k < 10
    ensures IsDigit(c)
  {
    ('0' as int + k) as char
  }

  /** `str(n)` for a natural number. */
  function Digits(n: nat): (s: string)
    ensures s != [] && AllDigits(s)
  {
    if n < 10 then [DigitChar(n)] else Digits(n / 10) + [DigitChar(n % 10)]
  }

  /** The number a string of decimal digits denotes. */
  function DecimalValue(s: string): nat
    requires AllDigits(s)
  {
    if s == [] then 0 else DecimalValue(s[..|s| - 1]) * 10 + (s[|s| - 1] as int - '0' as int)
  }

  lemma {:induction false} DigitsRoundTrip(n: nat)
    ensures DecimalValue(Digits(n)) == n
  {
    if n >= 10 {
      DigitsRoundTrip(n / 10);
      var s := Digits(n);
      assert s[..|s| - 1] == Digits(n / 10);
    }
  }

  lemma {:induction false} LeadingZero(s: string)
    requires AllDigits(s)
    ensures AllDigits(['0'] + s) && DecimalValue(['0'] + s) == DecimalValue(s)
    decreases |s|
  {
    if s != [] {
      assert (['0'] + s)[..|s|] == ['0'] + s[..|s| - 1];
      LeadingZero(s[..|s| - 1]);
    }
  }

  /** `s.zfill(2)` for a string of digits. */
  function ZFill2(s: string): (r: string)
    ensures |s| >= 2 ==> r == s
    ensures |s| < 2 ==> |r| == 2 && r[2 - |s|..] == s && forall i :: 0 <= i < 2 - |s| ==> r[i] == '0'
  {
    if |s| >= 2 then s else seq(2 - |s|, _ => '0') + s
  }

  /** A one- or two-digit number padded to two digits reads back as itself. */
  lemma PaddedTwoDigits(n: nat)
    requires n < 100
    ensures var s := ZFill2(Digits(n));
      |s| == 2 && AllDigits(s) && DecimalValue(s) == n
  {
    DigitsRoundTrip(n);
    if n < 10 {
      assert ZFill2(Digits(n)) == ['0'] + Digits(n);
      LeadingZero(Digits(n));
    } else {
      assert Digits(n / 10) == [DigitChar(n / 10)];
    }
  }

  /** `f"{day}-{month}-{year}"` with day and month zero-padded to two digits. */
  function FormatExpiry(d: Date): string
    requires ValidDate(d)
  {
    ZFill2(Digits(d.day)) + "-" + ZFill2(Digits(d.month)) + "-" + Digits(d.year)
  }

  /** Reads `DD-MM-Y...` back: two digits, a dash, two digits, a dash, one or more digits. */
  function ParseExpiry(s: string): (r: Option<Date>)
    ensures r.Some? ==> |s| >= 7 && s[2] == '-' && s[5] == '-'
  {
    if |s| >= 7 && s[2] == '-' && s[5] == '-'
       && AllDigits(s[..2]) && AllDigits(s[3..5]) && AllDigits(s[6..])
    then Some(Date(DecimalValue(s[6..]), DecimalValue(s[3..5]), DecimalValue(s[..2])))
    else None
  }

  lemma ParseJoined(dd: string, mm: string, yy: string)
    requires |dd| == 2 && |mm| == 2 && yy != []
    requires AllDigits(dd) && AllDigits(mm) && AllDigits(yy)
    ensures ParseExpiry(dd + "-" + mm + "-" + yy) == Some(Date(DecimalValue(yy), DecimalValue(mm), DecimalValue(dd)))
  {
    var head := dd + "-" + mm + "-";
    assert |head| == 6 && head[..2] == dd && head[3..5] == mm && head[2] == '-' && head[5] == '-';
    var s := head + yy;
    assert s[..2] == head[..2] && s[3..5] == head[3..5] && s[6..] == yy;
  }

  /** Formatting a date and reading it back gives the same date. */
  lemma FormatParseRoundTrip(d: Date)
    requires ValidDate(d)
    ensures ParseExpiry(FormatExpiry(d)) == Some(d)
  {
    PaddedTwoDigits(d.day);
    PaddedTwoDigits(d.month);
    DigitsRoundTrip(d.year);
    ParseJoined(ZFill2(Digits(d.day)), ZFill2(Digits(d.month)), Digits(d.year));
  }

  /** A four-digit year gives exactly ten characters, DD-MM-YYYY. */
  lemma FormatExpiryShape(d: Date)
    requires ValidDate(d) && d.year >= 1000
    ensures |FormatExpiry(d)| == 10
    ensures FormatExpiry(d)[2] == '-' && FormatExpiry(d)[5] == '-'
  {
    PaddedTwoDigits(d.day);
    PaddedTwoDigits(d.month);
    FourDigits(d.year);
    JoinedShape(ZFill2(Digits(d.day)), ZFill2(Digits(d.month)), Digits(d.year));
  }

  lemma JoinedShape(dd: string, mm: string, yy: string)
    requires |dd| == 2 && |mm| == 2 && |yy| == 4
    ensures |dd + "-" + mm + "-" + yy| == 10
    ensures (dd + "-" + mm + "-" + yy)[2] == '-' && (dd + "-" + mm + "-" + yy)[5] == '-'
  {
  }

  lemma FourDigits(y: nat)
    requires 1000 <= y <= 9999
    ensures |Digits(y)| == 4
  {
    assert Digits(y / 1000) == [DigitChar(y / 1000)];
    assert |Digits(y / 100)| == 2;
    assert |Digits(y / 10)| == 3;
  }

  /** The next expiry as the server reports it. */
  function NextExpiry(today: Date): (r: Option<string>)
    requires ValidDate(today)
    ensures r.None? <==> NextExpiryDate(today).None?
  {
    NextExpiryDateValid(today);
    match NextExpiryDate(today)
    case None => None
    case Some(e) => Some(FormatExpiry(e))
  }

  /** The next expiry date, when there is one, is a real calendar date. */
  lemma NextExpiryDateValid(today: Date)
    requires ValidDate(today)
    ensures NextExpiryDate(today).Some? ==> ValidDate(NextExpiryDate(today).value)
  {
    if NextExpiryDate(today).Some? {
      NextExpiryIsLastThursdayOfNextMonth(today);
    }
  }

  /**
   * Steps back from the last day of next month until a Thursday; the
   * loop's bound shows at most six steps are taken.
   */
  method GetNextExpiry(today: Date) returns (r: Option<string>)
    requires ValidDate(today)
    ensures r == NextExpiry(today)
  {
    var year, month;
    if today.month == 12 {
      if today.year + 1 > MaxYear {
        return None;
      }
      year, month := today.year + 1, 1;
    } else {
      year, month := today.year, today.month + 1;
    }
    var lastDay := Date(year, month, DaysInMonth(year, month));
    var lastThursday := lastDay;
    ghost var w := Weekday(lastDay);
    ghost var steps := 0;
    while Weekday(lastThursday) != Thursday
      invariant ValidDate(lastThursday)
      invariant lastThursday == Date(year, month, lastDay.day - steps)
      invariant steps <= (w + 4) % 7
      invariant Weekday(lastThursday) == (w - steps) % 7
      decreases lastDay.day - steps
    {
      ThursdayOffset(w, steps);
      lastThursday := PreviousDay(lastThursday);
      steps := steps + 1;
      WeekdayBeforeLast(year, month, steps);
    }
    ThursdayOffset(w, steps);
    assert lastThursday == Date(year, month, LastThursday(year, month));
    NextExpiryIn(today, year, month);
    r := Some(FormatExpiry(lastThursday));
  }

  /**
   * Unfolds `NextExpiry` for a given following month: a step of the proof of
   * `GetNextExpiry`, not a property of its own.
   */
  lemma NextExpiryIn(today: Date, year: int, month: int)
    requires ValidDate(today)
    requires today.month == 12 ==> year == today.year + 1 && month == 1 && year <= MaxYear
    requires today.month < 12 ==> year == today.year && month == today.month + 1
    ensures MinYear <= year <= MaxYear && 1 <= month <= 12
    ensures ValidDate(Date(year, month, LastThursday(year, month)))
    ensures NextExpiry(today) == Some(FormatExpiry(Date(year, month, LastThursday(year, month))))
  {
    LastThursdayFacts(year, month);
  }

  lemma Digits2024()
    ensures Digits(2024) == "2024"
  {
    assert Digits(20) == "20";
    assert Digits(202) == "202";
  }

  /** From mid-December 2023 the expiry is Thursday 25 January 2024. */
  lemma NextExpiryAcrossYearEnd()
    ensures NextExpiry(Date(2023, 12, 15)) == Some("25-01-2024")
  {
    assert DaysBeforeYear(2024) == 738885;
    assert Weekday(Date(2024, 1, 31)) == 2;
    assert LastThursday(2024, 1) == 25;
    assert NextExpiryDate(Date(2023, 12, 15)) == Some(Date(2024, 1, 25));
    Digits2024();
    assert ZFill2(Digits(1)) == "01";
    assert FormatExpiry(Date(2024, 1, 25)) == "25-01-2024";
  }

  /** From January 2024 the expiry is Thursday 29 February, the leap day. */
  lemma NextExpiryOnLeapDay()
    ensures NextExpiry(Date(2024, 1, 10)) == Some("29-02-2024")
  {
    assert DaysBeforeYear(2024) == 738885;
    assert DaysBeforeMonth(2024, 2) == 31;
    assert Weekday(Date(2024, 2, 29)) == 3;
    assert LastThursday(2024, 2) == 29;
    assert NextExpiryDate(Date(2024, 1, 10)) == Some(Date(2024, 2, 29));
    Digits2024();
    assert ZFill2(Digits(2)) == "02";
    assert FormatExpiry(Date(2024, 2, 29)) == "29-02-2024";
  }
}
