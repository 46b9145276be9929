/**
 * Proleptic Gregorian calendar arithmetic as section 21.4.1 of ECMA-262 defines
 * it for Date objects, and the `yyyy-MM-dd` text of a local date.
 */
module Calendar {
  import opened Common

  datatype Civil = Civil(year: int, month: int, day: int)

  predicate IsLeap(y: int) { y % 4 == 0 && (y % 100 != 0 || y % 400 == 0) }

  function DaysInYear(y: int): int { if IsLeap(y) then 366 else 365 }

  /** Day number of 1 January; day 0 is 1 January 1970. */
  function DayFromYear(y: int): int {
    365 * (y - 1970) + (y - 1969) / 4 - (y - 1901) / 100 + (y - 1601) / 400
  }

  /** Days of the year before month `m` (1..12); month 13 gives the length of the year. */
  function MonthStart(leap: bool, m: int): int
    requires 1 <= m <= 13
  {
    var table := [0, 31, 59, 90, 120, 151, 181, 212, 243, 273, 304, 334, 365];
    table[m - 1] + if leap && m > 2 then 1 else 0
  }

  predicate Valid(c: Civil) {
    && 1 <= c.month <= 12
    && 1 <= c.day <= MonthStart(IsLeap(c.year), c.month + 1) - MonthStart(IsLeap(c.year), c.month)
  }

  /** MakeDay: the day may overflow its month in either direction. */
  function MakeDay(year: int, month: int, day: int): int
    requires 1 <= month <= 12
  {
    DayFromYear(year) + MonthStart(IsLeap(year), month) + day - 1
  }

  function DayNumber(c: Civil): int
    requires Valid(c)
  {
    MakeDay(c.year, c.month, c.day)
  }

  lemma YearLength(y: int)
    ensures DayFromYear(y + 1) == DayFromYear(y) + DaysInYear(y)
  {
    NextQuotient(y - 1969, 4, y, 492);
    NextQuotient(y - 1901, 100, y, 19);
    NextQuotient(y - 1601, 400, y, 4);
    Multiples(y);
  }

  lemma Multiples(y: int)
    ensures y % 400 == 0 ==> y % 100 == 0
    ensures y % 100 == 0 ==> y % 4 == 0
  {
    if y % 400 == 0 { QuotientIs(y, 100, 4 * (y / 400), 0); }
    if y % 100 == 0 { QuotientIs(y, 4, 25 * (y / 100), 0); }
  }

  /** The quotient grows by one exactly at the multiples. */
  lemma NextQuotient(n: int, k: int, y: int, m: int)
    requires k > 0 && n + 1 == y - k * m
    ensures (n + 1) / k == n / k + if y % k == 0 then 1 else 0
  {
    var q, r := n / k, n % k;
    assert n == k * q + r;
    if r + 1 < k {
      QuotientIs(n + 1, k, q, r + 1);
      QuotientIs(y, k, q + m, r + 1);
    } else {
      QuotientIs(n + 1, k, q + 1, 0);
      QuotientIs(y, k, q + 1 + m, 0);
    }
  }

  lemma QuotientIs(n: int, k: int, q: int, r: int)
    requires k > 0 && n == k * q + r && 0 <= r < k
    ensures n / k == q && n % k == r
  {
    var d := n / k - q;
    assert k * d == r - n % k;
    SmallMultiple(k, d);
  }

  lemma SmallMultiple(k: int, d: int)
    requires k > 0 && -k < k * d < k
    ensures d == 0
  {
  }

  /** The year that holds day `n`, walking up from a year that starts no later. */
  function YearFrom(y: int, n: int): (r: int)
    requires DayFromYear(y) <= n
    ensures DayFromYear(r) <= n < DayFromYear(r + 1)
    decreases n - DayFromYear(y)
  {
    YearLength(y);
    if n < DayFromYear(y + 1) then y else YearFrom(y + 1, n)
  }

  function YearOf(n: int): (r: int)
    ensures DayFromYear(r) <= n < DayFromYear(r + 1)
  {
    EarlyYear(n);
    YearFrom(if n >= 0 then 1970 else 1970 + n / 365, n)
  }

  lemma EarlyYear(n: int)
    ensures DayFromYear(1970) == 0
    ensures n < 0 ==> DayFromYear(1970 + n / 365) <= n
  {
    if n < 0 {
      var q := n / 365;
      assert q <= -1 && 365 * q <= n;
      LeapDaysBefore(q);
    }
  }

  /** Before 1970 the leap-day terms never add up to more than zero. */
  lemma LeapDaysBefore(q: int)
    requires q <= -1
    ensures DayFromYear(1970 + q) <= 365 * q
  {
    var a, b, c := (q + 1) / 4, (q + 69) / 100, (q + 369) / 400;
    assert DayFromYear(1970 + q) == 365 * q + a - b + c;
    assert 4 * a <= q + 1 && 100 * b >= q + 69 - 99 && 400 * c <= q + 369;
  }

  lemma {:induction false} YearsAscend(x: int, y: int)
    requires x <= y
    ensures DayFromYear(x) + 365 * (y - x) <= DayFromYear(y)
    decreases y - x
  {
    if x < y {
      YearsAscend(x, y - 1);
      YearLength(y - 1);
    }
  }

  lemma YearIsUnique(x: int, y: int, n: int)
    requires DayFromYear(x) <= n < DayFromYear(x + 1)
    requires DayFromYear(y) <= n < DayFromYear(y + 1)
    ensures x == y
  {
    if x < y { YearsAscend(x + 1, y); }
    if y < x { YearsAscend(y + 1, x); }
  }

  function MonthOf(leap: bool, dayOfYear: int): (m: int)
    requires 0 <= dayOfYear < if leap then 366 else 365
    ensures 1 <= m <= 12
    ensures MonthStart(leap, m) <= dayOfYear < MonthStart(leap, m + 1)
  {
    if dayOfYear < MonthStart(leap, 2) then 1
    else if dayOfYear < MonthStart(leap, 3) then 2
    else if dayOfYear < MonthStart(leap, 4) then 3
    else if dayOfYear < MonthStart(leap, 5) then 4
    else if dayOfYear < MonthStart(leap, 6) then 5
    else if dayOfYear < MonthStart(leap, 7) then 6
    else if dayOfYear < MonthStart(leap, 8) then 7
    else if dayOfYear < MonthStart(leap, 9) then 8
    else if dayOfYear < MonthStart(leap, 10) then 9
    else if dayOfYear < MonthStart(leap, 11) then 10
    else if dayOfYear < MonthStart(leap, 12) then 11
    else 12
  }

  lemma MonthsAscend(leap: bool, m: int, n: int)
    requires 1 <= m <= n <= 13
    ensures MonthStart(leap, m) <= MonthStart(leap, n)
    ensures m < n ==> MonthStart(leap, m + 1) <= MonthStart(leap, n)
  {
  }

  lemma MonthIsUnique(leap: bool, m: int, n: int, d: int)
    requires 1 <= m <= 12 && 1 <= n <= 12
    requires MonthStart(leap, m) <= d < MonthStart(leap, m + 1)
    requires MonthStart(leap, n) <= d < MonthStart(leap, n + 1)
    ensures m == n
  {
    if m < n { MonthsAscend(leap, m, n); }
    if n < m { MonthsAscend(leap, n, m); }
  }

  /** The calendar date of a day number. */
  function CivilOf(n: int): (c: Civil)
    ensures Valid(c) && DayNumber(c) == n
  {
    var y := YearOf(n);
    YearLength(y);
    var d := n - DayFromYear(y);
    var m := MonthOf(IsLeap(y), d);
    Civil(y, m, d - MonthStart(IsLeap(y), m) + 1)
  }

  lemma FirstAndLastMonth(leap: bool)
    ensures MonthStart(leap, 1) == 0 && MonthStart(leap, 13) == if leap then 366 else 365
  {
  }

  /** Dates and day numbers correspond one to one, leap days and month ends included. */
  lemma CivilRoundTrip(c: Civil)
    requires Valid(c)
    ensures CivilOf(DayNumber(c)) == c
  {
    hide MonthStart, DayFromYear, IsLeap;
    var n := DayNumber(c);
    var leap := IsLeap(c.year);
    FirstAndLastMonth(leap);
    YearLength(c.year);
    MonthsAscend(leap, 1, c.month);
    MonthsAscend(leap, c.month + 1, 13);
    YearIsUnique(c.year, YearOf(n), n);
    MonthIsUnique(leap, c.month, CivilOf(n).month, n - DayFromYear(c.year));
  }

  // ---------------------------------------------------------------------
  // The calendar as everybody knows it
  // ---------------------------------------------------------------------

  /** Thirty days hath September ... */
  function DaysIn(year: int, month: int): int {
    if month == 4 || month == 6 || month == 9 || month == 11 then 30
    else if month != 2 then 31
    else if year % 4 == 0 && (year % 100 != 0 || year % 400 == 0) then 29
    else 28
  }

  /** The date after a date. */
  function NextDate(c: Civil): Civil {
    if c.day < DaysIn(c.year, c.month) then c.(day := c.day + 1)
    else if c.month < 12 then Civil(c.year, c.month + 1, 1)
    else Civil(c.year + 1, 1, 1)
  }

  lemma MonthTable(leap: bool, month: int)
    requires 1 <= month <= 12
    ensures MonthStart(leap, month + 1) - MonthStart(leap, month) ==
            if month == 4 || month == 6 || month == 9 || month == 11 then 30
            else if month != 2 then 31 else if leap then 29 else 28
  {
  }

  lemma MonthLength(year: int, month: int)
    requires 1 <= month <= 12
    ensures MonthStart(IsLeap(year), month + 1) - MonthStart(IsLeap(year), month) == DaysIn(year, month)
  {
    hide MonthStart;
    MonthTable(IsLeap(year), month);
  }

  /** The valid dates are the days of the twelve months. */
  lemma ValidExactly(c: Civil)
    ensures Valid(c) <==> 1 <= c.month <= 12 && 1 <= c.day <= DaysIn(c.year, c.month)
  {
    hide MonthStart, IsLeap, DaysIn;
    if 1 <= c.month <= 12 { MonthLength(c.year, c.month); }
  }

  lemma NextDayNumber(c: Civil)
    requires Valid(c)
    ensures Valid(NextDate(c)) && DayNumber(NextDate(c)) == DayNumber(c) + 1
  {
    ValidExactly(c);
    ValidExactly(NextDate(c));
    MonthLength(c.year, c.month);
    YearLength(c.year);
    FirstAndLastMonth(IsLeap(c.year));
    FirstAndLastMonth(IsLeap(c.year + 1));
    hide MonthStart, DayFromYear;
  }

  lemma Epoch()
    ensures Valid(Civil(1970, 1, 1)) && DayNumber(Civil(1970, 1, 1)) == 0
  {
  }

  /** Day 0 is 1 January 1970, and one day later is the next date: that fixes the date of every day. */
  lemma DaysFollowTheCalendar(n: int)
    ensures CivilOf(0) == Civil(1970, 1, 1) && CivilOf(n + 1) == NextDate(CivilOf(n))
  {
    hide NextDate, DayNumber, Valid, CivilOf;
    Epoch();
    CivilRoundTrip(Civil(1970, 1, 1));
    NextDayNumber(CivilOf(n));
    CivilRoundTrip(NextDate(CivilOf(n)));
  }

  // ---------------------------------------------------------------------
  // Text
  // ---------------------------------------------------------------------

  /** `String(n).padStart(2, '0')`. */
  function Pad2(n: int): (s: string)
    requires 0 <= n < 100
    ensures |s| == 2 && AllDigits(s)
  {
    if n < 10 then [DigitChar(0), DigitChar(n)] else [DigitChar(n / 10), DigitChar(n % 10)]
  }

  function TwoDigits(s: string): int
    requires |s| == 2 && AllDigits(s)
  {
    DigitValue(s[0]) * 10 + DigitValue(s[1])
  }

  lemma Pad2RoundTrip(n: int)
    requires 0 <= n < 100
    ensures TwoDigits(Pad2(n)) == n
  {
  }

  /** `yyyy-MM-dd`; the year is printed as it is, without padding. */
  function FormatDate(c: Civil): string
    requires Valid(c)
  {
    IntText(c.year) + (['-'] + Pad2(c.month) + ['-'] + Pad2(c.day))
  }

  function Four(y: int): string
    requires 1000 <= y <= 9999
  {
    [DigitChar(y / 1000), DigitChar(y / 100 % 10), DigitChar(y / 10 % 10), DigitChar(y % 10)]
  }

  /** The date part of the ISO format: four digits, month, day, all in range. */
  function ParseDate(s: string): (r: Option<Civil>)
    ensures r.Some? ==> Valid(r.value) && 0 <= r.value.year <= 9999
  {
    if |s| == 10 && s[4] == '-' && s[7] == '-' && AllDigits(s[..4]) && AllDigits(s[5..7]) && AllDigits(s[8..]) then
      var c := Civil(TwoDigits(s[..2]) * 100 + TwoDigits(s[2..4]), TwoDigits(s[5..7]), TwoDigits(s[8..]));
      if Valid(c) then Some(c) else None
    else None
  }

  lemma YearText(y: int)
    ensures 1000 <= y <= 9999 ==> IntText(y) == Four(y)
    ensures IntText(y) != "" && (!(1000 <= y <= 9999) ==> |IntText(y)| != 4 || !IsDigit(IntText(y)[0]))
  {
    if 0 <= y {
      NatTextLength(y);
      if 1000 <= y <= 9999 {
        assert NatText(y / 1000) == [DigitChar(y / 1000)];
        assert NatText(y / 100) == NatText(y / 1000) + [DigitChar(y / 100 % 10)];
        assert NatText(y / 10) == NatText(y / 100) + [DigitChar(y / 10 % 10)];
        assert NatText(y) == NatText(y / 10) + [DigitChar(y % 10)];
      }
    }
  }

  lemma {:induction false} NatTextLength(n: nat)
    ensures n < 10 ==> |NatText(n)| == 1
    ensures 10 <= n < 100 ==> |NatText(n)| == 2
    ensures 100 <= n < 1000 ==> |NatText(n)| == 3
    ensures 1000 <= n < 10000 ==> |NatText(n)| == 4
    ensures 10000 <= n ==> |NatText(n)| >= 5
  {
    if n >= 10 { NatTextLength(n / 10); }
  }

  /** Where the parts of a date text sit. */
  lemma DateParts(y: string, m: string, d: string)
    requires |m| == 2 && |d| == 2
    ensures var s := y + (['-'] + m + ['-'] + d);
            var n := |y|;
            && |s| == n + 6 && s[..n] == y && s[n] == '-' && s[n + 3] == '-'
            && s[n + 1..n + 3] == m && s[n + 4..] == d
  {
  }

  /** A formatted date can be read back exactly when its year has four digits. */
  lemma DateTextRoundTrip(c: Civil)
    requires Valid(c)
    ensures ParseDate(FormatDate(c)) == Some(c) <==> 1000 <= c.year <= 9999
    ensures !(1000 <= c.year <= 9999) ==> ParseDate(FormatDate(c)).None?
  {
    hide IntText, NatText, Pad2, Valid, ParseDate, Four, TwoDigits;
    YearText(c.year);
    ValidRange(c);
    Pad2RoundTrip(c.month);
    Pad2RoundTrip(c.day);
    if 1000 <= c.year <= 9999 {
      FourReads(c.year);
      ParseParts(IntText(c.year), Pad2(c.month), Pad2(c.day));
    } else {
      NoParse(IntText(c.year), Pad2(c.month), Pad2(c.day));
    }
  }

  lemma FourReads(y: int)
    requires 1000 <= y <= 9999
    ensures |Four(y)| == 4 && AllDigits(Four(y))
    ensures TwoDigits(Four(y)[..2]) * 100 + TwoDigits(Four(y)[2..]) == y
  {
    hide DigitChar, DigitValue;
    var f := Four(y);
    assert f[..2][0] == DigitChar(y / 1000) && f[..2][1] == DigitChar(y / 100 % 10);
    assert f[2..][0] == DigitChar(y / 10 % 10) && f[2..][1] == DigitChar(y % 10);
    FourDigits(y);
  }

  lemma FourDigits(y: int)
    ensures (y / 1000 * 10 + y / 100 % 10) * 100 + (y / 10 % 10 * 10 + y % 10) == y
  {
    assert y / 100 == (y / 10) / 10 && y / 1000 == (y / 100) / 10;
  }

  /** Reading a text with four, two and two digits. */
  lemma ParseParts(y: string, m: string, d: string)
    requires |y| == 4 && |m| == 2 && |d| == 2 && AllDigits(y) && AllDigits(m) && AllDigits(d)
    ensures var c := Civil(TwoDigits(y[..2]) * 100 + TwoDigits(y[2..]), TwoDigits(m), TwoDigits(d));
            ParseDate(y + (['-'] + m + ['-'] + d)) == if Valid(c) then Some(c) else None
  {
    hide TwoDigits, Valid;
    DateParts(y, m, d);
    var s := y + (['-'] + m + ['-'] + d);
    assert s[..2] == s[..4][..2] && s[2..4] == s[..4][2..];
  }

  lemma NoParse(y: string, m: string, d: string)
    requires |m| == 2 && |d| == 2 && y != "" && (|y| != 4 || !IsDigit(y[0]))
    ensures ParseDate(y + (['-'] + m + ['-'] + d)).None?
  {
    hide TwoDigits, Valid;
    DateParts(y, m, d);
    var s := y + (['-'] + m + ['-'] + d);
    if |y| == 4 { assert s[..4][0] == y[0]; }
  }

  lemma ValidRange(c: Civil)
    requires Valid(c)
    ensures 1 <= c.month <= 12 && 1 <= c.day <= 31
  {
  }

  /** Where a printed date of a four-digit year shows its year, its month and its day. */
  lemma DateTextReads(c: Civil)
    requires Valid(c) && 1000 <= c.year <= 9999
    ensures var s := FormatDate(c);
            && |s| == 10 && s[4] == '-' && s[7] == '-' && AllDigits(s[..4]) && AllDigits(s[5..7]) && AllDigits(s[8..])
            && TextNat(s[..4]) == c.year && TextNat(s[5..7]) == c.month && TextNat(s[8..]) == c.day
  {
    hide IntText, NatText, Pad2, Valid, TextNat, MonthStart;
    YearText(c.year);
    ValidRange(c);
    DateParts(IntText(c.year), Pad2(c.month), Pad2(c.day));
    YearReads(c.year);
    Pad2Reads(c.month);
    Pad2Reads(c.day);
  }

  lemma TwoDigitsReads(s: string)
    requires |s| == 2 && AllDigits(s)
    ensures TextNat(s) == TwoDigits(s)
  {
    assert s[..1] == [s[0]] && s[..1][..0] == [];
    assert TextNat(s[..1]) == DigitValue(s[0]);
  }

  lemma FourDigitsRead(s: string)
    requires |s| == 4 && AllDigits(s)
    ensures TextNat(s) == TwoDigits(s[..2]) * 100 + TwoDigits(s[2..])
  {
    TwoDigitsReads(s[..2]);
    assert s[..3][..2] == s[..2] && s[..3][2] == s[2];
    hide DigitValue;
    assert TextNat(s[..3]) == TextNat(s[..2]) * 10 + DigitValue(s[2]);
    assert TextNat(s) == TextNat(s[..3]) * 10 + DigitValue(s[3]);
  }

  /** What is read as a date, and as which one. */
  lemma ParseExactly(s: string, c: Civil)
    ensures ParseDate(s) == Some(c) <==>
            && |s| == 10 && s[4] == '-' && s[7] == '-' && AllDigits(s[..4]) && AllDigits(s[5..7]) && AllDigits(s[8..])
            && c == Civil(TextNat(s[..4]), TextNat(s[5..7]), TextNat(s[8..])) && Valid(c)
  {
    hide Valid, TwoDigits, TextNat;
    if |s| == 10 && AllDigits(s[..4]) && AllDigits(s[5..7]) && AllDigits(s[8..]) {
      FourDigitsRead(s[..4]);
      TwoDigitsReads(s[5..7]);
      TwoDigitsReads(s[8..]);
      assert s[..4][..2] == s[..2] && s[..4][2..] == s[2..4];
    }
  }

  lemma YearReads(y: int)
    requires 1000 <= y <= 9999
    ensures AllDigits(IntText(y)) && TextNat(IntText(y)) == y
  {
    NatTextRoundTrip(y);
  }

  lemma Pad2Reads(n: int)
    requires 0 <= n < 100
    ensures TextNat(Pad2(n)) == n
  {
    var s := Pad2(n);
    assert s[..1] == [s[0]] && s[..1][..0] == [];
    assert TextNat(s[..1]) == DigitValue(s[0]);
  }

  lemma DateTextInjective(c: Civil, d: Civil)
    requires Valid(c) && Valid(d) && FormatDate(c) == FormatDate(d)
    ensures c == d
  {
    hide IntText, NatText, Pad2, Valid, MonthStart;
    ValidRange(c);
    ValidRange(d);
    DateParts(IntText(c.year), Pad2(c.month), Pad2(c.day));
    DateParts(IntText(d.year), Pad2(d.month), Pad2(d.day));
    IntTextInjective(c.year, d.year);
    Pad2RoundTrip(c.month);
    Pad2RoundTrip(d.month);
    Pad2RoundTrip(c.day);
    Pad2RoundTrip(d.day);
  }
}
