/**
 * The Gregorian calendar and its dates as texts of the form YYYY-MM-DD, for years of four digits: days one after the
 * other, their numbers, the order of dates, and that the texts are read back and compare as the dates do.
 */
module Calendar {
  import opened Decimals
  import opened Texts

  datatype Date = Date(year: nat, month: nat, day: nat)

  predicate IsLeap(year: nat) {
    year % 4 == 0 && (year % 100 != 0 || year % 400 == 0)
  }

  function DaysInMonth(year: nat, month: nat): nat {
    if month == 2 then (if IsLeap(year) then 29 else 28) else if month in {4, 6, 9, 11} then 30 else 31
  }

  /** A date whose year has four digits. */
  predicate Valid(d: Date) {
    1000 <= d.year <= 9999 && 1 <= d.month <= 12 && 1 <= d.day <= DaysInMonth(d.year, d.month)
  }

  function NextDay(d: Date): Date {
    if d.day < DaysInMonth(d.year, d.month) then d.(day := d.day + 1)
    else if d.month < 12 then Date(d.year, d.month + 1, 1)
    else Date(d.year + 1, 1, 1)
  }

  /** `d + timedelta(days=n)`. */
  function AddDays(d: Date, n: nat): Date {
    if n == 0 then d else NextDay(AddDays(d, n - 1))
  }

  predicate Before(a: Date, b: Date) {
    || a.year < b.year
    || (a.year == b.year && (a.month < b.month || (a.month == b.month && a.day < b.day)))
  }

  // ----- Day numbers

  /** Days before the first of January of the year. */
  function YearStart(year: nat): nat {
    if year == 0 then 0 else YearStart(year - 1) + if IsLeap(year - 1) then 366 else 365
  }

  /** Days of the year before the first of the month. */
  function MonthStart(year: nat, month: nat): nat {
    if month <= 1 then 0 else MonthStart(year, month - 1) + DaysInMonth(year, month - 1)
  }

  /** The number of the day, so that `(b - a).days` is the difference of two of them. */
  function Ordinal(d: Date): nat {
    YearStart(d.year) + MonthStart(d.year, d.month) + d.day
  }

  lemma EveryFourth(n: nat)
    ensures (n + 4) / 4 == (n + 3) / 4 + if n % 4 == 0 then 1 else 0
  {
  }

  lemma EveryHundredth(n: nat)
    ensures (n + 100) / 100 == (n + 99) / 100 + if n % 100 == 0 then 1 else 0
    ensures n % 100 == 0 ==> n % 4 == 0
  {
    assert n % 100 == 0 ==> n == 4 * (25 * (n / 100));
  }

  lemma EveryFourHundredth(n: nat)
    ensures (n + 400) / 400 == (n + 399) / 400 + if n % 400 == 0 then 1 else 0
    ensures n % 400 == 0 ==> n % 100 == 0
  {
    assert n % 400 == 0 ==> n == 100 * (4 * (n / 400));
  }

  /** The leap years are those of the Gregorian calendar. */
  lemma {:induction false} YearStartIsGregorian(year: nat)
    ensures YearStart(year) == 365 * year + (year + 3) / 4 - (year + 99) / 100 + (year + 399) / 400
  {
    if year > 0 {
      YearStartIsGregorian(year - 1);
      EveryFourth(year - 1);
      EveryHundredth(year - 1);
      EveryFourHundredth(year - 1);
    }
  }

  lemma YearLength(year: nat)
    ensures MonthStart(year, 12) + 31 == if IsLeap(year) then 366 else 365
  {
    var february := DaysInMonth(year, 2);
    assert MonthStart(year, 2) == 31 && MonthStart(year, 4) == february + 62;
    assert MonthStart(year, 6) == february + 123 && MonthStart(year, 8) == february + 184;
    assert MonthStart(year, 10) == february + 245;
  }

  lemma NextDayStep(d: Date)
    requires 1 <= d.month <= 12 && 1 <= d.day <= DaysInMonth(d.year, d.month)
    ensures Ordinal(NextDay(d)) == Ordinal(d) + 1
    ensures 1 <= NextDay(d).month <= 12 && 1 <= NextDay(d).day <= DaysInMonth(NextDay(d).year, NextDay(d).month)
    ensures d.year <= NextDay(d).year
  {
    YearLength(d.year);
  }

  lemma {:induction false} YearsInOrder(a: nat, b: nat)
    requires a < b
    ensures YearStart(a) + (if IsLeap(a) then 366 else 365) <= YearStart(b)
  {
    if a + 1 < b {
      YearsInOrder(a, b - 1);
    }
  }

  lemma {:induction false} MonthsInOrder(year: nat, a: nat, b: nat)
    requires 1 <= a < b
    ensures MonthStart(year, a) + DaysInMonth(year, a) <= MonthStart(year, b)
  {
    if a + 1 < b {
      MonthsInOrder(year, a, b - 1);
    }
  }

  lemma WithinYear(d: Date)
    requires Valid(d)
    ensures 1 <= MonthStart(d.year, d.month) + d.day <= if IsLeap(d.year) then 366 else 365
  {
    YearLength(d.year);
    if d.month < 12 {
      MonthsInOrder(d.year, d.month, 12);
    }
  }

  lemma BeforeMeansFewerDays(a: Date, b: Date)
    requires Valid(a) && Valid(b) && Before(a, b)
    ensures Ordinal(a) < Ordinal(b)
  {
    if a.year < b.year {
      YearsInOrder(a.year, b.year);
      WithinYear(a);
      WithinYear(b);
    } else if a.month < b.month {
      MonthsInOrder(a.year, a.month, b.month);
    }
  }

  /** Calendar order is the order of day numbers. */
  lemma OrdinalOrder(a: Date, b: Date)
    requires Valid(a) && Valid(b)
    ensures Before(a, b) <==> Ordinal(a) < Ordinal(b)
    ensures a == b <==> Ordinal(a) == Ordinal(b)
  {
    if Before(a, b) {
      BeforeMeansFewerDays(a, b);
    } else if Before(b, a) {
      BeforeMeansFewerDays(b, a);
    }
  }

  lemma {:induction false} AddDaysCounts(d: Date, n: nat)
    requires 1 <= d.month <= 12 && 1 <= d.day <= DaysInMonth(d.year, d.month)
    ensures var e := AddDays(d, n);
      Ordinal(e) == Ordinal(d) + n && d.year <= e.year && 1 <= e.month <= 12
      && 1 <= e.day <= DaysInMonth(e.year, e.month)
  {
    if n > 0 {
      AddDaysCounts(d, n - 1);
      NextDayStep(AddDays(d, n - 1));
    }
  }

  /** Counting days from one valid date up to another stays among valid dates, and arrives there. */
  lemma AddDaysBetween(a: Date, b: Date, n: nat)
    requires Valid(a) && Valid(b) && Ordinal(a) + n <= Ordinal(b)
    ensures Valid(AddDays(a, n)) && Ordinal(AddDays(a, n)) == Ordinal(a) + n
  {
    AddDaysCounts(a, n);
    var e := AddDays(a, n);
    if e.year > b.year {
      YearsInOrder(b.year, e.year);
      WithinYear(b);
    }
  }

  // ----- Texts

  /** `strftime("%Y-%m-%d")`; the year is not padded. */
  function Format(d: Date): string {
    Dec(d.year) + "-" + Padded(d.month, 2) + "-" + Padded(d.day, 2)
  }

  /** `strptime(text, "%Y-%m-%d")` on texts with two-digit months and days; None where it raises. */
  function ParseDate(text: string): Option<Date> {
    var parts := Split(text, '-');
    if |parts| != 3 || |parts[0]| != 4 || |parts[1]| != 2 || |parts[2]| != 2 then None
    else
      match (ParseInt(parts[0]), ParseInt(parts[1]), ParseInt(parts[2]))
      case (Some(y), Some(m), Some(d)) =>
        if 1 <= m <= 12 && 1 <= d <= DaysInMonth(y, m) && y >= 1 then Some(Date(y, m, d)) else None
      case _ => None
  }

  lemma TwoDigits(n: nat)
    requires n < 100
    ensures |Padded(n, 2)| == 2 && ParseInt(Padded(n, 2)) == Some(n)
  {
    assert Power10(2) == 100;
    PaddedField(n, 2);
  }

  lemma FourDigits(n: nat)
    requires 1000 <= n <= 9999
    ensures |Dec(n)| == 4 && ParseInt(Dec(n)) == Some(n)
  {
    assert Power10(3) == 1000 && Power10(4) == 10000;
    DecWidth(n, 3);
    DecWidth(n, 4);
    NumberOfDec(n);
  }

  lemma SplitThree(a: string, b: string, c: string)
    requires '-' !in a && '-' !in b && '-' !in c
    ensures Split(a + "-" + b + "-" + c, '-') == [a, b, c]
  {
    SplitPlain(a, '-');
    SplitAdds(a, b, '-');
    SplitAdds(a + "-" + b, c, '-');
  }

  lemma ParseInvertsFormat(d: Date)
    requires Valid(d)
    ensures ParseDate(Format(d)) == Some(d)
  {
    FourDigits(d.year);
    TwoDigits(d.month);
    TwoDigits(d.day);
    SplitThree(Dec(d.year), Padded(d.month, 2), Padded(d.day, 2));
  }

  lemma LtNumbers(a: string, b: string)
    requires |a| == |b| && ParseInt(a).Some? && ParseInt(b).Some?
    ensures Lt(a, b) <==> ParseInt(a).value < ParseInt(b).value
    ensures a == b <==> ParseInt(a).value == ParseInt(b).value
  {
    LtNumerals(a, b);
  }

  /** Comparing the texts compares the dates. */
  lemma TextOrder(a: Date, b: Date)
    requires Valid(a) && Valid(b)
    ensures Lt(Format(a), Format(b)) <==> Before(a, b)
  {
    FourDigits(a.year);
    FourDigits(b.year);
    TwoDigits(a.month);
    TwoDigits(b.month);
    TwoDigits(a.day);
    TwoDigits(b.day);
    LtNumbers(Dec(a.year), Dec(b.year));
    LtNumbers(Padded(a.month, 2), Padded(b.month, 2));
    LtNumbers(Padded(a.day, 2), Padded(b.day, 2));
    TextFields(a, b);
  }

  lemma TextFields(a: Date, b: Date)
    requires |Dec(a.year)| == |Dec(b.year)| && |Padded(a.month, 2)| == |Padded(b.month, 2)|
    ensures Lt(Format(a), Format(b)) <==>
      || Lt(Dec(a.year), Dec(b.year))
      || (Dec(a.year) == Dec(b.year)
          && (Lt(Padded(a.month, 2), Padded(b.month, 2))
              || (Padded(a.month, 2) == Padded(b.month, 2) && Lt(Padded(a.day, 2), Padded(b.day, 2)))))
  {
    var x, y := Padded(a.month, 2) + "-" + Padded(a.day, 2), Padded(b.month, 2) + "-" + Padded(b.day, 2);
    LtSeparated("-", Padded(a.month, 2), Padded(b.month, 2), Padded(a.day, 2), Padded(b.day, 2));
    LtSeparated("-", Dec(a.year), Dec(b.year), x, y);
    assert Format(a) == Dec(a.year) + "-" + x && Format(b) == Dec(b.year) + "-" + y;
  }
}
