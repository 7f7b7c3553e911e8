/**
 * The week label of a date (section 3.2.2 of ISO 8601:2004), and where Date.UTC's reading of two-digit years spoils it.
 */
module IsoWeek {
  // ----- The Gregorian calendar, on day numbers counted from 1 January of year 0 -----

  predicate Leap(y: int) {
    y % 4 == 0 && (y % 100 != 0 || y % 400 == 0)
  }

  function YearLength(y: int): int {
    if Leap(y) then 366 else 365
  }

  /** The day number of 1 January of year y. */
  function YearStart(y: int): int {
    365 * y + (y + 3) / 4 - (y + 99) / 100 + (y + 399) / 400
  }

  lemma FoursStep(y: int)
    ensures (y + 4) / 4 == (y + 3) / 4 + if y % 4 == 0 then 1 else 0
  {
  }

  lemma CenturiesStep(y: int)
    ensures (y + 100) / 100 == (y + 99) / 100 + if y % 100 == 0 then 1 else 0
    ensures y % 100 == 0 ==> y % 4 == 0
  {
    if y % 100 == 0 {
      assert y == 4 * (25 * (y / 100));
    }
  }

  lemma FourHundredsStep(y: int)
    ensures (y + 400) / 400 == (y + 399) / 400 + if y % 400 == 0 then 1 else 0
    ensures y % 400 == 0 ==> y % 100 == 0
  {
    if y % 400 == 0 {
      assert y == 100 * (4 * (y / 400));
    }
  }

  lemma YearStartStep(y: int)
    ensures YearStart(y + 1) == YearStart(y) + YearLength(y)
  {
    FoursStep(y);
    CenturiesStep(y);
    FourHundredsStep(y);
  }

  lemma YearStartGrows(y: int, z: int)
    requires y < z
    ensures YearStart(y) + 365 * (z - y) <= YearStart(z)
    decreases z - y
  {
    YearStartStep(y);
    if y + 1 < z {
      YearStartGrows(y + 1, z);
    }
  }

  predicate InYear(n: int, y: int) {
    YearStart(y) <= n < YearStart(y + 1)
  }

  /** The year of a day, searched from a year that is not after it. */
  function YearFrom(n: int, y: int): (r: int)
    requires YearStart(y) <= n
    ensures InYear(n, r)
    decreases n - YearStart(y)
  {
    YearStartStep(y);
    if n < YearStart(y + 1) then y else YearFrom(n, y + 1)
  }

  lemma LowStart(n: int)
    requires n < 0
    ensures YearStart(n) <= n
  {
  }

  function YearOf(n: int): (y: int)
    ensures InYear(n, y)
  {
    if n >= 0 then YearFrom(n, 0) else LowStart(n); YearFrom(n, n)
  }

  const DAYS_BEFORE_MONTH: seq<int> := [0, 31, 59, 90, 120, 151, 181, 212, 243, 273, 304, 334, 365]

  function DaysBefore(y: int, month: nat): int
    requires month <= 12
  {
    DAYS_BEFORE_MONTH[month] + if Leap(y) && month >= 2 then 1 else 0
  }

  /** A date as getFullYear, getMonth and getDate give it: months from 0, days from 1. */
  datatype Date = Date(year: int, month: nat, day: nat)

  predicate Valid(d: Date) {
    d.month <= 11 && 1 <= d.day <= DaysBefore(d.year, d.month + 1) - DaysBefore(d.year, d.month)
  }

  function DayNumber(d: Date): int
    requires d.month <= 12
  {
    YearStart(d.year) + DaysBefore(d.year, d.month) + d.day - 1
  }

  // ----- Weeks as the standard defines them -----

  /** 0 for Sunday; 1 January 2000 was a Saturday. */
  function Weekday(n: int): int {
    (n + 6) % 7
  }

  function MonthLength(y: int, month: nat): nat {
    if month == 1 then (if Leap(y) then 29 else 28)
    else if month in {3, 5, 8, 10} then 30
    else 31
  }

  function DayAfter(d: Date): Date {
    if d.day < MonthLength(d.year, d.month) then Date(d.year, d.month, d.day + 1)
    else if d.month < 11 then Date(d.year, d.month + 1, 1)
    else Date(d.year + 1, 0, 1)
  }

  lemma MonthsFollow(y: int, month: nat)
    requires month <= 11
    ensures DaysBefore(y, month + 1) == DaysBefore(y, month) + MonthLength(y, month)
    ensures DaysBefore(y, 0) == 0 && DaysBefore(y, 12) == YearLength(y)
  {
  }

  lemma WeekdayAfter(n: int)
    ensures Weekday(n + 1) == (Weekday(n) + 1) % 7
  {
  }

  lemma FirstOf2000()
    ensures Weekday(DayNumber(Date(2000, 0, 1))) == 6
  {
  }

  /** Days go on through months and years of their lengths, and 1 January 2000 was a Saturday. */
  lemma CalendarDays(d: Date)
    ensures Valid(d) <==> d.month <= 11 && 1 <= d.day <= MonthLength(d.year, d.month)
    ensures Valid(d) ==> DayAfter(d).month <= 11 && DayNumber(DayAfter(d)) == DayNumber(d) + 1
    ensures Valid(d) ==> Weekday(DayNumber(DayAfter(d))) == (Weekday(DayNumber(d)) + 1) % 7
    ensures Weekday(DayNumber(Date(2000, 0, 1))) == 6
  {
    FirstOf2000();
    if d.month <= 11 {
      MonthsFollow(d.year, d.month);
      MonthsFollow(d.year + 1, 0);
      YearStartStep(d.year);
      WeekdayAfter(DayNumber(d));
    }
  }

  /** The Monday on or before the day. */
  function Monday(n: int): int {
    7 * ((n + 5) / 7) - 5
  }

  /** The Monday of week 1: of the week that holds 4 January. */
  function WeekOne(y: int): int {
    Monday(YearStart(y) + 3)
  }

  datatype Label = Label(year: int, week: int)

  ghost predicate IsIsoLabel(n: int, l: Label) {
    WeekOne(l.year) <= Monday(n) < WeekOne(l.year + 1) && Monday(n) == WeekOne(l.year) + 7 * (l.week - 1)
  }

  lemma MondayFacts(n: int)
    ensures Monday(n) <= n < Monday(n) + 7 && Weekday(Monday(n)) == 1
    ensures Monday(n + 7) == Monday(n) + 7
  {
  }

  lemma SameWeek(n: int, m: int)
    requires Monday(n) <= m < Monday(n) + 7
    ensures Monday(m) == Monday(n)
  {
    assert (Monday(n) + 5) % 7 == 0;
  }

  lemma WeeksBetween(n: int, m: int) returns (q: int)
    ensures Monday(n) == Monday(m) + 7 * q
  {
    q := (n + 5) / 7 - (m + 5) / 7;
  }

  lemma WeeksOfSpan(w0: int, w1: int, s0: int, s1: int, q: int)
    requires w0 <= s0 + 3 < w0 + 7 && w1 <= s1 + 3 < w1 + 7
    requires (s1 == s0 + 365 || s1 == s0 + 366) && w1 == w0 + 7 * q
    ensures q == 52 || q == 53
  {
  }

  lemma YearOfWeeks(y: int) returns (q: int)
    ensures WeekOne(y + 1) == WeekOne(y) + 7 * q && (q == 52 || q == 53)
  {
    YearStartStep(y);
    q := WeeksBetween(YearStart(y + 1) + 3, YearStart(y) + 3);
    MondayFacts(YearStart(y) + 3);
    MondayFacts(YearStart(y + 1) + 3);
    WeeksOfSpan(WeekOne(y), WeekOne(y + 1), YearStart(y), YearStart(y + 1), q);
  }

  lemma WeekOneGrows(y: int, z: int)
    requires y < z
    ensures WeekOne(y + 1) <= WeekOne(z)
    decreases z - y
  {
    if y + 1 < z {
      var q := YearOfWeeks(y + 1);
      WeekOneGrows(y + 1, z);
    }
  }

  /** The year of a label is determined by the week. */
  lemma LabelYearUnique(w: int, y: int, z: int)
    requires WeekOne(y) <= w < WeekOne(y + 1) && WeekOne(z) <= w < WeekOne(z + 1)
    ensures y == z
  {
    if y < z {
      WeekOneGrows(y, z);
    } else if z < y {
      WeekOneGrows(z, y);
    }
  }

  lemma NextLabel(l: Label, l': Label, m: int, a: int, b: int, q: int)
    requires m == a + 7 * (l.week - 1) && a <= m < b && b == a + 7 * q && (q == 52 || q == 53)
    requires if m + 7 < b then l'.year == l.year && m + 7 == a + 7 * (l'.week - 1)
             else l'.year == l.year + 1 && m + 7 == b + 7 * (l'.week - 1)
    ensures l' == Label(l.year, l.week + 1) || (l' == Label(l.year + 1, 1) && l.week >= 52)
  {
  }

  lemma NextLabelYear(w: int, y: int, z: int)
    requires WeekOne(y) <= w < WeekOne(y + 1) && WeekOne(z) <= w + 7 < WeekOne(z + 1)
    ensures z == if w + 7 < WeekOne(y + 1) then y else y + 1
  {
    if w + 7 < WeekOne(y + 1) {
      LabelYearUnique(w + 7, y, z);
    } else {
      var q := YearOfWeeks(y + 1);
      LabelYearUnique(w + 7, y + 1, z);
    }
  }

  lemma LabelAfterWeek(n: int, l: Label, l': Label)
    requires IsIsoLabel(n, l) && IsIsoLabel(n + 7, l')
    ensures l' == Label(l.year, l.week + 1) || (l' == Label(l.year + 1, 1) && l.week >= 52)
  {
    MondayFacts(n);
    var q := YearOfWeeks(l.year);
    NextLabelYear(Monday(n), l.year, l'.year);
    NextLabel(l, l', Monday(n), WeekOne(l.year), WeekOne(l.year + 1), q);
  }

  /**
   * The one label that the standard gives to a day: the year of its week's Thursday, and the week counted from that
   * year's first.
   */
  function IsoLabel(n: int): (l: Label)
    ensures IsIsoLabel(n, l)
  {
    ThursdayInWeekYear(n);
    WeekByThursday(n);
    var y := YearOf(Thursday(n));
    Label(y, CeilSevenths(Thursday(n) - YearStart(y) + 1))
  }

  lemma LabelUnique(n: int, l: Label)
    ensures IsIsoLabel(n, l) <==> l == IsoLabel(n)
  {
    if IsIsoLabel(n, l) {
      LabelYearUnique(Monday(n), l.year, IsoLabel(n).year);
    }
  }

  /** The week is from 1 to 53, and the days from Monday to Sunday share the label. */
  lemma LabelOfWeek(n: int, m: int)
    requires Monday(n) <= m < Monday(n) + 7
    ensures 1 <= IsoLabel(n).week <= 53
    ensures IsoLabel(m) == IsoLabel(n)
  {
    var q := YearOfWeeks(IsoLabel(n).year);
    SameWeek(n, m);
    LabelUnique(m, IsoLabel(n));
  }

  /** One week on the label goes to the next week, or from week 52 or 53 to week 1 of the next year. */
  lemma NextWeek(n: int)
    ensures var l, l' := IsoLabel(n), IsoLabel(n + 7);
      l' == Label(l.year, l.week + 1) || (l' == Label(l.year + 1, 1) && l.week >= 52)
  {
    LabelAfterWeek(n, IsoLabel(n), IsoLabel(n + 7));
  }

  /** Days of different weeks have different labels. */
  lemma DistinctWeeksDistinctLabels(n: int, m: int)
    ensures IsoLabel(n) == IsoLabel(m) <==> Monday(n) == Monday(m)
  {
    if Monday(n) == Monday(m) {
      LabelUnique(n, IsoLabel(m));
    }
  }

  // ----- The code -----

  /** Date.UTC reads years 0 to 99 as 1900 to 1999. */
  function UtcYear(y: int): int {
    if 0 <= y <= 99 then 1900 + y else y
  }

  function UtcDay(year: int, month: nat, day: nat): int
    requires month <= 12
  {
    DayNumber(Date(UtcYear(year), month, day))
  }

  /** Math.ceil(k / 7). */
  function CeilSevenths(k: int): int {
    (k + 6) / 7
  }

  function Thursday(n: int): int {
    Monday(n) + 3
  }

  function WeekLabel(date: Date): Label
    requires date.month <= 12
  {
    var th := Thursday(UtcDay(date.year, date.month, date.day));
    Label(YearOf(th), CeilSevenths(th - UtcDay(YearOf(th), 0, 1) + 1))
  }

  method GetISOWeek(date: Date) returns (r: Label)
    requires Valid(date)
    ensures r == WeekLabel(date)
  {
    var d := UtcDay(date.year, date.month, date.day);
    var day := if Weekday(d) == 0 then 7 else Weekday(d);
    ThursdayByWeekday(d);
    d := d + 4 - day;
    var yearStart := UtcDay(YearOf(d), 0, 1);
    var week := CeilSevenths(d - yearStart + 1);
    r := Label(YearOf(d), week);
  }

  lemma ThursdayByWeekday(d: int)
    ensures d + 4 - (if Weekday(d) == 0 then 7 else Weekday(d)) == Thursday(d)
  {
  }

  /** A week's Thursday is not before day s exactly when the week is not before that of s + 3. */
  lemma ThursdayNotBefore(n: int, s: int)
    ensures Thursday(n) >= s <==> Monday(n) >= Monday(s + 3)
  {
    var q := WeeksBetween(n, s + 3);
    MondayFacts(s + 3);
  }

  lemma ThursdayInWeekYear(n: int)
    ensures var y := YearOf(Thursday(n)); WeekOne(y) <= Monday(n) < WeekOne(y + 1)
  {
    var y := YearOf(Thursday(n));
    ThursdayNotBefore(n, YearStart(y));
    ThursdayNotBefore(n, YearStart(y + 1));
  }

  lemma WeekByThursday(n: int)
    ensures var y := YearOf(Thursday(n));
      Monday(n) == WeekOne(y) + 7 * (CeilSevenths(Thursday(n) - YearStart(y) + 1) - 1)
  {
    var y := YearOf(Thursday(n));
    MondayFacts(YearStart(y) + 3);
    var q := WeeksBetween(n, YearStart(y) + 3);
    SeventhsAgree(YearStart(y) + 3 - WeekOne(y), q);
  }

  lemma SeventhsAgree(gap: int, q: int)
    requires 0 <= gap < 7
    ensures CeilSevenths(7 * q - gap + 7) == q + 1
  {
  }

  predicate TwoDigit(y: int) {
    0 <= y <= 99
  }

  lemma DayInYear(d: Date)
    requires Valid(d)
    ensures InYear(DayNumber(d), d.year)
  {
    YearStartStep(d.year);
    assert DaysBefore(d.year, 12) == YearLength(d.year);
    MonthsInOrder(d.year, d.month + 1);
  }

  lemma MonthsInOrder(y: int, m: nat)
    requires m <= 12
    ensures 0 <= DaysBefore(y, m) <= DaysBefore(y, 12)
  {
  }

  /** Off the two-digit years the label is the standard's. */
  lemma LabelIsIso(date: Date)
    requires Valid(date) && !TwoDigit(date.year)
    ensures var n := DayNumber(date); !TwoDigit(YearOf(Thursday(n))) ==> WeekLabel(date) == IsoLabel(n)
  {
    var y := YearOf(Thursday(DayNumber(date)));
    assert !TwoDigit(y) ==> UtcDay(y, 0, 1) == YearStart(y);
  }

  lemma TwoDigitDay(date: Date)
    requires Valid(date) && TwoDigit(date.year)
    ensures DayNumber(date) < YearStart(100)
  {
    DayInYear(date);
    if date.year < 99 {
      YearStartGrows(date.year + 1, 100);
    }
  }

  lemma TwoDigitLabelYear(date: Date)
    requires Valid(date) && TwoDigit(date.year)
    ensures WeekLabel(date).year >= 1899
  {
    var u := UtcDay(date.year, date.month, date.day);
    YearStartGrows(1899, 1900 + date.year);
    MonthsInOrder(1900 + date.year, date.month);
    MondayFacts(u);
    var y := YearOf(Thursday(u));
    if y < 1899 && y + 1 < 1899 {
      YearStartGrows(y + 1, 1899);
    }
  }

  lemma EarlierThanLateWeeks(n: int, y: int)
    requires n < YearStart(100) && y >= 1899
    ensures n < WeekOne(y)
  {
    YearStartGrows(100, y);
    MondayFacts(YearStart(y) + 3);
  }

  lemma TwoDigitYearMislabelled(date: Date)
    requires Valid(date) && TwoDigit(date.year)
    ensures !IsIsoLabel(DayNumber(date), WeekLabel(date))
  {
    TwoDigitDay(date);
    TwoDigitLabelYear(date);
    EarlierThanLateWeeks(DayNumber(date), WeekLabel(date).year);
    MondayFacts(DayNumber(date));
  }

  lemma TwoDigitWeekYearMislabelled(date: Date)
    requires Valid(date) && !TwoDigit(date.year)
    ensures var n := DayNumber(date); TwoDigit(YearOf(Thursday(n))) ==> !IsIsoLabel(n, WeekLabel(date))
  {
    var n := DayNumber(date);
    var y := YearOf(Thursday(n));
    if TwoDigit(y) {
      YearStartGrows(y + 1, 1900 + y);
      assert WeekLabel(date).week <= 0;
    }
  }

  /**
   * The label is the standard's exactly when neither the date's year nor its week's year is one that Date.UTC reads as
   * 19xx.
   */
  lemma LabelRightOffTwoDigitYears(date: Date)
    requires Valid(date)
    ensures WeekLabel(date) == IsoLabel(DayNumber(date)) <==>
      !TwoDigit(date.year) && !TwoDigit(YearOf(Thursday(DayNumber(date))))
  {
    if TwoDigit(date.year) {
      TwoDigitYearMislabelled(date);
    } else if TwoDigit(YearOf(Thursday(DayNumber(date)))) {
      TwoDigitWeekYearMislabelled(date);
    } else {
      LabelIsIso(date);
    }
  }
}
