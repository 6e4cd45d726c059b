/**
 The calendar behind the month of a day (frontend/hours.js leaves it to `Date.UTC`): its days follow each other
 as those of the Gregorian calendar do, counted by a formula that knows no months and no leap years.
 */
module Calendar {
  import opened Common
  import opened OpeningHours

  /** The leap days up to the end of the year. */
  function LeapDays(y: int): int {
    y / 4 - y / 100 + y / 400
  }

  /** The days before a month, counted from March as 0. */
  function DaysBefore(m: int): int {
    (153 * m + 2) / 5
  }

  /** The day's number, counted in years that start in March, so that the leap day ends a year. */
  function DayNumber(date: Date): int {
    var y := if date.m <= 2 then date.y - 1 else date.y;
    365 * y + LeapDays(y) + DaysBefore((date.m + 9) % 12) + date.d - 1
  }

  lemma LeapDayEndsTheYear(y: int)
    ensures LeapDays(y) - LeapDays(y - 1) == if LeapYear(y) then 1 else 0
  {
    EveryFourth(y);
    EveryHundredth(y);
    EveryFourHundredth(y);
  }

  lemma EveryFourth(y: int)
    ensures y / 4 - (y - 1) / 4 == if y % 4 == 0 then 1 else 0
  {
  }

  lemma DividedBy100(x: int, q: int, r: int)
    requires x == 100 * q + r && 0 <= r < 100
    ensures x / 100 == q && x % 100 == r
  {
  }

  lemma DividedBy400(x: int, q: int, r: int)
    requires x == 400 * q + r && 0 <= r < 400
    ensures x / 400 == q && x % 400 == r
  {
  }

  lemma DividedBy4(x: int, q: int)
    requires x == 4 * q
    ensures x % 4 == 0
  {
  }

  lemma EveryHundredth(y: int)
    ensures y / 100 - (y - 1) / 100 == (if y % 100 == 0 then 1 else 0) && (y % 100 == 0 ==> y % 4 == 0)
  {
    var q, r := y / 100, y % 100;
    if r == 0 {
      DividedBy100(y - 1, q - 1, 99);
      DividedBy4(y, 25 * q);
    } else {
      DividedBy100(y - 1, q, r - 1);
    }
  }

  lemma EveryFourHundredth(y: int)
    ensures y / 400 - (y - 1) / 400 == (if y % 400 == 0 then 1 else 0) && (y % 400 == 0 ==> y % 100 == 0)
  {
    var q, r := y / 400, y % 400;
    if r == 0 {
      DividedBy400(y - 1, q - 1, 399);
      DividedBy100(y, 4 * q, 0);
    } else {
      DividedBy400(y - 1, q, r - 1);
    }
  }

  lemma MonthsFollow(m: int)
    requires 1 <= m <= 12 && m != 2
    ensures DaysBefore((m % 12 + 10) % 12) - DaysBefore((m + 9) % 12)
         == if m == 4 || m == 6 || m == 9 || m == 11 then 30 else 31
  {
  }

  lemma FebruaryEnds(y: int)
    ensures DayNumber(Date(y, 3, 1)) == DayNumber(Date(y, 2, DaysIn(y, 2))) + 1
  {
    LeapDayEndsTheYear(y);
    hide LeapYear, LeapDays;
    assert DaysBefore(0) == 0 && DaysBefore(11) == 337;
  }

  lemma MonthEnds(y: int, m: int)
    requires 1 <= m <= 11 && m != 2
    ensures DayNumber(Date(y, m + 1, 1)) == DayNumber(Date(y, m, DaysIn(y, m))) + 1
  {
    MonthsFollow(m);
    assert m % 12 + 10 == m + 1 + 9;
    hide LeapYear, LeapDays, DaysBefore;
  }

  lemma DecemberEnds(y: int)
    ensures DayNumber(Date(y + 1, 1, 1)) == DayNumber(Date(y, 12, 31)) + 1
  {
    MonthsFollow(12);
    hide LeapYear, LeapDays, DaysBefore;
  }

  /** The day after a real date is real and has the next number. */
  lemma NextIsNextDay(date: Date)
    requires date.Real()
    ensures date.Next().Real() && DayNumber(date.Next()) == DayNumber(date) + 1
  {
    if date.d == DaysIn(date.y, date.m) {
      hide LeapYear, LeapDays, DaysBefore, DayNumber;
      if date.m == 2 {
        FebruaryEnds(date.y);
      } else if date.m < 12 {
        MonthEnds(date.y, date.m);
      } else {
        DecemberEnds(date.y);
      }
    }
  }

  /** Main result: a number of days after a real date comes a real date with a number that much larger. */
  lemma {:induction false} CalendarIsGregorian(date: Date, days: nat)
    requires date.Real()
    ensures date.After(days).Real() && DayNumber(date.After(days)) == DayNumber(date) + days
    decreases days
  {
    hide DayNumber, Date.Next;
    if days > 0 {
      NextIsNextDay(date);
      CalendarIsGregorian(date.Next(), days - 1);
    }
  }

  /** Years of two digits are years of the twentieth century; all others are as they are. */
  lemma TwoDigitYears(year: int, month: int, day: int, offset: int)
    ensures var full := if 0 <= year < 100 then year + 1900 else year;
            MonthAtOffset(When(month, Some((year, day))), offset) == MonthOf(full, month, day + offset)
  {
  }
}
