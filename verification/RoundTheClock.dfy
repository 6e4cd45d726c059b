/**
 When "open around the clock" is true for ever (frontend/hours.js). The verdict looks seven days
 ahead; the months go on. Here the timeline follows the calendar from a real date, whether or not the
 question named it, and the result says exactly of which hours no later minute is ever closed.
 */
module RoundTheClock {
  import opened Common
  import opened OpeningHours

  // ---------------------------------------------------------------- days on the calendar

  lemma {:induction false} AfterAdds(date: Date, a: nat, b: nat)
    ensures date.After(a + b) == date.After(a).After(b)
    decreases a
  {
    if a > 0 {
      AfterAdds(date.Next(), a - 1, b);
    }
  }

  lemma AfterOneMore(date: Date, n: nat)
    ensures date.After(n + 1) == date.After(n).Next()
  {
    AfterAdds(date, n, 1);
    assert date.After(n).After(1) == date.After(n).Next().After(0);
  }

  lemma NextIsReal(date: Date)
    requires date.Real()
    ensures date.Next().Real()
    ensures if date.Next().d == 1 then date.Next().m == MonthAfter(date.m) else date.Next().m == date.m
  {
  }

  lemma {:induction false} AfterIsReal(date: Date, n: nat)
    requires date.Real()
    ensures date.After(n).Real()
    decreases n
  {
    if n > 0 {
      AfterIsReal(date.Next(), n - 1);
    }
  }

  lemma {:induction false} AfterInMonth(date: Date, n: nat)
    requires date.d + n <= DaysIn(date.y, date.m)
    ensures date.After(n) == Date(date.y, date.m, date.d + n)
    decreases n
  {
    if n > 0 {
      AfterInMonth(date.Next(), n - 1);
    }
  }

  function MonthAfter(m: int): int {
    if m == 12 then 1 else m + 1
  }

  function MonthBefore(m: int): int {
    if m == 1 then 12 else m - 1
  }

  predicate NotAfter(a: Date, b: Date) {
    a.y < b.y || (a.y == b.y && (a.m < b.m || (a.m == b.m && a.d <= b.d)))
  }

  /** Every later date is reached. */
  lemma {:induction false} Reaches(date: Date, target: Date) returns (n: nat)
    requires date.Real() && target.Real() && NotAfter(date, target)
    ensures date.After(n) == target
    ensures date.y < target.y ==> n > 0
    decreases 372 * (target.y - date.y) + 31 * (target.m - date.m) + target.d - date.d
  {
    if date == target {
      n := 0;
    } else {
      NextIsReal(date);
      var later := Reaches(date.Next(), target);
      n := later + 1;
    }
  }

  /** Days before a month in a year that is no leap year. */
  function DaysOfMonths(m: int): nat
    requires 1 <= m <= 12
  {
    if m == 1 then 0 else if m == 2 then 31 else if m == 3 then 59 else if m == 4 then 90 else if m == 5 then 120
    else if m == 6 then 151 else if m == 7 then 181 else if m == 8 then 212 else if m == 9 then 243
    else if m == 10 then 273 else if m == 11 then 304 else 334
  }

  /** Days of the year before a month. */
  function DaysBefore(y: int, m: int): nat
    requires 1 <= m <= 12
  {
    DaysOfMonths(m) + (if m > 2 && LeapYear(y) then 1 else 0)
  }

  lemma DaysBeforeNext(y: int, m: int)
    requires 1 <= m < 12
    ensures DaysBefore(y, m + 1) == DaysBefore(y, m) + DaysIn(y, m)
  {
    hide LeapYear;
  }

  lemma NextMonth(y: int, m: int)
    requires 1 <= m < 12
    ensures Date(y, m, 1).After(DaysIn(y, m)) == Date(y, m + 1, 1)
  {
    hide Date.After, LeapYear;
    var last := DaysIn(y, m) - 1;
    AfterInMonth(Date(y, m, 1), last);
    AfterOneMore(Date(y, m, 1), last);
  }

  lemma NoDaysLater(date: Date)
    ensures date.After(0) == date
  {
  }

  lemma {:induction false} FirstOfMonth(y: int, m: int)
    requires 1 <= m <= 12
    ensures Date(y, 1, 1).After(DaysBefore(y, m)) == Date(y, m, 1)
    decreases m
  {
    if m > 1 {
      hide Date.After, DaysBefore, LeapYear;
      FirstOfMonth(y, m - 1);
      NextMonth(y, m - 1);
      DaysBeforeNext(y, m - 1);
      AfterAdds(Date(y, 1, 1), DaysBefore(y, m - 1), DaysIn(y, m - 1));
    } else {
      NoDaysLater(Date(y, 1, 1));
    }
  }

  lemma NextYear(y: int)
    ensures Date(y, 1, 1).After(if LeapYear(y) then 366 else 365) == Date(y + 1, 1, 1)
  {
    FirstOfMonth(y, 12);
    AfterInMonth(Date(y, 12, 1), 30);
    AfterOneMore(Date(y, 12, 1), 30);
    AfterAdds(Date(y, 1, 1), DaysBefore(y, 12), 31);
  }

  lemma LeapInCycle(y: int, i: int)
    requires y % 400 == 1 && 0 <= i <= 9
    ensures LeapYear(y + i) <==> i % 4 == 3
  {
    var q := y / 400;
    assert y + i == 4 * (100 * q) + (1 + i) && y + i == 100 * (4 * q) + (1 + i);
    RestOfFour(y + i, 100 * q, 1 + i);
    RestOfHundred(y + i, 4 * q, 1 + i);
  }

  lemma RestOfFour(x: int, q: int, r: int)
    requires x == 4 * q + r && 0 <= r
    ensures x % 4 == r % 4
  {
  }

  lemma RestOfHundred(x: int, q: int, r: int)
    requires x == 100 * q + r && 0 <= r < 100
    ensures x % 100 == r
  {
  }

  /** From the first year of a cycle of 400 on, every fourth year is a leap year for long enough. */
  lemma {:induction false} YearsLater(y: int, i: nat)
    requires y % 400 == 1 && i <= 9
    ensures Date(y, 1, 1).After(365 * i + i / 4) == Date(y + i, 1, 1)
    decreases i
  {
    hide LeapYear, Date.After;
    if i == 0 {
      NoDaysLater(Date(y, 1, 1));
    } else {
      YearsLater(y, i - 1);
      LeapInCycle(y, i - 1);
      NextYear(y + i - 1);
      AfterAdds(Date(y, 1, 1), 365 * (i - 1) + (i - 1) / 4, if LeapYear(y + i - 1) then 366 else 365);
    }
  }

  /** Some year among ten of a cycle in which the first of the month is on the weekday `r` days on. */
  function YearFor(r: int, m: int): (i: nat)
    requires 0 <= r < 7
    ensures i <= 9
    ensures (365 * i + i / 4 + (if m > 2 && i % 4 == 3 then 1 else 0)) % 7 == r
  {
    if r <= 2 then r
    else if m <= 2 then (if r == 3 then 3 else if r == 4 then 9 else if r == 5 then 4 else 5)
    else (if r == 3 then 8 else if r == 4 then 3 else if r == 5 then 4 else 5)
  }

  lemma WeekdayAdds(day: int, n: int, base: int, shift: int, d: int)
    requires 0 <= d < 7 && shift % 7 == (d - day - n - base) % 7
    ensures (day + (n + (base + shift))) % 7 == d
  {
  }

  /** The days from the first year of a cycle to the first of a month some years on, leap days apart. */
  function DaysToFirst(i: nat, m: int): nat
    requires 1 <= m <= 12
  {
    365 * i + i / 4 + (DaysOfMonths(m) + (if m > 2 && i % 4 == 3 then 1 else 0))
  }

  lemma FirstInCycle(y: int, m: int, i: nat)
    requires y % 400 == 1 && i <= 9 && 1 <= m <= 12
    ensures Date(y, 1, 1).After(DaysToFirst(i, m)) == Date(y + i, m, 1)
  {
    hide Date.After, LeapYear, DaysOfMonths;
    YearsLater(y, i);
    LeapInCycle(y, i);
    FirstOfMonth(y + i, m);
    AfterAdds(Date(y, 1, 1), 365 * i + i / 4, DaysBefore(y + i, m));
  }

  /** The year is chosen so that the first is on the weekday wanted. */
  lemma StepsFit(day: int, n: int, m: int, d: int)
    requires 1 <= m <= 12 && 0 <= d < 7
    ensures (day + (n + DaysToFirst(YearFor((d - day - n - DaysOfMonths(m)) % 7, m), m))) % 7 == d
  {
    hide DaysOfMonths, YearFor;
    var plain := DaysOfMonths(m);
    var i := YearFor((d - day - n - plain) % 7, m);
    var shift := 365 * i + i / 4 + (if m > 2 && i % 4 == 3 then 1 else 0);
    WeekdayAdds(day, n, plain, shift, d);
    assert plain + shift == DaysToFirst(i, m);
  }

  lemma BehindFirst(today: Date, k: nat, m: int)
    requires today.Real() && k > 0 && today.After(k).m == m && today.After(k).d == 1
    ensures today.After(k - 1).m == MonthBefore(m)
  {
    AfterOneMore(today, k - 1);
    AfterIsReal(today, k - 1);
    NextIsReal(today.After(k - 1));
  }

  /** Sooner or later the first of every month falls on every weekday. */
  lemma FirstOnWeekday(today: Date, day: int, m: int, d: int) returns (k: nat)
    requires today.Real() && 1 <= m <= 12 && 0 <= d < 7
    ensures k > 0 && (day + k) % 7 == d && today.After(k).m == m && today.After(k - 1).m == MonthBefore(m)
  {
    hide Date.After, LeapYear, DaysOfMonths, YearFor, DaysToFirst;
    var y := today.y - today.y % 400 + 401;
    var n := Reaches(today, Date(y, 1, 1));
    var i := YearFor((d - day - n - DaysOfMonths(m)) % 7, m);
    k := n + DaysToFirst(i, m);
    FirstInCycle(y, m, i);
    StepsFit(day, n, m, d);
    AfterAdds(today, n, DaysToFirst(i, m));
    BehindFirst(today, k, m);
  }

  /** And every weekday falls within every month, behind a day of the same month. */
  lemma InsideMonth(today: Date, day: int, m: int, d: int) returns (k: nat)
    requires today.Real() && 1 <= m <= 12 && 0 <= d < 7
    ensures k > 0 && (day + k) % 7 == d && today.After(k).m == m && today.After(k - 1).m == m
  {
    var first := Date(today.y + 1, m, 1);
    var n := Reaches(today, first);
    var j := 1 + (d - day - n - 1) % 7;
    AfterInMonth(first, j);
    AfterInMonth(first, j - 1);
    AfterAdds(today, n, j);
    AfterAdds(today, n, j - 1);
    k := n + j;
    assert (day + k) % 7 == d;
  }

  // ---------------------------------------------------------------- hours that cover every day

  /** The question on its real date, which need not have been told. */
  function Dated(parsed: Parsed, day: int, today: Date): Asked {
    Asked(parsed, day, When(today.m, Some((today.y, today.d))))
  }

  /** Date.UTC reads the years 0 to 99 as others. */
  predicate Today(today: Date) {
    today.Real() && UtcYear(today.y) == today.y
  }

  predicate CoversMinute(yesterday: seq<Span>, today: seq<Span>, minute: int) {
    || (exists s :: s in today && s.from <= minute < s.to)
    || (exists s :: s in yesterday && s.to > DAY && minute < s.to - DAY)
  }

  ghost predicate CoversEvery(yesterday: seq<Span>, today: seq<Span>) {
    forall minute :: 0 <= minute < DAY ==> CoversMinute(yesterday, today, minute)
  }

  /** No minute of this weekday is closed in month `m` when the day before was in month `before`. */
  ghost predicate CoversDay(parsed: Parsed, d: int, before: int, m: int) {
    CoversEvery(SpansOf(parsed.rules, (d + 6) % 7, before), SpansOf(parsed.rules, d, m))
  }

  /** The weekday is covered within the month and on the first of it. */
  ghost predicate CoversWeekday(parsed: Parsed, d: int, m: int) {
    CoversDay(parsed, d, m, m) && CoversDay(parsed, d, MonthBefore(m), m)
  }

  ghost predicate CoversAll(parsed: Parsed) {
    forall d, m :: 0 <= d < 7 && 1 <= m <= 12 ==> CoversWeekday(parsed, d, m)
  }

  lemma MonthsOfDays(parsed: Parsed, day: int, today: Date, k: nat)
    requires Today(today)
    ensures Dated(parsed, day, today).MonthOn(k) == today.After(k).m
    ensures k > 0 ==> Dated(parsed, day, today).MonthOn(k - 1) == today.After(k - 1).m
  {
    MonthOfLater(today, k);
    if k > 0 {
      MonthOfLater(today, k - 1);
    }
  }

  /** The day before is in the same month, or in the one before. */
  lemma PairOfMonths(parsed: Parsed, day: int, today: Date, k: nat)
    requires Today(today)
    ensures var a := Dated(parsed, day, today);
            && 1 <= a.MonthOn(k) <= 12
            && (a.MonthOn(k - 1) == a.MonthOn(k) || a.MonthOn(k - 1) == MonthBefore(a.MonthOn(k)))
  {
    MonthsOfDays(parsed, day, today, k);
    AfterIsReal(today, k);
    if k > 0 {
      AfterOneMore(today, k - 1);
      AfterIsReal(today, k - 1);
      NextIsReal(today.After(k - 1));
    }
  }

  lemma CoveredMinuteIsOpen(asked: Asked, k: int, minute: int)
    requires asked.parsed.Valid() && 0 <= minute < DAY
    requires CoversMinute(asked.SpansOn(k - 1), asked.SpansOn(k), minute)
    ensures asked.OpenAt(k * DAY + minute)
  {
    var today, yesterday := asked.SpansOn(k), asked.SpansOn(k - 1);
    ValidOn(asked, k - 1);
    hide Asked.SpansOn;
    if exists s :: s in today && s.from <= minute < s.to {
      var s :| s in today && s.from <= minute < s.to;
      assert asked.Holds(k, s, k * DAY + minute);
    } else {
      var s :| s in yesterday && s.to > DAY && minute < s.to - DAY;
      assert asked.Holds(k - 1, s, k * DAY + minute);
    }
  }

  lemma OpenMinuteIsCovered(asked: Asked, k: int, minute: int)
    requires asked.parsed.Valid() && 0 <= minute < DAY && asked.OpenAt(k * DAY + minute)
    ensures CoversMinute(asked.SpansOn(k - 1), asked.SpansOn(k), minute)
  {
    hide Asked.SpansOn;
    var j, s :| asked.Holds(j, s, k * DAY + minute);
    TwoDaysSuffice(asked, j, s, k * DAY + minute, k);
    if j == k {
      assert s in asked.SpansOn(k) && s.from <= minute < s.to;
    } else {
      assert s in asked.SpansOn(k - 1) && s.to > DAY && minute < s.to - DAY;
    }
  }

  lemma SpansOnAre(asked: Asked, k: int)
    ensures asked.SpansOn(k) == SpansOf(asked.parsed.rules, (asked.day + k) % 7, asked.MonthOn(k))
    ensures asked.SpansOn(k - 1) ==
            SpansOf(asked.parsed.rules, ((asked.day + k) % 7 + 6) % 7, asked.MonthOn(k - 1))
  {
    assert ((asked.day + k) % 7 + 6) % 7 == (asked.day + (k - 1)) % 7;
  }

  lemma DayIsCovered(parsed: Parsed, day: int, today: Date, d: int, before: int, m: int, k: nat)
    requires parsed.Valid() && Today(today) && k > 0
    requires (day + k) % 7 == d && today.After(k).m == m && today.After(k - 1).m == before
    requires forall t :: t >= DAY ==> Dated(parsed, day, today).OpenAt(t)
    ensures CoversDay(parsed, d, before, m)
  {
    var asked := Dated(parsed, day, today);
    MonthsOfDays(parsed, day, today, k);
    SpansOnAre(asked, k);
    var yesterday, now := SpansOf(parsed.rules, (d + 6) % 7, before), SpansOf(parsed.rules, d, m);
    forall minute | 0 <= minute < DAY ensures CoversMinute(yesterday, now, minute) {
      OpenMinuteIsCovered(asked, k, minute);
    }
  }

  /**
   Main result: from any minute of any date on, no later minute is ever closed if and only if the hours
   cover every weekday of every month, and every first of a month behind the month before.
   */
  lemma OpenForEverIff(parsed: Parsed, day: int, today: Date, minute: int)
    requires parsed.Valid() && Today(today) && 0 <= minute < DAY
    ensures (forall t :: t >= minute ==> Dated(parsed, day, today).OpenAt(t)) <==> CoversAll(parsed)
  {
    hide CoversDay, SpansOf, Asked.OpenAt, Asked.MonthOn, Asked.SpansOn, Date.After, Dated;
    var asked := Dated(parsed, day, today);
    if CoversAll(parsed) {
      forall t | t >= minute ensures asked.OpenAt(t) {
        CoveredIsOpen(parsed, day, today, t);
      }
    }
    if forall t :: t >= minute ==> asked.OpenAt(t) {
      forall d, m | 0 <= d < 7 && 1 <= m <= 12
        ensures CoversWeekday(parsed, d, m)
      {
        var k := InsideMonth(today, day, m, d);
        DayIsCovered(parsed, day, today, d, m, m, k);
        var j := FirstOnWeekday(today, day, m, d);
        DayIsCovered(parsed, day, today, d, MonthBefore(m), m, j);
      }
    }
  }

  lemma CoveredIsOpen(parsed: Parsed, day: int, today: Date, t: int)
    requires parsed.Valid() && Today(today) && t >= 0 && CoversAll(parsed)
    ensures Dated(parsed, day, today).OpenAt(t)
  {
    var asked := Dated(parsed, day, today);
    var k, minute := t / DAY, t % DAY;
    PairOfMonths(parsed, day, today, k);
    SpansOnAre(asked, k);
    hide SpansOf, Asked.SpansOn, Asked.MonthOn, Asked.OpenAt;
    assert CoversWeekday(parsed, (day + k) % 7, asked.MonthOn(k));
    assert CoversDay(parsed, (day + k) % 7, asked.MonthOn(k - 1), asked.MonthOn(k));
    assert asked.parsed == parsed && asked.day == day;
    assert CoversMinute(asked.SpansOn(k - 1), asked.SpansOn(k), minute);
    hide CoversMinute;
    CoveredMinuteIsOpen(asked, k, minute);
    assert k * DAY + minute == t;
  }

  // ------------------------------------------------------------------ the verdict and the rest of time

  /** The hours are said to be around the clock. */
  predicate SaidAroundTheClock(v: Verdict) {
    v.IsOpen? && v.until.None? && !v.openEnd
  }

  /** Without months what is said of a week is true for ever. */
  lemma AroundTheClockForever(asked: Asked, minute: int)
    requires asked.parsed.Valid() && 0 <= minute < DAY && !asked.parsed.UsesMonths()
    requires SaidAroundTheClock(Judge(asked, minute))
    ensures CoversAll(asked.parsed)
  {
    hide Judge, SpansOf;
    var parsed := asked.parsed;
    OpenWithoutEnd(asked, minute);
    assert forall r <- parsed.rules :: r.months.None?;
    forall d, m | 0 <= d < 7 && 1 <= m <= 12 ensures CoversWeekday(parsed, d, m) {
      var j := 1 + (d - asked.day - 1) % 7;
      assert (asked.day + j) % 7 == d;
      assert asked.OpenAllDay(j);
      var s :| s in asked.SpansOn(j) && s.from == 0 && s.to == DAY;
      SpansWithoutMonths(parsed.rules, d, asked.MonthOn(j), m);
      assert s in SpansOf(parsed.rules, d, m);
    }
  }

  /** Two halves of the year, each around the clock: for ever, though the hours name months. */
  lemma HalvesOfTheYear()
    ensures var summer, winter := {4, 5, 6, 7, 8, 9, 10}, {11, 12, 1, 2, 3};
            var all := [Span(0, DAY, Normal)];
            CoversAll(Parsed([Rule(Some(summer), WEEK, all, false), Rule(Some(winter), WEEK, all, false)], false))
  {
    var summer, winter := {4, 5, 6, 7, 8, 9, 10}, {11, 12, 1, 2, 3};
    var all := [Span(0, DAY, Normal)];
    var rules := [Rule(Some(summer), WEEK, all, false), Rule(Some(winter), WEEK, all, false)];
    forall d, m | 0 <= d < 7 && 1 <= m <= 12 ensures CoversWeekday(Parsed(rules, false), d, m) {
      assert rules[..1] == [rules[0]] && rules[..1][..0] == [];
      assert SpansOf(rules[..1], d, m) == if m in summer then all else [];
      assert all[0] in SpansOf(rules, d, m);
    }
  }

  /** A question without a date is answered like one with it while the month does not change. */
  lemma SameMonthSameVerdict(parsed: Parsed, day: int, today: Date, minute: int)
    requires Today(today) && forall k :: -1 <= k <= 7 ==> Dated(parsed, day, today).MonthOn(k) == today.m
    ensures Judge(Asked(parsed, day, When(today.m, None)), minute) == Judge(Dated(parsed, day, today), minute)
  {
    hide SpansOf, FirstHolding, FirstLate, EarliestAfter, InDoubt;
    var dated, undated := Dated(parsed, day, today), Asked(parsed, day, When(today.m, None));
    forall k | -1 <= k <= 7 ensures dated.SpansOn(k) == undated.SpansOn(k) {
    }
    forall end ensures Closing(dated, 1, end) == Closing(undated, 1, end) {
      SameClosing(dated, undated, 1, end);
    }
  }

  lemma {:induction false} SameClosing(a: Asked, b: Asked, i: int, end: int)
    requires 1 <= i <= 8 && forall k :: 1 <= k <= 7 ==> a.SpansOn(k) == b.SpansOn(k)
    ensures Closing(a, i, end) == Closing(b, i, end)
    decreases 8 - i
  {
    hide Asked.SpansOn, FirstAtMidnight;
    if end == DAY && i < 8 {
      var next := FirstAtMidnight(a.SpansOn(i));
      if next.Some? {
        SameClosing(a, b, i + 1, next.value.to);
      }
    }
  }
}
