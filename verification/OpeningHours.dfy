/**
 The opening-hours language of frontend/hours.js, from the pieces its regular expressions cut out of
 a text. Its promise is stated on a timeline: minute 0 is the start of the day asked about, day k
 starts at minute k * 1440 (k may be negative), and every day has the spans its rules give it.
 */
module OpeningHours {
  import opened Common

  const DAY: int := 1440 // minutes

  datatype Kind = Normal | OpenEnd | Plus

  datatype Span = Span(from: int, to: int, kind: Kind)

  // ---------------------------------------------------------------- the text, cut into its words

  datatype Clock = Clock(hours: nat, minutes: nat)

  type WeekdayIndex = d: int | 0 <= d < 7
  type MonthIndex = m: int | 0 <= m < 12

  datatype DayWord = Weekday(index: WeekdayIndex) | Holiday

  datatype Range<T> = One(from: T) | FromTo(from: T, to: T)

  /** "17:00+", or "10:00-18:00" perhaps with a plus behind it. */
  datatype TimeItem = From(from: Clock) | Between(from: Clock, to: Clock, plus: bool)

  datatype Hours = Times(items: seq<TimeItem>) | Open | Closed

  datatype RuleText = RuleText(months: Option<seq<Range<MonthIndex>>>, days: Option<seq<Range<DayWord>>>, hours: Hours)

  /** The parts between semicolons, each cut at the commas that add a rule; None is a piece that is no rule. */
  datatype Text = Unreadable | Always | Rules(parts: seq<seq<Option<RuleText>>>)

  // ---------------------------------------------------------------- parsing

  datatype Rule = Rule(months: Option<set<int>>, days: set<int>, spans: seq<Span>, additive: bool)

  datatype Parsed = Parsed(rules: seq<Rule>, holidays: bool)
  {
    predicate UsesMonths() {
      exists i :: 0 <= i < |rules| && rules[i].months.Some?
    }

    predicate Valid() {
      forall i, j :: 0 <= i < |rules| && 0 <= j < |rules[i].spans| ==> ValidSpan(rules[i].spans[j])
    }
  }

  /** A span starts on its day, is not empty, lasts less than a day or ends at midnight, and ends before the next day does. */
  predicate ValidSpan(s: Span) {
    && 0 <= s.from < DAY && s.from < s.to < 2 * DAY
    && (s.to <= DAY || s.to - s.from < DAY)
    && (s.kind == Plus ==> s.to <= DAY) && (s.kind == OpenEnd ==> s.to == DAY)
  }

  function Minutes(clock: Clock, isEnd: bool): Option<int> {
    if clock.minutes > 59 then None
    else if clock.hours == 24 then if isEnd && clock.minutes == 0 then Some(DAY) else None
    else if clock.hours > 23 then None
    else Some(clock.hours * 60 + clock.minutes)
  }

  /** Steps forward from `start` to `x` round a cycle of `n`. */
  function Forward(start: int, x: int, n: int): int {
    if x >= start then x - start else x - start + n
  }

  /** Going forward from `start` round the cycle of `n`, `x` is met no later than `end`. */
  predicate InCycle(x: int, start: int, end: int, n: int) {
    0 <= x < n && Forward(start, x, n) <= Forward(start, end, n)
  }

  /** The loop both day and month ranges are read with: step forward, wrapping, until the end is met. */
  method Cycle(start: int, end: int, n: int) returns (found: set<int>)
    requires 0 <= start < n && 0 <= end < n
    ensures found == set x | 0 <= x < n && InCycle(x, start, end, n)
  {
    found := {start};
    var d := start;
    while d != end
      invariant 0 <= d < n && Forward(start, d, n) <= Forward(start, end, n)
      invariant found == set x | 0 <= x < n && InCycle(x, start, d, n)
      decreases Forward(start, end, n) - Forward(start, d, n)
    {
      d := if d + 1 == n then 0 else d + 1;
      found := found + {d};
    }
  }

  predicate MeansNothing(item: Range<DayWord>) {
    item.FromTo? && (item.from == Holiday || item.to == Holiday)
  }

  predicate NamesDay(item: Range<DayWord>, d: int) {
    match item
    case One(Weekday(index)) => d == index
    case FromTo(Weekday(start), Weekday(end)) => InCycle(d, start, end, 7)
    case _ => false
  }

  predicate NamedDay(items: seq<Range<DayWord>>, d: int) {
    exists i :: 0 <= i < |items| && NamesDay(items[i], d)
  }

  /** The days a list names, and whether it names holidays; None if a range ends in a holiday. */
  ghost function DaysOf(items: seq<Range<DayWord>>): Option<(set<int>, bool)> {
    if exists i :: 0 <= i < |items| && MeansNothing(items[i]) then None
    else Some(((set d | 0 <= d < 7 && NamedDay(items, d)), One(Holiday) in items))
  }

  lemma NamedDayStep(items: seq<Range<DayWord>>, n: nat)
    requires n < |items|
    ensures forall d :: NamedDay(items[..n + 1], d) <==> NamedDay(items[..n], d) || NamesDay(items[n], d)
  {
    assert items[..n + 1] == items[..n] + [items[n]];
  }

  method ParseDays(items: seq<Range<DayWord>>) returns (r: Option<(set<int>, bool)>)
    ensures r == DaysOf(items)
  {
    var days: set<int> := {};
    var holidays := false;
    for n := 0 to |items|
      invariant forall i :: 0 <= i < n ==> !MeansNothing(items[i])
      invariant forall d :: d in days <==> 0 <= d < 7 && NamedDay(items[..n], d)
      invariant holidays <==> One(Holiday) in items[..n]
    {
      var item := items[n];
      assert items[..n + 1] == items[..n] + [item];
      if MeansNothing(item) {
        return None;
      }
      NamedDayStep(items, n);
      if item == One(Holiday) {
        holidays := true;
      } else {
        var start := item.from.index;
        var end := if item.One? then start else item.to.index;
        var more := Cycle(start, end, 7);
        assert forall d :: d in more <==> 0 <= d < 7 && NamesDay(item, d);
        days := days + more;
      }
    }
    assert items[..|items|] == items;
    r := Some((days, holidays));
    assert days == set d | 0 <= d < 7 && NamedDay(items, d);
  }

  /** Months count from 1. */
  predicate NamesMonth(item: Range<MonthIndex>, month: int) {
    InCycle(month - 1, item.from, if item.One? then item.from else item.to, 12)
  }

  predicate NamedMonth(items: seq<Range<MonthIndex>>, month: int) {
    exists i :: 0 <= i < |items| && NamesMonth(items[i], month)
  }

  ghost function MonthsOf(items: seq<Range<MonthIndex>>): set<int> {
    set m | 1 <= m <= 12 && NamedMonth(items, m)
  }

  lemma NamedMonthStep(items: seq<Range<MonthIndex>>, n: nat)
    requires n < |items|
    ensures forall m :: NamedMonth(items[..n + 1], m) <==> NamedMonth(items[..n], m) || NamesMonth(items[n], m)
  {
    assert items[..n + 1] == items[..n] + [items[n]];
  }

  method ParseMonths(items: seq<Range<MonthIndex>>) returns (months: set<int>)
    ensures months == MonthsOf(items)
  {
    months := {};
    for n := 0 to |items|
      invariant forall m :: m in months <==> 1 <= m <= 12 && NamedMonth(items[..n], m)
    {
      var item := items[n];
      NamedMonthStep(items, n);
      var found := Cycle(item.from, if item.One? then item.from else item.to, 12);
      var named := set x | x in found :: x + 1;
      forall m
        ensures m in named <==> 1 <= m <= 12 && NamesMonth(item, m)
      {
        if 1 <= m <= 12 && NamesMonth(item, m) {
          assert m - 1 in found;
        }
      }
      months := months + named;
    }
    assert items[..|items|] == items;
  }

  function SpanOf(item: TimeItem): (r: Option<Span>)
    ensures r.Some? ==> ValidSpan(r.value)
  {
    match item
    case From(from) =>
      (match Minutes(from, false)
       case None => None
       case Some(start) => Some(Span(start, DAY, OpenEnd)))
    case Between(from, to, plus) =>
      var start, end := Minutes(from, false), Minutes(to, true);
      if start.None? || end.None? || start == end then None
      else if plus && end.value < start.value then None
      else Some(Span(start.value, if end.value < start.value then end.value + DAY else end.value,
                     if plus then Plus else Normal))
  }

  /** One span for every item, in order; None if any item gives none. */
  ghost function TimesOf(items: seq<TimeItem>): Option<seq<Span>> {
    if exists i :: 0 <= i < |items| && SpanOf(items[i]).None? then None
    else Some(seq(|items|, i requires 0 <= i < |items| && SpanOf(items[i]).Some? => SpanOf(items[i]).value))
  }

  method ParseTimes(items: seq<TimeItem>) returns (r: Option<seq<Span>>)
    ensures r == TimesOf(items)
  {
    var spans := [];
    for n := 0 to |items|
      invariant |spans| == n
      invariant forall i :: 0 <= i < n ==> SpanOf(items[i]) == Some(spans[i])
    {
      var span := SpanOf(items[n]);
      if span.None? {
        return None;
      }
      spans := spans + [span.value];
    }
    r := Some(spans);
    assert spans == TimesOf(items).value;
  }

  datatype Read = Read(rule: Rule, holidays: bool)

  const WEEK: set<int> := {0, 1, 2, 3, 4, 5, 6}

  ghost function RuleOf(text: RuleText, additive: bool): Option<Read> {
    var days := if text.days.Some? then DaysOf(text.days.value) else Some((WEEK, false));
    var spans := match text.hours
      case Times(items) => TimesOf(items)
      case Open => Some([Span(0, DAY, Normal)])
      case Closed => Some([]);
    var months := if text.months.Some? then Some(MonthsOf(text.months.value)) else None;
    if days.None? || spans.None? then None
    else Some(Read(Rule(months, days.value.0, spans.value, additive), days.value.1))
  }

  method ParseRule(text: RuleText, additive: bool) returns (r: Option<Read>)
    ensures r == RuleOf(text, additive)
  {
    var days, holidays := WEEK, false;
    if text.days.Some? {
      var parsed := ParseDays(text.days.value);
      if parsed.None? {
        return None;
      }
      days, holidays := parsed.value.0, parsed.value.1;
    }
    var spans: seq<Span>;
    match text.hours {
      case Times(items) =>
        var parsed := ParseTimes(items);
        if parsed.None? {
          return None;
        }
        spans := parsed.value;
      case Open => spans := [Span(0, DAY, Normal)];
      case Closed => spans := [];
    }
    var months: Option<set<int>> := None;
    if text.months.Some? {
      var named := ParseMonths(text.months.value);
      months := Some(named);
    }
    r := Some(Read(Rule(months, days, spans, additive), holidays));
  }

  /** The pieces of all parts, each with whether it adds to the one before it (it is not the first of its part). */
  function Listed(parts: seq<seq<Option<RuleText>>>): seq<(Option<RuleText>, bool)> {
    if parts == [] then []
    else seq(|parts[0]|, i requires 0 <= i < |parts[0]| => (parts[0][i], i > 0)) + Listed(parts[1..])
  }

  ghost predicate Readable(piece: (Option<RuleText>, bool)) {
    piece.0.Some? && RuleOf(piece.0.value, piece.1).Some?
  }

  ghost function RulesOf(pieces: seq<(Option<RuleText>, bool)>): Option<Parsed> {
    if exists i :: 0 <= i < |pieces| && !Readable(pieces[i]) then None
    else Some(Parsed(
      seq(|pieces|, i requires 0 <= i < |pieces| && Readable(pieces[i]) => RuleOf(pieces[i].0.value, pieces[i].1).value.rule),
      exists i :: 0 <= i < |pieces| && Readable(pieces[i]) && RuleOf(pieces[i].0.value, pieces[i].1).value.holidays))
  }

  const ALWAYS: Parsed := Parsed([Rule(None, WEEK, [Span(0, DAY, Normal)], false)], false)

  /** The hours of a text: every piece must be understood, or nothing is; no rules at all is not a text. */
  ghost function Meaning(text: Text): Option<Parsed> {
    match text
    case Unreadable => None
    case Always => Some(ALWAYS)
    case Rules(parts) => if Listed(parts) == [] then None else RulesOf(Listed(parts))
  }

  method Parse(text: Text) returns (r: Option<Parsed>)
    ensures r == Meaning(text)
  {
    match text {
      case Unreadable => return None;
      case Always => return Some(ALWAYS);
      case Rules(parts) =>
        var pieces := Listed(parts);
        var rules: seq<Rule>, holidays := [], false;
        for n := 0 to |pieces|
          invariant |rules| == n
          invariant forall i :: 0 <= i < n ==> Readable(pieces[i])
          invariant forall i :: 0 <= i < n ==> rules[i] == RuleOf(pieces[i].0.value, pieces[i].1).value.rule
          invariant holidays <==> exists i :: 0 <= i < n && Readable(pieces[i]) && RuleOf(pieces[i].0.value, pieces[i].1).value.holidays
        {
          if pieces[n].0.None? {
            assert !Readable(pieces[n]);
            return None;
          }
          var read := ParseRule(pieces[n].0.value, pieces[n].1);
          if read.None? {
            assert !Readable(pieces[n]);
            return None;
          }
          holidays := holidays || read.value.holidays;
          rules := rules + [read.value.rule];
        }
        assert pieces != [] ==> rules == RulesOf(pieces).value.rules;
        r := if |rules| > 0 then Some(Parsed(rules, holidays)) else None;
    }
  }

  /** Whatever is understood has only valid spans: none outlasts the next day. */
  lemma MeaningIsValid(text: Text)
    ensures Meaning(text).Some? ==> Meaning(text).value.Valid()
  {
  }

  // ---------------------------------------------------------------- the spans of a day

  predicate Applies(rule: Rule, day: int, month: int) {
    day in rule.days && (rule.months.Some? ==> month in rule.months.value)
  }

  /** The last rule that applies decides: it stands alone, or adds to what those before it say. */
  function SpansOf(rules: seq<Rule>, day: int, month: int): seq<Span> {
    if rules == [] then []
    else
      var before, last := rules[..|rules| - 1], rules[|rules| - 1];
      if !Applies(last, day, month) then SpansOf(before, day, month)
      else if last.additive then SpansOf(before, day, month) + last.spans
      else last.spans
  }

  method FoldSpans(parsed: Parsed, day: int, month: int) returns (spans: seq<Span>)
    ensures spans == SpansOf(parsed.rules, day, month)
  {
    spans := [];
    for n := 0 to |parsed.rules|
      invariant spans == SpansOf(parsed.rules[..n], day, month)
    {
      var rule := parsed.rules[n];
      assert parsed.rules[..n + 1][..n] == parsed.rules[..n];
      if Applies(rule, day, month) {
        spans := if rule.additive then spans + rule.spans else rule.spans;
      }
    }
    assert parsed.rules[..|parsed.rules|] == parsed.rules;
  }

  /** A rule that replaces wipes out all that was said before it for a day it names. */
  lemma {:induction false} ReplacingRuleWins(before: seq<Rule>, rule: Rule, after: seq<Rule>, day: int, month: int)
    requires Applies(rule, day, month) && !rule.additive
    ensures SpansOf(before + [rule] + after, day, month) == SpansOf([rule] + after, day, month)
    decreases |after|
  {
    var all, short := before + [rule] + after, [rule] + after;
    if after == [] {
      assert all == before + [rule] && short == [rule];
    } else {
      var n := |after| - 1;
      assert all[..|all| - 1] == before + [rule] + after[..n];
      assert short[..|short| - 1] == [rule] + after[..n];
      ReplacingRuleWins(before, rule, after[..n], day, month);
    }
  }

  lemma {:induction false} SpansAreValid(rules: seq<Rule>, day: int, month: int)
    requires forall i, j :: 0 <= i < |rules| && 0 <= j < |rules[i].spans| ==> ValidSpan(rules[i].spans[j])
    ensures forall s <- SpansOf(rules, day, month) :: ValidSpan(s)
  {
    if rules != [] {
      SpansAreValid(rules[..|rules| - 1], day, month);
    }
  }

  // ---------------------------------------------------------------- the calendar

  /** `date` is the year and day of the month when the caller knows both; month 0 stands for none given. */
  datatype When = When(month: int, date: Option<(int, int)>)

  predicate LeapYear(y: int) {
    y % 4 == 0 && (y % 100 != 0 || y % 400 == 0)
  }

  function DaysIn(y: int, m: int): (n: int)
    ensures 28 <= n <= 31
  {
    if m == 2 then if LeapYear(y) then 29 else 28
    else if m == 4 || m == 6 || m == 9 || m == 11 then 30
    else 31
  }

  /** The month that day `d` of month `m` falls in, as Date.UTC carries days over (d may be 0, negative or large). */
  function MonthOf(y: int, m: int, d: int): int
    decreases if d < 1 then 100 - d else d
  {
    if d < 1 then
      var (y', m') := if m == 1 then (y - 1, 12) else (y, m - 1);
      MonthOf(y', m', d + DaysIn(y', m'))
    else if d > DaysIn(y, m) then
      var (y', m') := if m == 12 then (y + 1, 1) else (y, m + 1);
      MonthOf(y', m', d - DaysIn(y, m))
    else m
  }

  /** Date.UTC reads the years 0 to 99 as 1900 to 1999. */
  function UtcYear(year: int): int {
    if 0 <= year <= 99 then 1900 + year else year
  }

  function MonthAtOffset(when: When, offset: int): int {
    match when.date
    case None => when.month
    case Some((year, date)) => MonthOf(UtcYear(year), when.month, date + offset)
  }

  datatype Date = Date(y: int, m: int, d: int)
  {
    predicate Real() {
      1 <= m <= 12 && 1 <= d <= DaysIn(y, m)
    }

    function Next(): Date {
      if d < DaysIn(y, m) then Date(y, m, d + 1)
      else if m < 12 then Date(y, m + 1, 1)
      else Date(y + 1, 1, 1)
    }

    function After(days: nat): Date
      decreases days
    {
      if days == 0 then this else Next().After(days - 1)
    }
  }

  lemma {:induction false} MonthOfLater(date: Date, days: nat)
    requires date.Real()
    ensures MonthOf(date.y, date.m, date.d + days) == date.After(days).m
    decreases days
  {
    if days > 0 {
      MonthOfLater(date.Next(), days - 1);
    }
  }

  /** The month at an offset is the month that many days later on the calendar, or one day earlier. */
  lemma MonthFollowsCalendar(when: When, today: Date)
    requires today.Real() && when == When(today.m, Some((today.y, today.d))) && UtcYear(today.y) == today.y
    ensures forall days: nat :: MonthAtOffset(when, days) == today.After(days).m
    ensures forall yesterday: Date :: yesterday.Real() && yesterday.Next() == today ==>
              MonthAtOffset(when, -1) == yesterday.m
  {
    forall days: nat
      ensures MonthAtOffset(when, days) == today.After(days).m
    {
      MonthOfLater(today, days);
    }
  }

  // ---------------------------------------------------------------- the timeline

  /** A question: the hours, the weekday (0 = Monday) and the date they are asked for. */
  datatype Asked = Asked(parsed: Parsed, day: int, when: When)
  {
    function MonthOn(k: int): int {
      if k == 0 then when.month else MonthAtOffset(when, k)
    }

    function SpansOn(k: int): seq<Span> {
      SpansOf(parsed.rules, (day + k) % 7, MonthOn(k))
    }

    /** Minute `t` lies in span `s` of day `k`. */
    ghost predicate Holds(k: int, s: Span, t: int) {
      s in SpansOn(k) && k * DAY + s.from <= t < k * DAY + s.to
    }

    ghost predicate OpenAt(t: int) {
      exists k, s :: Holds(k, s, t)
    }

    ghost predicate EndsOn(k: int, minute: int) {
      exists s :: s in SpansOn(k) && s.to == minute
    }

    ghost predicate OpenAllDay(k: int) {
      exists s :: s in SpansOn(k) && s.from == 0 && s.to == DAY
    }

    /** Open at every minute from `a` until just before `b`. */
    ghost predicate OpenThrough(a: int, b: int) {
      forall t :: a <= t < b ==> OpenAt(t)
    }
  }

  lemma ValidOn(asked: Asked, k: int)
    requires asked.parsed.Valid()
    ensures forall s <- asked.SpansOn(k) :: ValidSpan(s)
  {
    SpansAreValid(asked.parsed.rules, (asked.day + k) % 7, asked.MonthOn(k));
  }

  /** A span that holds a minute is one of that minute's day or of the day before. */
  lemma TwoDaysSuffice(asked: Asked, k: int, s: Span, t: int, today: int)
    requires asked.parsed.Valid() && asked.Holds(k, s, t) && today * DAY <= t < (today + 1) * DAY
    ensures k == today || (k == today - 1 && s.to > DAY)
  {
    ValidOn(asked, k);
  }

  // ---------------------------------------------------------------- when an open stretch ends

  function FirstAtMidnight(spans: seq<Span>): Option<Span> {
    if spans == [] then None
    else if spans[0].from == 0 then Some(spans[0])
    else FirstAtMidnight(spans[1..])
  }

  /** The day and the minute of it at which a stretch that reaches `end` of the day before day `i` closes; None: it never does. */
  function Closing(asked: Asked, i: int, end: int): Option<(int, int)>
    requires 1 <= i <= 8
    decreases 8 - i
  {
    if end != DAY then Some((i - 1, end))
    else if i == 8 then None
    else match FirstAtMidnight(asked.SpansOn(i))
      case None => Some((i - 1, DAY))
      case Some(next) => Closing(asked, i + 1, next.to)
  }

  method ClosingAfter(asked: Asked, to: int) returns (r: Option<int>)
    ensures r == match Closing(asked, 1, to) case None => None case Some((_, minute)) => Some(minute)
  {
    var end := to;
    var i := 1;
    while i <= 7 && end == DAY
      invariant 1 <= i <= 8
      invariant Closing(asked, 1, to) == Closing(asked, i, end)
      decreases 8 - i
    {
      var spans := FoldSpans(asked.parsed, (asked.day + i) % 7, MonthAtOffset(asked.when, i));
      var next := FirstAtMidnight(spans);
      if next.None? {
        return Some(end);
      }
      end := next.value.to;
      if end == DAY && i == 7 {
        return None;
      }
      if end != DAY {
        return Some(end);
      }
      i := i + 1;
    }
    r := if end == DAY then None else Some(end);
  }

  lemma {:induction false} FirstAtMidnightFound(spans: seq<Span>)
    ensures match FirstAtMidnight(spans)
            case None => forall s <- spans :: s.from != 0
            case Some(s) => s in spans && s.from == 0
  {
    if spans != [] && spans[0].from != 0 {
      FirstAtMidnightFound(spans[1..]);
    }
  }

  /** The stretch is open up to the moment it is said to close, and that moment is no midnight it runs across. */
  lemma {:induction false} OpenUntilClosing(asked: Asked, i: int, end: int, a: int)
    requires asked.parsed.Valid() && 1 <= i <= 8 && asked.OpenThrough(a, (i - 1) * DAY + end)
    requires end >= 1 && asked.EndsOn(i - 1, end)
    ensures match Closing(asked, i, end)
            case Some((k, minute)) =>
              && asked.EndsOn(k, minute) && i - 1 <= k <= 7 && minute >= 1 && asked.OpenThrough(a, k * DAY + minute)
              && (k == i - 1 ==> minute == end) && (k > i - 1 ==> minute <= DAY)
              && (minute == DAY ==> forall s <- asked.SpansOn(k + 1) :: s.from != 0)
            case None =>
              && end == DAY && asked.OpenThrough(a, 8 * DAY)
              && forall k :: i <= k <= 7 ==> asked.OpenAllDay(k)
    decreases 8 - i
  {
    if end == DAY && i < 8 {
      ValidOn(asked, i);
      FirstAtMidnightFound(asked.SpansOn(i));
      var next := FirstAtMidnight(asked.SpansOn(i));
      if next.Some? {
        forall t | a <= t < i * DAY + next.value.to
          ensures asked.OpenAt(t)
        {
          if t >= i * DAY {
            assert asked.Holds(i, next.value, t);
          }
        }
        OpenUntilClosing(asked, i + 1, next.value.to, a);
        assert next.value.to == DAY ==> asked.OpenAllDay(i);
      }
    }
  }

  // ---------------------------------------------------------------- the verdict

  /** `until` and `opensAt` are minutes of a day; an open place with neither an end nor an open end never closes. */
  datatype Verdict =
    | Unknown
    | IsOpen(until: Option<int>, atLeast: bool, openEnd: bool, holidays: bool)
    | IsClosed(opensAt: Option<int>, holidays: bool)

  function FirstHolding(spans: seq<Span>, minute: int): Option<Span> {
    if spans == [] then None
    else if spans[0].from <= minute < spans[0].to then Some(spans[0])
    else FirstHolding(spans[1..], minute)
  }

  /** The first span of yesterday that runs into this morning and holds `minute` of it. */
  function FirstLate(spans: seq<Span>, minute: int): Option<Span> {
    if spans == [] then None
    else if spans[0].to > DAY && minute < spans[0].to - DAY then Some(spans[0])
    else FirstLate(spans[1..], minute)
  }

  function EarliestAfter(spans: seq<Span>, minute: int): Option<int> {
    if spans == [] then None
    else match EarliestAfter(spans[1..], minute)
      case None => if spans[0].from > minute then Some(spans[0].from) else None
      case Some(t) => if minute < spans[0].from < t then Some(spans[0].from) else Some(t)
  }

  /** A "10:00-23:00+" of today is over: the place may well be open still. */
  predicate InDoubt(spans: seq<Span>, minute: int) {
    exists s :: s in spans && s.kind == Plus && minute >= s.to && minute >= s.from
  }

  function Judge(asked: Asked, minute: int): Verdict {
    var today, holidays := asked.SpansOn(0), asked.parsed.holidays;
    match FirstHolding(today, minute)
    case Some(s) =>
      (match s.kind
       case OpenEnd => IsOpen(None, false, true, holidays)
       case Plus => IsOpen(Some(s.to), true, false, holidays)
       case Normal =>
         var closing := Closing(asked, 1, s.to);
         IsOpen(if closing.None? then None else Some(closing.value.1), false, false, holidays))
    case None =>
      if InDoubt(today, minute) then Unknown
      else match FirstLate(asked.SpansOn(-1), minute)
        case Some(s) => IsOpen(Some(s.to - DAY), false, false, holidays)
        case None => IsClosed(EarliestAfter(today, minute), holidays)
  }

  /** What is said about a text at a minute of a day. */
  ghost function Answer(text: Text, day: int, minute: int, when: When): Verdict {
    match Meaning(text)
    case None => Unknown
    case Some(parsed) => if parsed.UsesMonths() && when.month == 0 then Unknown else Judge(Asked(parsed, day, when), minute)
  }

  method Evaluate(text: Text, day: int, minute: int, when: When) returns (v: Verdict)
    requires 0 <= day < 7
    ensures v == Answer(text, day, minute, when)
  {
    hide Meaning, Closing, SpansOf, EarliestAfter, MonthAtOffset;
    var read := Parse(text);
    if read.None? || (read.value.UsesMonths() && when.month == 0) {
      return Unknown;
    }
    var parsed := read.value;
    var holidays := parsed.holidays;
    ghost var asked := Asked(parsed, day, when);
    var today := FoldSpans(parsed, day, when.month);
    assert today == asked.SpansOn(0);
    for i := 0 to |today|
      invariant FirstHolding(today, minute) == FirstHolding(today[i..], minute)
    {
      var s := today[i];
      assert today[i..][1..] == today[i + 1..];
      if s.from <= minute < s.to {
        if s.kind == OpenEnd {
          return IsOpen(None, false, true, holidays);
        }
        if s.kind == Plus {
          return IsOpen(Some(s.to), true, false, holidays);
        }
        var until := ClosingAfter(Asked(parsed, day, when), s.to);
        return IsOpen(until, false, false, holidays);
      }
    }
    assert FirstHolding(today, minute).None?;
    if InDoubt(today, minute) {
      return Unknown;
    }
    var yesterday := FoldSpans(parsed, (day + 6) % 7, MonthAtOffset(when, -1));
    assert yesterday == asked.SpansOn(-1);
    for i := 0 to |yesterday|
      invariant FirstLate(yesterday, minute) == FirstLate(yesterday[i..], minute)
    {
      var s := yesterday[i];
      assert yesterday[i..][1..] == yesterday[i + 1..];
      if s.to > DAY && minute < s.to - DAY {
        return IsOpen(Some(s.to - DAY), false, false, holidays);
      }
    }
    v := IsClosed(EarliestAfter(today, minute), holidays);
  }

  lemma {:induction false} FirstHoldingFound(spans: seq<Span>, minute: int)
    ensures match FirstHolding(spans, minute)
            case None => forall s <- spans :: !(s.from <= minute < s.to)
            case Some(s) => s in spans && s.from <= minute < s.to
  {
    if spans != [] && !(spans[0].from <= minute < spans[0].to) {
      FirstHoldingFound(spans[1..], minute);
    }
  }

  lemma {:induction false} FirstLateFound(spans: seq<Span>, minute: int)
    ensures match FirstLate(spans, minute)
            case None => forall s <- spans :: !(s.to > DAY && minute < s.to - DAY)
            case Some(s) => s in spans && s.to > DAY && minute < s.to - DAY
  {
    if spans != [] && !(spans[0].to > DAY && minute < spans[0].to - DAY) {
      FirstLateFound(spans[1..], minute);
    }
  }

  lemma {:induction false} EarliestAfterFound(spans: seq<Span>, minute: int)
    ensures match EarliestAfter(spans, minute)
            case None => forall s <- spans :: s.from <= minute
            case Some(t) => t > minute && (exists s <- spans :: s.from == t) && forall s <- spans :: s.from <= minute || t <= s.from
  {
    if spans != [] {
      EarliestAfterFound(spans[1..], minute);
    }
  }

  /** Open or closed is said of exactly the minutes the timeline has open or closed, whatever span says so. */
  lemma OpenIffOnTimeline(asked: Asked, minute: int)
    requires asked.parsed.Valid() && 0 <= minute < DAY && !Judge(asked, minute).Unknown?
    ensures Judge(asked, minute).IsOpen? <==> asked.OpenAt(minute)
  {
    hide Closing, EarliestAfter, SpansOf, ValidSpan;
    FirstHoldingFound(asked.SpansOn(0), minute);
    FirstLateFound(asked.SpansOn(-1), minute);
    LateSpan(asked, minute);
    var today, late := FirstHolding(asked.SpansOn(0), minute), FirstLate(asked.SpansOn(-1), minute);
    if today.Some? {
      assert asked.Holds(0, today.value, minute);
    } else if late.Some? {
      assert asked.Holds(-1, late.value, minute);
    }
    forall k, s | asked.Holds(k, s, minute)
      ensures today.Some? || late.Some?
    {
      TwoDaysSuffice(asked, k, s, minute, 0);
    }
  }

  /** A span of yesterday that runs into this morning started before it. */
  lemma LateSpan(asked: Asked, minute: int)
    requires asked.parsed.Valid() && 0 <= minute
    ensures forall s <- asked.SpansOn(-1) :: s.to > DAY && minute < s.to - DAY ==> asked.Holds(-1, s, minute)
  {
    ValidOn(asked, -1);
  }

  /** A closing time: the place is open at every minute until then, on the day it closes. */
  lemma OpenUntilSaid(asked: Asked, minute: int) returns (k: int)
    requires asked.parsed.Valid() && 0 <= minute < DAY
    requires Judge(asked, minute).IsOpen? && Judge(asked, minute).until.Some?
    ensures 0 <= k <= 7
    ensures var closes := k * DAY + Judge(asked, minute).until.value;
            minute < closes && asked.OpenThrough(minute, closes)
  {
    hide EarliestAfter, SpansOf;
    FirstHoldingFound(asked.SpansOn(0), minute);
    FirstLateFound(asked.SpansOn(-1), minute);
    ValidOn(asked, 0);
    var today := FirstHolding(asked.SpansOn(0), minute);
    k := 0;
    if today.Some? {
      OpenWithin(asked, 0, today.value, minute);
      OpenUntilClosing(asked, 1, today.value.to, minute);
      if today.value.kind == Normal {
        k := Closing(asked, 1, today.value.to).value.0;
      }
    } else {
      LateSpan(asked, minute);
      OpenWithin(asked, -1, FirstLate(asked.SpansOn(-1), minute).value, minute);
    }
  }

  lemma OpenWithin(asked: Asked, k: int, s: Span, t: int)
    requires asked.Holds(k, s, t)
    ensures asked.OpenThrough(t, k * DAY + s.to)
  {
    forall u | t <= u < k * DAY + s.to
      ensures asked.OpenAt(u)
    {
      assert asked.Holds(k, s, u);
    }
  }

  /** No closing time given: the place opens without a stated end, or is open for the next seven days. */
  lemma OpenWithoutEnd(asked: Asked, minute: int)
    requires asked.parsed.Valid() && 0 <= minute < DAY
    requires Judge(asked, minute).IsOpen? && Judge(asked, minute).until.None?
    ensures Judge(asked, minute).openEnd ==> asked.OpenThrough(minute, DAY)
    ensures !Judge(asked, minute).openEnd ==>
              asked.OpenThrough(minute, 8 * DAY) && forall k :: 1 <= k <= 7 ==> asked.OpenAllDay(k)
  {
    hide EarliestAfter, SpansOf;
    FirstHoldingFound(asked.SpansOn(0), minute);
    ValidOn(asked, 0);
    var s := FirstHolding(asked.SpansOn(0), minute).value;
    OpenWithin(asked, 0, s, minute);
    OpenUntilClosing(asked, 1, s.to, minute);
  }

  /** Without months a day is like the same weekday of any other week. */
  lemma {:induction false} SpansWithoutMonths(rules: seq<Rule>, day: int, month: int, other: int)
    requires forall r <- rules :: r.months.None?
    ensures SpansOf(rules, day, month) == SpansOf(rules, day, other)
  {
    if rules != [] {
      SpansWithoutMonths(rules[..|rules| - 1], day, month, other);
    }
  }

  /** Closed: so it stays until the time it is said to open, or until midnight when none is given. */
  lemma ClosedUntilSaid(asked: Asked, minute: int)
    requires asked.parsed.Valid() && 0 <= minute < DAY && Judge(asked, minute).IsClosed?
    ensures match Judge(asked, minute).opensAt
            case None => forall t :: minute <= t < DAY ==> !asked.OpenAt(t)
            case Some(opens) =>
              minute < opens < DAY && asked.OpenAt(opens) && forall t :: minute <= t < opens ==> !asked.OpenAt(t)
  {
    hide Closing, SpansOf;
    FirstHoldingFound(asked.SpansOn(0), minute);
    FirstLateFound(asked.SpansOn(-1), minute);
    EarliestAfterFound(asked.SpansOn(0), minute);
    ValidOn(asked, 0);
    var opens := EarliestAfter(asked.SpansOn(0), minute);
    if opens.Some? {
      var s :| s in asked.SpansOn(0) && s.from == opens.value;
      assert asked.Holds(0, s, opens.value);
    }
    forall t | minute <= t < DAY && asked.OpenAt(t)
      ensures opens.Some? && opens.value <= t
    {
      var k, s :| asked.Holds(k, s, t);
      TwoDaysSuffice(asked, k, s, t, 0);
    }
  }

  // ---------------------------------------------------------------- what the verdict does not say

  /** Every day in January, asked on Monday the 20th: said to be open around the clock, closed on 1 February. */
  lemma AroundTheClockEndsWithTheMonth()
    ensures var january := Asked(Parsed([Rule(Some({1}), WEEK, [Span(0, DAY, Normal)], false)], false), 0, When(1, Some((2025, 20))));
            && january.parsed.Valid()
            && Judge(january, 600) == IsOpen(None, false, false, false)
            && !january.OpenAt(12 * DAY)
  {
    var january := Asked(Parsed([Rule(Some({1}), WEEK, [Span(0, DAY, Normal)], false)], false), 0, When(1, Some((2025, 20))));
    forall k | 0 <= k <= 12
      ensures january.SpansOn(k) == if k == 12 then [] else [Span(0, DAY, Normal)]
    {
      OnlyInJanuary(k);
    }
    forall i | 1 <= i <= 7
      ensures FirstAtMidnight(january.SpansOn(i)) == Some(Span(0, DAY, Normal))
    {
    }
    NeverCloses(january, 1);
    assert january.SpansOn(11)[0].to == DAY;
    if january.OpenAt(12 * DAY) {
      var k, s :| january.Holds(k, s, 12 * DAY);
      TwoDaysSuffice(january, k, s, 12 * DAY, 12);
      assert false;
    }
  }

  lemma OnlyInJanuary(k: int)
    requires 0 <= k <= 12
    ensures var parsed := Parsed([Rule(Some({1}), WEEK, [Span(0, DAY, Normal)], false)], false);
            var spans := Asked(parsed, 0, When(1, Some((2025, 20)))).SpansOn(k);
            if k == 12 then spans == [] else spans == [Span(0, DAY, Normal)]
  {
    var rules := [Rule(Some({1}), WEEK, [Span(0, DAY, Normal)], false)];
    assert rules[..0] == [];
    assert (0 + k) % 7 in WEEK;
    assert MonthOf(2025, 1, 20 + k) == if k == 12 then 2 else 1;
    var asked := Asked(Parsed(rules, false), 0, When(1, Some((2025, 20))));
    assert asked.MonthOn(k) == if k == 12 then 2 else 1;
    assert SpansOf(rules[..0], (0 + k) % 7, asked.MonthOn(k)) == [];
  }

  lemma {:induction false} NeverCloses(asked: Asked, i: int)
    requires 1 <= i <= 8
    requires forall j :: i <= j <= 7 ==> FirstAtMidnight(asked.SpansOn(j)) == Some(Span(0, DAY, Normal))
    ensures Closing(asked, i, DAY) == None
    decreases 8 - i
  {
    if i < 8 {
      NeverCloses(asked, i + 1);
    }
  }

  /** "10:00-12:00,11:00-18:00" at 11:30: said to close at noon, when it stays open until six. */
  lemma OverlapClosesTooEarly()
    ensures var spans := [Span(600, 720, Normal), Span(660, 1080, Normal)];
            var asked := Asked(Parsed([Rule(None, WEEK, spans, false)], false), 0, When(0, None));
            asked.parsed.Valid() && Judge(asked, 690) == IsOpen(Some(720), false, false, false) && asked.OpenThrough(690, 1080)
  {
    var spans := [Span(600, 720, Normal), Span(660, 1080, Normal)];
    var rule := Rule(None, WEEK, spans, false);
    var asked := Asked(Parsed([rule], false), 0, When(0, None));
    assert asked.SpansOn(0) == spans by { assert [rule][..0] == []; }
    assert asked.Holds(0, spans[1], 690);
    OpenWithin(asked, 0, spans[1], 690);
  }
}
