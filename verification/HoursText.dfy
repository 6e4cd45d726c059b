/**
 What a text of opening hours says, read off its words (frontend/hours.js): which texts are understood,
 which minutes of the timeline they open, and when there is a verdict. Times of day are also read from
 and written as text.
 */
module HoursText {
  import opened Common
  import opened OpeningHours

  // ------------------------------------------------------------------ times of day as text

  predicate Digit(c: char) {
    '0' <= c <= '9'
  }

  function Value(c: char): nat
    requires Digit(c)
  {
    (c - '0') as nat
  }

  function DigitOf(n: nat): char
    requires n < 10
  {
    '0' + n as char
  }

  /** Two digits, the first of them 0 where one would do. */
  function Two(n: nat): string
    requires n < 100
  {
    [DigitOf(n / 10), DigitOf(n % 10)]
  }

  /** `clock`: a minute of the day or of the next, as it is shown. */
  function ClockText(minute: nat): string {
    Two(minute % DAY / 60) + ":" + Two(minute % DAY % 60)
  }

  /** One or two digits, a colon, two digits. */
  function ReadClock(s: string): Option<Clock> {
    if |s| == 5 && Digit(s[0]) && Digit(s[1]) && s[2] == ':' && Digit(s[3]) && Digit(s[4]) then
      Some(Clock(10 * Value(s[0]) + Value(s[1]), 10 * Value(s[3]) + Value(s[4])))
    else if |s| == 4 && Digit(s[0]) && s[1] == ':' && Digit(s[2]) && Digit(s[3]) then
      Some(Clock(Value(s[0]), 10 * Value(s[2]) + Value(s[3])))
    else None
  }

  lemma TwoIsRead(n: nat)
    requires n < 100
    ensures |Two(n)| == 2 && Digit(Two(n)[0]) && Digit(Two(n)[1]) && 10 * Value(Two(n)[0]) + Value(Two(n)[1]) == n
  {
  }

  /** Main result: every minute of a day, as it is shown, is read as that minute, as a start and as an end. */
  lemma ShownIsRead(minute: nat)
    requires minute < DAY
    ensures var clock := ReadClock(ClockText(minute));
            clock.Some? && Minutes(clock.value, false) == Some(minute) && Minutes(clock.value, true) == Some(minute)
  {
    HoursAndMinutes(minute);
    var h, m := minute / 60, minute % 60;
    TwoIsRead(h);
    TwoIsRead(m);
    hide Two;
    assert ClockText(minute) == Two(h) + ":" + Two(m);
    assert ReadClock(Two(h) + ":" + Two(m)) == Some(Clock(h, m));
  }

  lemma HoursAndMinutes(minute: nat)
    requires minute < DAY
    ensures minute % DAY == minute && minute / 60 < 24 && minute == minute / 60 * 60 + minute % 60
  {
  }

  /** A moment past midnight is shown as the time of the next day. */
  lemma ShownPastMidnight(minute: nat)
    ensures ClockText(minute + DAY) == ClockText(minute)
  {
    assert (minute + DAY) % DAY == minute % DAY;
  }

  // ------------------------------------------------------------------ times of day as words

  predicate TimeOfDay(c: Clock) {
    c.hours < 24 && c.minutes < 60
  }

  /** As an end also 24:00. */
  predicate EndOfDay(c: Clock) {
    TimeOfDay(c) || c == Clock(24, 0)
  }

  function MinuteOf(c: Clock): int {
    60 * c.hours + c.minutes
  }

  lemma MinutesAre(c: Clock)
    ensures Minutes(c, false) == if TimeOfDay(c) then Some(MinuteOf(c)) else None
    ensures Minutes(c, true) == if EndOfDay(c) then Some(MinuteOf(c)) else None
  {
  }

  /** The times make sense, and a plus stands behind an end of the same day. */
  predicate Sensible(item: TimeItem) {
    match item
    case From(from) => TimeOfDay(from)
    case Between(from, to, plus) =>
      TimeOfDay(from) && EndOfDay(to) && MinuteOf(from) != MinuteOf(to) && (plus ==> MinuteOf(from) < MinuteOf(to))
  }

  /** Minute `x` of the day lies within the item; minutes past 1440 are of the next morning. */
  predicate WithinItem(item: TimeItem, x: int) {
    match item
    case From(from) => MinuteOf(from) <= x < 1440
    case Between(from, to, _) =>
      if MinuteOf(from) < MinuteOf(to) then MinuteOf(from) <= x < MinuteOf(to)
      else MinuteOf(from) <= x < 1440 || 1440 <= x < 1440 + MinuteOf(to)
  }

  lemma ItemIs(item: TimeItem)
    ensures SpanOf(item).Some? <==> Sensible(item)
    ensures Sensible(item) ==> forall x :: SpanOf(item).value.from <= x < SpanOf(item).value.to <==> WithinItem(item, x)
    ensures Sensible(item) ==>
              SpanOf(item).value.kind == (if item.From? then OpenEnd else if item.plus then Plus else Normal)
  {
    match item
    case From(from) => MinutesAre(from);
    case Between(from, to, plus) =>
      MinutesAre(from);
      MinutesAre(to);
  }

  // ------------------------------------------------------------------ days, months and hours of a rule

  /** From `from` on to `to`, past the end of the week or the year when `to` comes before. */
  predicate Round(from: int, to: int, x: int) {
    if from <= to then from <= x <= to else x >= from || x <= to
  }

  lemma RoundIs(from: int, to: int, x: int, n: int)
    requires 0 <= from < n && 0 <= to < n && 0 <= x < n
    ensures InCycle(x, from, to, n) <==> Round(from, to, x)
  {
  }

  predicate SaysDay(item: Range<DayWord>, d: int) {
    match item
    case One(word) => word.Weekday? && d == word.index
    case FromTo(from, to) => from.Weekday? && to.Weekday? && Round(from.index, to.index, d)
  }

  /** Months count from 1, their names from 0. */
  predicate SaysMonth(item: Range<MonthIndex>, m: int) {
    match item
    case One(month) => m == month + 1
    case FromTo(from, to) => Round(from + 1, to + 1, m)
  }

  predicate RuleCovers(text: RuleText, d: int, m: int) {
    && (text.days.Some? ==> exists i :: 0 <= i < |text.days.value| && SaysDay(text.days.value[i], d))
    && (text.months.Some? ==> exists i :: 0 <= i < |text.months.value| && SaysMonth(text.months.value[i], m))
  }

  predicate HoursHold(hours: Hours, x: int) {
    match hours
    case Times(items) => exists i :: 0 <= i < |items| && WithinItem(items[i], x)
    case Open => 0 <= x < 1440
    case Closed => false
  }

  /** No range ends in a holiday, and all times make sense. */
  predicate Understandable(text: RuleText) {
    && (text.days.Some? ==> forall i :: 0 <= i < |text.days.value| && text.days.value[i].FromTo? ==>
          text.days.value[i].from.Weekday? && text.days.value[i].to.Weekday?)
    && (text.hours.Times? ==> forall i :: 0 <= i < |text.hours.items| ==> Sensible(text.hours.items[i]))
  }

  predicate SaysHolidays(text: RuleText) {
    text.days.Some? && One(Holiday) in text.days.value
  }

  lemma DaysAre(items: seq<Range<DayWord>>, d: int)
    requires 0 <= d < 7
    ensures DaysOf(items).Some? <==>
            forall i :: 0 <= i < |items| && items[i].FromTo? ==> items[i].from.Weekday? && items[i].to.Weekday?
    ensures DaysOf(items).Some? ==>
              (d in DaysOf(items).value.0 <==> exists i :: 0 <= i < |items| && SaysDay(items[i], d))
  {
    forall i | 0 <= i < |items|
      ensures NamesDay(items[i], d) <==> SaysDay(items[i], d)
      ensures MeansNothing(items[i]) <==> items[i].FromTo? && !(items[i].from.Weekday? && items[i].to.Weekday?)
    {
      if items[i].FromTo? && items[i].from.Weekday? && items[i].to.Weekday? {
        RoundIs(items[i].from.index, items[i].to.index, d, 7);
      }
    }
  }

  lemma MonthsAre(items: seq<Range<MonthIndex>>, m: int)
    requires 1 <= m <= 12
    ensures m in MonthsOf(items) <==> exists i :: 0 <= i < |items| && SaysMonth(items[i], m)
  {
    forall i | 0 <= i < |items| ensures NamesMonth(items[i], m) <==> SaysMonth(items[i], m) {
      RoundIs(items[i].from, if items[i].One? then items[i].from else items[i].to, m - 1, 12);
    }
  }

  lemma TimesAre(items: seq<TimeItem>)
    ensures TimesOf(items).Some? <==> forall i :: 0 <= i < |items| ==> Sensible(items[i])
    ensures TimesOf(items).Some? ==>
              && |TimesOf(items).value| == |items|
              && forall i :: 0 <= i < |items| ==> SpanOf(items[i]) == Some(TimesOf(items).value[i])
  {
    forall i | 0 <= i < |items| ensures SpanOf(items[i]).Some? <==> Sensible(items[i]) {
      ItemIs(items[i]);
    }
  }

  /** Some span of the list holds the minute of the day. */
  predicate SpansHold(spans: seq<Span>, x: int) {
    exists s :: s in spans && s.from <= x < s.to
  }

  lemma HoursAre(items: seq<TimeItem>, x: int)
    requires TimesOf(items).Some?
    ensures SpansHold(TimesOf(items).value, x) <==> HoursHold(Times(items), x)
  {
    TimesAre(items);
    var spans := TimesOf(items).value;
    hide TimesOf;
    forall i | 0 <= i < |items| ensures spans[i].from <= x < spans[i].to <==> WithinItem(items[i], x) {
      ItemIs(items[i]);
    }
    if SpansHold(spans, x) {
      var s :| s in spans && s.from <= x < s.to;
      var i :| 0 <= i < |spans| && spans[i] == s;
      assert WithinItem(items[i], x);
    }
    if HoursHold(Times(items), x) {
      var i :| 0 <= i < |items| && WithinItem(items[i], x);
      assert spans[i] in spans;
    }
  }

  lemma RuleIs(text: RuleText, additive: bool, d: int, m: int, x: int)
    requires 0 <= d < 7 && (text.months.Some? ==> 1 <= m <= 12)
    ensures RuleOf(text, additive).Some? <==> Understandable(text)
    ensures Understandable(text) ==>
              var read := RuleOf(text, additive).value;
              && read.rule.additive == additive && (read.holidays <==> SaysHolidays(text))
              && (Applies(read.rule, d, m) <==> RuleCovers(text, d, m))
              && (SpansHold(read.rule.spans, x) <==> HoursHold(text.hours, x))
              && (read.rule.months.Some? <==> text.months.Some?)
  {
    if text.days.Some? {
      DaysAre(text.days.value, d);
    }
    if text.months.Some? {
      MonthsAre(text.months.value, m);
    }
    if text.hours.Times? {
      TimesAre(text.hours.items);
      if TimesOf(text.hours.items).Some? {
        HoursAre(text.hours.items, x);
      }
    } else if text.hours.Open? {
      var all := [Span(0, DAY, Normal)];
      assert SpansHold(all, x) <==> all[0].from <= x < all[0].to;
    }
    hide SaysDay, SaysMonth, MonthsOf, TimesOf, Sensible, WithinItem, NamedDay;
  }

  // ------------------------------------------------------------------ the rules of a text

  type Pieces = seq<(Option<RuleText>, bool)>

  /** The rule decides for the day: it covers it, and what covers it after that only adds. */
  predicate Decides(rules: seq<Rule>, i: nat, d: int, m: int) {
    && i < |rules| && Applies(rules[i], d, m)
    && forall j :: i < j < |rules| && Applies(rules[j], d, m) ==> rules[j].additive
  }

  lemma {:induction false} SpansAreOfDeciding(rules: seq<Rule>, d: int, m: int, s: Span)
    ensures s in SpansOf(rules, d, m) <==> exists i: nat :: Decides(rules, i, d, m) && s in rules[i].spans
  {
    hide Applies;
    if rules != [] {
      var n := |rules| - 1;
      var before := rules[..n];
      SpansAreOfDeciding(before, d, m, s);
      forall i: nat | i < n ensures Decides(rules, i, d, m) <==>
        Decides(before, i, d, m) && (Applies(rules[n], d, m) ==> rules[n].additive)
      {
        assert rules[i] == before[i];
      }
      if Applies(rules[n], d, m) && s in rules[n].spans {
        assert Decides(rules, n, d, m);
      }
    }
  }

  /** In the words of the text: the i-th rule covers the day, and those after it that cover it only add. */
  predicate Says(pieces: Pieces, i: nat, d: int, m: int)
    requires forall j :: 0 <= j < |pieces| ==> pieces[j].0.Some?
  {
    && i < |pieces| && RuleCovers(pieces[i].0.value, d, m)
    && forall j :: i < j < |pieces| && RuleCovers(pieces[j].0.value, d, m) ==> pieces[j].1
  }

  predicate AllUnderstandable(pieces: Pieces) {
    forall i :: 0 <= i < |pieces| ==> pieces[i].0.Some? && Understandable(pieces[i].0.value)
  }

  lemma PiecesAre(pieces: Pieces)
    ensures RulesOf(pieces).Some? <==> AllUnderstandable(pieces)
    ensures RulesOf(pieces).Some? ==>
              && |RulesOf(pieces).value.rules| == |pieces|
              && (forall i :: 0 <= i < |pieces| ==>
                    && RuleOf(pieces[i].0.value, pieces[i].1).Some?
                    && RulesOf(pieces).value.rules[i] == RuleOf(pieces[i].0.value, pieces[i].1).value.rule)
              && (RulesOf(pieces).value.holidays <==> exists i :: 0 <= i < |pieces| && SaysHolidays(pieces[i].0.value))
              && (RulesOf(pieces).value.UsesMonths() <==> exists i :: 0 <= i < |pieces| && pieces[i].0.value.months.Some?)
  {
    hide RuleOf, Understandable, SaysHolidays;
    forall i | 0 <= i < |pieces| && pieces[i].0.Some?
      ensures RuleOf(pieces[i].0.value, pieces[i].1).Some? <==> Understandable(pieces[i].0.value)
      ensures RuleOf(pieces[i].0.value, pieces[i].1).Some? ==>
                && (RuleOf(pieces[i].0.value, pieces[i].1).value.holidays <==> SaysHolidays(pieces[i].0.value))
                && (RuleOf(pieces[i].0.value, pieces[i].1).value.rule.months.Some? <==> pieces[i].0.value.months.Some?)
    {
      RuleIs(pieces[i].0.value, pieces[i].1, 0, 1, 0);
    }
    forall i | 0 <= i < |pieces| ensures Readable(pieces[i]) <==> pieces[i].0.Some? && Understandable(pieces[i].0.value) {
    }
  }

  lemma {:induction false} PiecesBefore(parts: seq<seq<Option<RuleText>>>, a: nat, b: nat) returns (i: nat)
    requires a < |parts| && b < |parts[a]|
    ensures i < |Listed(parts)| && Listed(parts)[i] == (parts[a][b], b > 0)
    ensures i == |Flatten(parts[..a])| + b
  {
    if a == 0 {
      i := b;
      assert parts[..0] == [];
    } else {
      var rest := PiecesBefore(parts[1..], a - 1, b);
      i := |parts[0]| + rest;
      assert parts[..a][0] == parts[0] && parts[..a][1..] == parts[1..][..a - 1];
    }
  }

  lemma {:induction false} PiecesAreAll(parts: seq<seq<Option<RuleText>>>)
    ensures |Listed(parts)| == |Flatten(parts)|
  {
    if parts != [] {
      PiecesAreAll(parts[1..]);
    }
  }

  /** The b-th piece of the a-th part comes behind all pieces of the parts before, and adds unless it is the first. */
  predicate ComesAs(parts: seq<seq<Option<RuleText>>>, a: nat, b: nat)
    requires a < |parts| && b < |parts[a]|
  {
    var i := |Flatten(parts[..a])| + b;
    i < |Listed(parts)| && Listed(parts)[i] == (parts[a][b], b > 0)
  }

  /**
   Main result: the rules of a text are those between semicolons and commas in their order; behind a
   semicolon a rule replaces, behind a comma it adds.
   */
  lemma RulesAreListed(parts: seq<seq<Option<RuleText>>>)
    ensures |Listed(parts)| == |Flatten(parts)|
    ensures forall a: nat, b: nat :: a < |parts| && b < |parts[a]| ==> ComesAs(parts, a, b)
  {
    PiecesAreAll(parts);
    forall a: nat, b: nat | a < |parts| && b < |parts[a]| ensures ComesAs(parts, a, b) {
      var i := PiecesBefore(parts, a, b);
    }
  }

  /**
   Main result: a text is understood if and only if it has a rule, every piece is one, no range of days
   ends in a holiday, and all its times make sense.
   */
  lemma UnderstoodIff(parts: seq<seq<Option<RuleText>>>)
    ensures Meaning(Rules(parts)).Some? <==> Listed(parts) != [] && AllUnderstandable(Listed(parts))
    ensures Meaning(Unreadable).None? && Meaning(Always).Some?
  {
    hide Listed, RulesOf;
    PiecesAre(Listed(parts));
  }

  // ------------------------------------------------------------------ the minutes a text opens

  lemma {:induction false} MonthIsOfYear(y: int, m: int, d: int)
    requires 1 <= m <= 12
    ensures 1 <= MonthOf(y, m, d) <= 12
    decreases if d < 1 then 100 - d else d
  {
    hide DaysIn;
    if d < 1 {
      var (y', m') := if m == 1 then (y - 1, 12) else (y, m - 1);
      MonthIsOfYear(y', m', d + DaysIn(y', m'));
    } else if d > DaysIn(y, m) {
      var (y', m') := if m == 12 then (y + 1, 1) else (y, m + 1);
      MonthIsOfYear(y', m', d - DaysIn(y, m));
    }
  }

  /** The month is known, or no rule asks for it. */
  predicate Asks(asked: Asked) {
    1 <= asked.when.month <= 12 || !asked.parsed.UsesMonths()
  }

  lemma MonthsOfAsked(asked: Asked, k: int)
    requires 1 <= asked.when.month <= 12
    ensures 1 <= asked.MonthOn(k) <= 12
  {
    if asked.when.date.Some? {
      MonthIsOfYear(UtcYear(asked.when.date.value.0), asked.when.month, asked.when.date.value.1 + k);
    }
  }

  lemma DecidesAsSaid(pieces: Pieces, i: nat, d: int, m: int)
    requires RulesOf(pieces).Some? && AllUnderstandable(pieces) && 0 <= d < 7
    requires 1 <= m <= 12 || !RulesOf(pieces).value.UsesMonths()
    ensures Decides(RulesOf(pieces).value.rules, i, d, m) <==> Says(pieces, i, d, m)
  {
    PiecesAre(pieces);
    var rules := RulesOf(pieces).value.rules;
    hide RulesOf, RuleOf, Understandable, RuleCovers, Applies;
    forall j | 0 <= j < |pieces|
      ensures Applies(rules[j], d, m) <==> RuleCovers(pieces[j].0.value, d, m)
      ensures rules[j].additive == pieces[j].1
    {
      RuleIs(pieces[j].0.value, pieces[j].1, d, m, 0);
    }
  }

  /** A rule of the text decides for day `k` and its hours hold the minute. */
  predicate Opens(pieces: Pieces, asked: Asked, k: int, i: nat, t: int)
    requires forall j :: 0 <= j < |pieces| ==> pieces[j].0.Some?
  {
    Says(pieces, i, (asked.day + k) % 7, asked.MonthOn(k)) && HoursHold(pieces[i].0.value.hours, t - 1440 * k)
  }

  /** The i-th rule decides and its spans hold the minute of the day, as its words say. */
  lemma RuleOpensAsSaid(pieces: Pieces, asked: Asked, k: int, i: nat, t: int)
    requires AllUnderstandable(pieces) && RulesOf(pieces) == Some(asked.parsed) && Asks(asked)
    ensures (Decides(asked.parsed.rules, i, (asked.day + k) % 7, asked.MonthOn(k))
             && SpansHold(asked.parsed.rules[i].spans, t - 1440 * k)) <==> Opens(pieces, asked, k, i, t)
  {
    var d, m, rules := (asked.day + k) % 7, asked.MonthOn(k), asked.parsed.rules;
    if 1 <= asked.when.month <= 12 {
      MonthsOfAsked(asked, k);
    }
    PiecesAre(pieces);
    hide Asked.MonthOn, RulesOf, RuleOf, Understandable, HoursHold, RuleCovers, Applies;
    DecidesAsSaid(pieces, i, d, m);
    if i < |pieces| {
      RuleIs(pieces[i].0.value, pieces[i].1, d, m, t - 1440 * k);
    }
  }

  lemma HeldIsSaid(pieces: Pieces, asked: Asked, k: int, s: Span, t: int) returns (i: nat)
    requires AllUnderstandable(pieces) && RulesOf(pieces) == Some(asked.parsed) && Asks(asked) && asked.Holds(k, s, t)
    ensures Opens(pieces, asked, k, i, t)
  {
    hide Asked.MonthOn, RulesOf, SpansOf, Applies, Opens, Asks, AllUnderstandable;
    var d, m, rules := (asked.day + k) % 7, asked.MonthOn(k), asked.parsed.rules;
    SpansAreOfDeciding(rules, d, m, s);
    i :| Decides(rules, i, d, m) && s in rules[i].spans;
    assert SpansHold(rules[i].spans, t - 1440 * k);
    RuleOpensAsSaid(pieces, asked, k, i, t);
  }

  lemma SaidIsHeld(pieces: Pieces, asked: Asked, k: int, i: nat, t: int) returns (s: Span)
    requires AllUnderstandable(pieces) && RulesOf(pieces) == Some(asked.parsed) && Asks(asked)
    requires Opens(pieces, asked, k, i, t)
    ensures asked.Holds(k, s, t)
  {
    hide Asked.MonthOn, RulesOf, SpansOf, Opens, Asks, AllUnderstandable, Applies;
    var d, m, rules := (asked.day + k) % 7, asked.MonthOn(k), asked.parsed.rules;
    RuleOpensAsSaid(pieces, asked, k, i, t);
    s :| s in rules[i].spans && s.from <= t - 1440 * k < s.to;
    SpansAreOfDeciding(rules, d, m, s);
  }

  /**
   Main result: on the timeline a text opens exactly the minutes its words say. A minute is open if and
   only if, on some day, a rule that covers the day, and is not replaced by a later one that does, has
   hours that hold it: from "a" to "b" of that day, or to "b" of the next morning when "b" is no later.
   */
  lemma OpenAsSaid(parts: seq<seq<Option<RuleText>>>, day: int, when: When, t: int)
    requires var meaning := Meaning(Rules(parts)); meaning.Some? && Asks(Asked(meaning.value, day, when))
    ensures AllUnderstandable(Listed(parts))
    ensures var asked := Asked(Meaning(Rules(parts)).value, day, when);
            asked.OpenAt(t) <==> exists k: int, i: nat :: Opens(Listed(parts), asked, k, i, t)
  {
    UnderstoodIff(parts);
    var pieces, asked := Listed(parts), Asked(Meaning(Rules(parts)).value, day, when);
    assert RulesOf(pieces) == Some(asked.parsed);
    hide Listed, RulesOf, Opens, Asked.Holds, AllUnderstandable, Asks;
    PiecesAre(pieces);
    if asked.OpenAt(t) {
      var k, s :| asked.Holds(k, s, t);
      var i := HeldIsSaid(pieces, asked, k, s, t);
    }
    if k: int, i: nat :| Opens(pieces, asked, k, i, t) {
      var s := SaidIsHeld(pieces, asked, k, i, t);
    }
  }

  // ------------------------------------------------------------------ when there is a verdict

  predicate HasPlus(text: RuleText) {
    text.hours.Times? && exists i :: 0 <= i < |text.hours.items| && text.hours.items[i].Between? && text.hours.items[i].plus
  }

  /**
   Main result: no verdict is given exactly where the text is not understood, its months are not known, or an end
   is open.
   */
  lemma UnknownIff(text: Text, day: int, minute: int, when: When)
    ensures Answer(text, day, minute, when).Unknown? <==>
            || Meaning(text).None?
            || (Meaning(text).value.UsesMonths() && when.month == 0)
            || (var spans := Asked(Meaning(text).value, day, when).SpansOn(0);
                && (forall s :: s in spans ==> !(s.from <= minute < s.to))
                && exists s :: s in spans && s.kind == Plus && minute >= s.to)
  {
    MeaningIsValid(text);
    hide Meaning, SpansOf, EarliestAfter, Closing;
    if Meaning(text).Some? {
      ValidOn(Asked(Meaning(text).value, day, when), 0);
      FirstHoldingFound(Asked(Meaning(text).value, day, when).SpansOn(0), minute);
    }
  }

  lemma {:induction false} SpansHaveKind(rules: seq<Rule>, d: int, m: int)
    requires forall i, s :: 0 <= i < |rules| && s in rules[i].spans ==> s.kind != Plus
    ensures forall s :: s in SpansOf(rules, d, m) ==> s.kind != Plus
  {
    if rules != [] {
      SpansHaveKind(rules[..|rules| - 1], d, m);
    }
  }

  lemma PlusIsWritten(text: RuleText, additive: bool)
    requires RuleOf(text, additive).Some? && !HasPlus(text)
    ensures forall s :: s in RuleOf(text, additive).value.rule.spans ==> s.kind != Plus
  {
    if text.hours.Times? {
      TimesAre(text.hours.items);
      forall i | 0 <= i < |text.hours.items| ensures SpanOf(text.hours.items[i]).value.kind != Plus {
        ItemIs(text.hours.items[i]);
      }
    }
    hide TimesOf, DaysOf, MonthsOf;
  }

  /** So hours that are understood and have no plus always get an answer, asked with a month where they name months. */
  lemma AlwaysAnswered(parts: seq<seq<Option<RuleText>>>, day: int, minute: int, when: When)
    requires Meaning(Rules(parts)).Some? && (Meaning(Rules(parts)).value.UsesMonths() ==> when.month != 0)
    requires forall a, b :: 0 <= a < |Listed(parts)| && b == Listed(parts)[a].0 && b.Some? ==> !HasPlus(b.value)
    ensures !Answer(Rules(parts), day, minute, when).Unknown?
  {
    UnknownIff(Rules(parts), day, minute, when);
    var pieces, parsed := Listed(parts), Meaning(Rules(parts)).value;
    PiecesAre(pieces);
    assert RulesOf(pieces) == Some(parsed);
    hide Listed, RulesOf, RuleOf, Answer, HasPlus, Meaning, AllUnderstandable;
    forall i, s | 0 <= i < |parsed.rules| && s in parsed.rules[i].spans ensures s.kind != Plus {
      var piece := pieces[i].0;
      PlusIsWritten(piece.value, pieces[i].1);
    }
    SpansHaveKind(parsed.rules, day % 7, when.month);
  }
}
