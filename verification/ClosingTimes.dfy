/**
 Which closing times are the first closed minute (frontend/hours.js). The code takes the first span
 that holds the minute asked about and follows it over midnights; another span may go on where the
 last one it takes ends. The result names the spans the code can end with and says exactly when all
 closing times of a day are right.
 */
module ClosingTimes {
  import opened Common
  import opened OpeningHours

  // ------------------------------------------------------------------ the spans an answer can use

  /** The minute is answered by this span of today, and its end is looked for. */
  predicate Starts(asked: Asked, minute: int, s: Span) {
    0 <= minute < DAY && FirstHolding(asked.SpansOn(0), minute) == Some(s) && s.kind == Normal
  }

  /** The minute is answered by this late span of yesterday. */
  predicate Lasts(asked: Asked, minute: int, s: Span) {
    && 0 <= minute < DAY
    && FirstHolding(asked.SpansOn(0), minute).None? && !InDoubt(asked.SpansOn(0), minute)
    && FirstLate(asked.SpansOn(-1), minute) == Some(s)
  }

  /** Some answer takes span `s` of day `k`: a late one, a first one, or one that begins where another ends. */
  ghost predicate Chosen(asked: Asked, k: int, s: Span)
    decreases k, 1
  {
    if k < 0 then k == -1 && exists minute :: Lasts(asked, minute, s)
    else if k == 0 then exists minute :: Starts(asked, minute, s)
    else k <= 7 && FirstAtMidnight(asked.SpansOn(k)) == Some(s) && exists before :: ChosenBefore(asked, k, before)
  }

  /** A chosen span of the day before that ends at midnight. */
  ghost predicate ChosenBefore(asked: Asked, k: int, s: Span)
    decreases k, 0
  {
    k >= 1 && Chosen(asked, k - 1, s) && s.to == DAY
  }

  /** The answer ends with this span: it does not end at midnight, or nothing begins there. */
  predicate Ends(asked: Asked, k: int, s: Span) {
    s.to != DAY || (k < 7 && FirstAtMidnight(asked.SpansOn(k + 1)).None?)
  }

  /** No span of its day, the one before or the one after holds the minute at which the span ends. */
  predicate NoneGoesOn(asked: Asked, k: int, s: Span) {
    && (forall o :: o in asked.SpansOn(k) ==> !(o.from <= s.to < o.to))
    && (s.to >= DAY ==> forall o :: o in asked.SpansOn(k + 1) ==> !(o.from <= s.to - DAY < o.to))
    && (s.to < DAY ==> forall o :: o in asked.SpansOn(k - 1) ==> !(s.to < o.to - DAY))
  }

  // ------------------------------------------------------------------ the moment of closing

  /** The answer gives a closing time that is meant to be one. */
  predicate GivesClosing(asked: Asked, minute: int) {
    var v := Judge(asked, minute);
    0 <= minute < DAY && v.IsOpen? && v.until.Some? && !v.atLeast
  }

  /** The moment meant, in minutes from the start of today. */
  function Moment(asked: Asked, minute: int): int
    requires GivesClosing(asked, minute)
  {
    var today := FirstHolding(asked.SpansOn(0), minute);
    if today.Some? then
      var closing := Closing(asked, 1, today.value.to).value;
      closing.0 * DAY + closing.1
    else Judge(asked, minute).until.value
  }

  datatype DaySpan = DaySpan(day: int, span: Span)

  /** The span that ends a stretch which has come to span `s` of the day before day `i`. */
  function LastSpan(asked: Asked, i: int, s: Span): DaySpan
    requires 1 <= i <= 8
    decreases 8 - i
  {
    if s.to != DAY || i == 8 then DaySpan(i - 1, s)
    else match FirstAtMidnight(asked.SpansOn(i))
      case None => DaySpan(i - 1, s)
      case Some(next) => LastSpan(asked, i + 1, next)
  }

  /** The span the answer for the minute ends with. */
  function EndsWith(asked: Asked, minute: int): DaySpan
    requires GivesClosing(asked, minute)
  {
    var today := FirstHolding(asked.SpansOn(0), minute);
    if today.Some? then LastSpan(asked, 1, today.value)
    else DaySpan(-1, FirstLate(asked.SpansOn(-1), minute).value)
  }

  /** The closing time given is the moment's minute of its day; the place is open until then. */
  lemma MomentIsSaid(asked: Asked, minute: int)
    requires asked.parsed.Valid() && GivesClosing(asked, minute)
    ensures minute < Moment(asked, minute) && asked.OpenThrough(minute, Moment(asked, minute))
    ensures exists k :: 0 <= k <= 7 && Moment(asked, minute) == k * DAY + Judge(asked, minute).until.value
  {
    hide EarliestAfter, SpansOf, Asked.SpansOn;
    FirstHoldingFound(asked.SpansOn(0), minute);
    FirstLateFound(asked.SpansOn(-1), minute);
    ValidOn(asked, 0);
    var today := FirstHolding(asked.SpansOn(0), minute);
    if today.Some? {
      OpenWithin(asked, 0, today.value, minute);
      OpenUntilClosing(asked, 1, today.value.to, minute);
      var k := Closing(asked, 1, today.value.to).value.0;
      assert Moment(asked, minute) == k * DAY + Judge(asked, minute).until.value;
    } else {
      LateSpan(asked, minute);
      OpenWithin(asked, -1, FirstLate(asked.SpansOn(-1), minute).value, minute);
      assert Moment(asked, minute) == 0 * DAY + Judge(asked, minute).until.value;
    }
  }

  // ------------------------------------------------------------------ moments are ends of chosen spans

  lemma {:induction false} ClosingIsChosen(asked: Asked, i: int, s: Span)
    requires 1 <= i <= 8 && Chosen(asked, i - 1, s) && Closing(asked, i, s.to).Some?
    ensures var last := LastSpan(asked, i, s);
            && Chosen(asked, last.day, last.span) && Ends(asked, last.day, last.span)
            && Closing(asked, i, s.to) == Some((last.day, last.span.to))
    decreases 8 - i
  {
    hide Asked.SpansOn;
    if s.to == DAY && i < 8 && FirstAtMidnight(asked.SpansOn(i)).Some? {
      assert ChosenBefore(asked, i, s);
      ClosingIsChosen(asked, i + 1, FirstAtMidnight(asked.SpansOn(i)).value);
    }
  }

  lemma MomentIsChosen(asked: Asked, minute: int)
    requires GivesClosing(asked, minute)
    ensures var last := EndsWith(asked, minute);
            && Chosen(asked, last.day, last.span) && Ends(asked, last.day, last.span)
            && Moment(asked, minute) == last.day * DAY + last.span.to
  {
    hide Asked.SpansOn, EarliestAfter;
    FirstLateFound(asked.SpansOn(-1), minute);
    var today := FirstHolding(asked.SpansOn(0), minute);
    if today.Some? {
      assert Starts(asked, minute, today.value);
      ClosingIsChosen(asked, 1, today.value);
    } else {
      assert Lasts(asked, minute, FirstLate(asked.SpansOn(-1), minute).value);
    }
  }

  // ------------------------------------------------------------------ and ends of chosen spans are moments

  /** The chain of an answer that comes by a chosen span. */
  lemma {:induction false} ChosenIsReached(asked: Asked, k: int, s: Span) returns (minute: int, first: Span)
    requires 0 <= k <= 7 && Chosen(asked, k, s)
    ensures Starts(asked, minute, first) && Closing(asked, 1, first.to) == Closing(asked, k + 1, s.to)
    decreases k
  {
    hide Asked.SpansOn;
    if k == 0 {
      minute :| Starts(asked, minute, s);
      first := s;
    } else {
      var before :| ChosenBefore(asked, k, before);
      minute, first := ChosenIsReached(asked, k - 1, before);
    }
  }

  lemma ChosenIsMoment(asked: Asked, k: int, s: Span) returns (minute: int)
    requires Chosen(asked, k, s) && Ends(asked, k, s)
    ensures GivesClosing(asked, minute) && Moment(asked, minute) == k * DAY + s.to
  {
    hide Asked.SpansOn, EarliestAfter;
    if k < 0 {
      minute :| Lasts(asked, minute, s);
    } else {
      var first: Span;
      minute, first := ChosenIsReached(asked, k, s);
    }
  }

  // ------------------------------------------------------------------ which are the first closed minute

  lemma ClosedIffNoneGoesOn(asked: Asked, k: int, s: Span)
    requires asked.parsed.Valid() && ValidSpan(s)
    ensures !asked.OpenAt(k * DAY + s.to) <==> NoneGoesOn(asked, k, s)
  {
    hide SpansOf;
    var t := k * DAY + s.to;
    ValidOn(asked, k - 1);
    ValidOn(asked, k);
    ValidOn(asked, k + 1);
    hide Asked.SpansOn;
    if asked.OpenAt(t) {
      var j, o :| asked.Holds(j, o, t);
      TwoDaysSuffice(asked, j, o, t, if s.to < DAY then k else k + 1);
    }
    if !NoneGoesOn(asked, k, s) {
      if o :| o in asked.SpansOn(k) && o.from <= s.to < o.to {
        assert asked.Holds(k, o, t);
      } else if s.to >= DAY {
        var o :| o in asked.SpansOn(k + 1) && o.from <= s.to - DAY < o.to;
        assert asked.Holds(k + 1, o, t);
      } else {
        var o :| o in asked.SpansOn(k - 1) && s.to < o.to - DAY;
        assert asked.Holds(k - 1, o, t);
      }
    }
  }

  lemma ChosenIsValid(asked: Asked, k: int, s: Span)
    requires asked.parsed.Valid() && Chosen(asked, k, s)
    ensures ValidSpan(s)
  {
    hide SpansOf;
    ValidOn(asked, k);
    FirstAtMidnightFound(asked.SpansOn(k));
    if k < 0 {
      var minute :| Lasts(asked, minute, s);
      FirstLateFound(asked.SpansOn(-1), minute);
    } else if k == 0 {
      var minute :| Starts(asked, minute, s);
      FirstHoldingFound(asked.SpansOn(0), minute);
    }
  }

  /** The closing time given for the minute is the first at which the place is closed. */
  ghost predicate ClosesThen(asked: Asked, minute: int)
    requires GivesClosing(asked, minute)
  {
    asked.OpenThrough(minute, Moment(asked, minute)) && !asked.OpenAt(Moment(asked, minute))
  }

  /**
   Main result: the closing time given for a minute is the first closed minute if and only if no span
   goes on at the end of the span this answer ends with.
   */
  lemma ClosingTimeIsExactIff(asked: Asked, minute: int)
    requires asked.parsed.Valid() && GivesClosing(asked, minute)
    ensures var last := EndsWith(asked, minute);
            && Moment(asked, minute) == last.day * DAY + last.span.to
            && (ClosesThen(asked, minute) <==> NoneGoesOn(asked, last.day, last.span))
  {
    hide GivesClosing, Moment, EndsWith, Chosen, Ends, NoneGoesOn, Asked.OpenAt, Asked.OpenThrough;
    var last := EndsWith(asked, minute);
    MomentIsChosen(asked, minute);
    MomentIsSaid(asked, minute);
    ChosenIsValid(asked, last.day, last.span);
    ClosedIffNoneGoesOn(asked, last.day, last.span);
  }

  /**
   Main result: so every closing time given on a day is the first closed minute if and only if no span goes
   on where one ends that some answer ends with.
   */
  lemma ClosingTimesAreExactIff(asked: Asked)
    requires asked.parsed.Valid()
    ensures (forall minute :: GivesClosing(asked, minute) ==> ClosesThen(asked, minute)) <==>
            (forall k, s :: Chosen(asked, k, s) && Ends(asked, k, s) ==> NoneGoesOn(asked, k, s))
  {
    hide GivesClosing, Moment, EndsWith, Chosen, Ends, NoneGoesOn, Asked.OpenAt, Asked.OpenThrough;
    if forall k, s :: Chosen(asked, k, s) && Ends(asked, k, s) ==> NoneGoesOn(asked, k, s) {
      forall minute | GivesClosing(asked, minute) ensures ClosesThen(asked, minute) {
        MomentIsChosen(asked, minute);
        ClosingTimeIsExactIff(asked, minute);
      }
    }
    if forall minute :: GivesClosing(asked, minute) ==> ClosesThen(asked, minute) {
      forall k, s | Chosen(asked, k, s) && Ends(asked, k, s) ensures NoneGoesOn(asked, k, s) {
        var minute := ChosenIsMoment(asked, k, s);
        ChosenIsValid(asked, k, s);
        ClosedIffNoneGoesOn(asked, k, s);
        assert ClosesThen(asked, minute);
      }
    }
  }

  /** "11:00-18:00,10:00-12:00" overlaps, and every closing time is right all the same. */
  lemma HarmlessOverlap()
    ensures var spans := [Span(660, 1080, Normal), Span(600, 720, Normal)];
            var asked := Asked(Parsed([Rule(None, WEEK, spans, false)], false), 0, When(0, None));
            forall minute :: 660 <= minute < 1080 ==>
              GivesClosing(asked, minute) && Moment(asked, minute) == 1080 && ClosesThen(asked, minute)
  {
    var spans := [Span(660, 1080, Normal), Span(600, 720, Normal)];
    var rule := Rule(None, WEEK, spans, false);
    var asked := Asked(Parsed([rule], false), 0, When(0, None));
    assert [rule][..0] == [];
    assert asked.SpansOn(0) == spans && asked.SpansOn(-1) == spans && asked.SpansOn(1) == spans;
    forall minute | 660 <= minute < 1080
      ensures GivesClosing(asked, minute) && Moment(asked, minute) == 1080 && ClosesThen(asked, minute)
    {
      assert FirstHolding(spans, minute) == Some(spans[0]);
      ClosingTimeIsExactIff(asked, minute);
      assert NoneGoesOn(asked, 0, spans[0]);
    }
  }
}
