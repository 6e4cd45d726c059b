/**
 How often a request is clarified (chat/graph.py). A choice settles one name, wherever the request gives
 it; the planner is asked again after every choice, and nothing counts the rounds.
 */
module ChatRounds {
  import opened Common
  import opened ChatGraph

  const MAX_CLARIFICATION_ROUNDS := 3

  // ------------------------------------------------------------------ the names a request gives

  function OptionPlace(place: Option<Place>): seq<Place> {
    if place.Some? then [place.value] else []
  }

  function Places(request: Request): seq<Place> {
    OptionPlace(request.origin) + OptionPlace(request.destination) + Stops(request)
  }

  /** The different names among the places given in words, as they are compared. */
  function NamesOf(w: Reader, request: Request): set<string> {
    set p | p in Places(request) && p.Words? :: w.normal(p.text)
  }

  lemma NamesIs(w: Reader, request: Request, field: string)
    ensures Names(w, request, field) <==> w.normal(field) in NamesOf(w, request)
  {
    var places := Places(request);
    var here := |OptionPlace(request.origin)| + |OptionPlace(request.destination)|;
    assert forall i :: 0 <= i < |Stops(request)| ==> places[here + i] == Stops(request)[i];
    assert request.origin.Some? ==> places[0] == request.origin.value;
    assert request.destination.Some? ==> places[here - 1] == request.destination.value;
    assert Names(w, request, field) ==> exists p :: p in places && Same(w, p, field);
    if p :| p in places && p.Words? && w.normal(p.text) == w.normal(field) {
      assert Same(w, p, field);
    }
  }

  lemma SwappedPlaces(w: Reader, request: Request, field: string, chosen: Candidate)
    ensures var before, after := Places(request), Places(ReplacePlace(w, request, field, chosen));
            |after| == |before| && forall i :: 0 <= i < |before| ==> after[i] == Swap(w, before[i], field, chosen)
  {
    SwapAllCounts(w, Stops(request), field, chosen);
  }

  /** A choice settles its own name everywhere, and no other. */
  lemma ChoiceSettlesOneName(w: Reader, request: Request, field: string, chosen: Candidate)
    ensures NamesOf(w, ReplacePlace(w, request, field, chosen)) == NamesOf(w, request) - {w.normal(field)}
  {
    hide ReplacePlace, Places;
    SwappedPlaces(w, request, field, chosen);
    var before, after := Places(request), Places(ReplacePlace(w, request, field, chosen));
    forall name | name in NamesOf(w, request) - {w.normal(field)}
      ensures name in NamesOf(w, ReplacePlace(w, request, field, chosen))
    {
      var i :| 0 <= i < |before| && before[i].Words? && w.normal(before[i].text) == name;
      assert after[i] == before[i];
    }
    forall name | name in NamesOf(w, ReplacePlace(w, request, field, chosen))
      ensures name in NamesOf(w, request) - {w.normal(field)}
    {
      var i :| 0 <= i < |after| && after[i].Words? && w.normal(after[i].text) == name;
      assert after[i] == before[i] && before[i] in before;
    }
  }

  // ------------------------------------------------------------------ rounds

  predicate Planning(c: Config) {
    c.node in {PlanRoute, Clarify}
  }

  /** The request that is planned, or waits for a choice. */
  function Open(c: Config): Request {
    if c.node == Clarify then WaitingRequest(c.state)
    else if c.state.pendingRequest.Some? then c.state.pendingRequest.value
    else EMPTY
  }

  /** A round: a choice was made, and the request is planned again. */
  function Round(before: Config, after: Config): nat {
    if before.node == Clarify && after.node == PlanRoute then 1 else 0
  }

  /** The person answers or the graph goes on, and the request is still planned or clarified. */
  ghost predicate KeepsPlanning(w: Reader, c: Config, events: seq<Event>) {
    && Planning(c)
    && (events != [] ==>
        var n := |events| - 1;
        && KeepsPlanning(w, c, events[..n])
        && !events[n].Message? && PlannerFits(w, events[n])
        && Run(w, c, events).Some? && Planning(Run(w, c, events).value))
  }

  ghost function Rounds(w: Reader, c: Config, events: seq<Event>): nat
    requires Run(w, c, events).Some?
  {
    if events == [] then 0
    else
      var n := |events| - 1;
      Rounds(w, c, events[..n]) + Round(Run(w, c, events[..n]).value, Run(w, c, events).value)
  }

  lemma PlannedStep(w: Reader, c: Config, plan: Plan)
    requires Invariant(c) && c.node == PlanRoute && PlannerFits(w, Planned(plan))
    requires Step(w, c, Planned(plan)).Some? && Planning(Step(w, c, Planned(plan)).value)
    ensures var d := Step(w, c, Planned(plan)).value;
            d.node == Clarify && ChoicesFit(w, d) && Open(d) == Open(c)
  {
    hide AsksAboutWords, AfterPlan;
    AfterPlanFits(w, c.state, plan);
  }

  lemma Resolves(w: Reader, s: State, i: nat, chosen: Candidate)
    requires AsksAboutWords(w, WaitingRequest(s), s.clarification)
    requires i < |s.clarification| && s.clarification[i].candidates != []
    ensures var t := ResolvedBy(w, s, i, chosen);
            && AfterClarify(t) == PlanRoute && t.pendingRequest.Some?
            && |NamesOf(w, t.pendingRequest.value)| + 1 == |NamesOf(w, WaitingRequest(s))|
  {
    hide NamesOf, Names, WaitingRequest, ReplacePlace;
    var field := s.clarification[i].field;
    assert s.clarification[i] in s.clarification;
    NamesIs(w, WaitingRequest(s), field);
    ChoiceSettlesOneName(w, WaitingRequest(s), field, chosen);
  }

  lemma ChosenStep(w: Reader, c: Config, e: Event)
    requires Invariant(c) && c.node == Clarify && ChoicesFit(w, c) && !e.Message?
    requires Step(w, c, e).Some? && Planning(Step(w, c, e).value)
    ensures var d := Step(w, c, e).value;
            && ChoicesFit(w, d)
            && Round(c, d) + |NamesOf(w, Open(d))| == |NamesOf(w, Open(c))|
  {
    hide AsksAboutWords, NamesOf, Offered, ResolvedBy, FirstToChoose;
    var s := c.state;
    FirstToChooseIs(s.clarification);
    var i := FirstToChoose(s.clarification);
    if i.Some? {
      var offered := Offered(w, s.clarification[i.value]);
      if !c.paused && w.samePlace(offered) {
        Resolves(w, s, i.value, offered[0]);
      } else if c.paused && e.Reply? {
        var choice := w.choose(e.text, offered);
        if choice.Some? && choice.value < |offered| {
          Resolves(w, s, i.value, offered[choice.value]);
        }
      }
    }
  }

  lemma StepSettles(w: Reader, c: Config, e: Event)
    requires Invariant(c) && ChoicesFit(w, c) && Planning(c) && !e.Message? && PlannerFits(w, e)
    requires Step(w, c, e).Some? && Planning(Step(w, c, e).value)
    ensures var d := Step(w, c, e).value;
            && Invariant(d) && ChoicesFit(w, d)
            && Round(c, d) + |NamesOf(w, Open(d))| == |NamesOf(w, Open(c))|
  {
    hide Invariant, ChoicesFit, NamesOf, PlannerFits;
    StepKeepsInvariant(w, c, e);
    if c.node == Clarify {
      hide Step;
      ChosenStep(w, c, e);
    } else if e.Planned? {
      hide AfterPlan;
      PlannedStep(w, c, e.plan);
    }
  }

  /** Main result: every round settles one name, so the rounds are the names settled so far. */
  lemma {:induction false} RoundsSettleNames(w: Reader, c: Config, events: seq<Event>)
    requires Invariant(c) && ChoicesFit(w, c) && KeepsPlanning(w, c, events)
    ensures Run(w, c, events).Some?
    ensures var d := Run(w, c, events).value;
            && Invariant(d) && ChoicesFit(w, d) && Planning(d)
            && Rounds(w, c, events) + |NamesOf(w, Open(d))| == |NamesOf(w, Open(c))|
  {
    hide Invariant, ChoicesFit, NamesOf, PlannerFits, Step, Open, Planning;
    if events != [] {
      var n := |events| - 1;
      RoundsSettleNames(w, c, events[..n]);
      StepSettles(w, Run(w, c, events[..n]).value, events[n]);
    }
  }

  // ------------------------------------------------------------------ as many rounds as names

  const SOMEWHERE := Candidate("", Some(0.0), Some(0.0))

  /** A geocoder in doubt about every name, with one candidate for each. */
  function InDoubt(places: seq<Place>): seq<Group> {
    if places == [] then []
    else (if places[0].Words? then [Group(places[0].text, [SOMEWHERE])] else []) + InDoubt(places[1..])
  }

  lemma {:induction false} InDoubtIs(w: Reader, places: seq<Place>)
    ensures forall g :: g in InDoubt(places) ==> g.candidates == [SOMEWHERE] && Words(g.field) in places
    ensures (exists p :: p in places && p.Words?) ==> InDoubt(places) != []
  {
    if places != [] {
      InDoubtIs(w, places[1..]);
      assert forall p :: p in places <==> p == places[0] || p in places[1..];
    }
  }

  function Asking(request: Request): Plan {
    Plan(AwaitingClarification, request, InDoubt(Places(request)), [])
  }

  lemma AskingFits(w: Reader, request: Request)
    ensures PlannerFits(w, Planned(Asking(request)))
    ensures NamesOf(w, request) != {} ==> InDoubt(Places(request)) != []
    ensures forall g :: g in InDoubt(Places(request)) ==> g.candidates == [SOMEWHERE]
  {
    hide Names, Places, InDoubt;
    InDoubtIs(w, Places(request));
    forall g | g in InDoubt(Places(request)) ensures Names(w, request, g.field) {
      NamesIs(w, request, g.field);
      assert w.normal(Words(g.field).text) in NamesOf(w, request);
    }
    assert NamesOf(w, request) != {} ==> exists p :: p in Places(request) && p.Words?;
  }

  /** While a name is left, the geocoder asks and the choice is made: one more round. */
  lemma OneMoreRound(w: Reader, c: Config)
    requires Invariant(c) && c.node == PlanRoute && !c.paused && NamesOf(w, Open(c)) != {}
    requires forall one :: w.samePlace([one])
    ensures var plan := Planned(Asking(Open(c)));
            && PlannerFits(w, plan) && Step(w, c, plan).Some?
            && var asked := Step(w, c, plan).value;
            && asked.node == Clarify && !asked.paused && Step(w, asked, Ran).Some?
            && Step(w, asked, Ran).value.node == PlanRoute && !Step(w, asked, Ran).value.paused
  {
    AskingFits(w, Open(c));
    hide NamesOf, InDoubt, Places, ReplacePlace, PlannerFits, AsksAboutWords;
    var asked := Step(w, c, Planned(Asking(Open(c)))).value;
    var groups := asked.state.clarification;
    assert groups[0].candidates == [SOMEWHERE];
    OneIsOffered(w, groups[0]);
  }

  lemma OneIsOffered(w: Reader, group: Group)
    requires |group.candidates| == 1
    ensures Offered(w, group) == group.candidates
  {
    assert group.candidates == [group.candidates[0]];
    assert Named(w, group.candidates[1..], w.normal(group.field)) == [];
  }

  /** What the person wrote first, and what the chat took it for. */
  function Opening(request: Request): seq<Event> {
    [Message(None), Understood(PlanIntent), Routed, Asked(request)]
  }

  function Opened(request: Request): Config {
    Config(PlanRoute, FRESH.(intent := PlanIntent, pendingRequest := Some(request)), false)
  }

  lemma OpeningRuns(w: Reader, request: Request)
    requires Holds(Some(request))
    ensures Run(w, START, Opening(request)) == Some(Opened(request))
    ensures Invariant(Opened(request)) && ChoicesFit(w, Opened(request))
  {
    var m, o := Opening(request), FRESH.(intent := PlanIntent);
    var c1, c2, c3 := Config(Ingest, FRESH, false), Config(Router, o, false), Config(PlanOneLine, o, false);
    assert Step(w, START, m[0]) == Some(c1) && Step(w, c1, m[1]) == Some(c2);
    assert Step(w, c2, m[2]) == Some(c3) && Step(w, c3, m[3]) == Some(Opened(request));
    hide Run, Step;
    RunNothing(w, START);
    RunOneMore(w, START, [], m[0]);
    assert [] + [m[0]] == [m[0]];
    RunOneMore(w, START, [m[0]], m[1]);
    RunOneMore(w, START, [m[0]] + [m[1]], m[2]);
    RunOneMore(w, START, [m[0]] + [m[1]] + [m[2]], m[3]);
    assert [m[0]] + [m[1]] + [m[2]] + [m[3]] == m;
  }

  lemma KeepsPlanningOn(w: Reader, c: Config, events: seq<Event>, e: Event)
    requires KeepsPlanning(w, c, events) && Run(w, c, events).Some?
    requires !e.Message? && PlannerFits(w, e)
    requires Step(w, Run(w, c, events).value, e).Some? && Planning(Step(w, Run(w, c, events).value, e).value)
    ensures KeepsPlanning(w, c, events + [e])
    ensures Run(w, c, events + [e]) == Step(w, Run(w, c, events).value, e)
    ensures Rounds(w, c, events + [e])
         == Rounds(w, c, events) + Round(Run(w, c, events).value, Run(w, c, events + [e]).value)
  {
    hide Step, PlannerFits, Planning;
    assert (events + [e])[..|events|] == events;
  }

  /** The request planned in as many rounds as wanted, up to the number of its names. */
  lemma {:induction false} TakesRounds(w: Reader, request: Request, k: nat) returns (events: seq<Event>)
    requires Holds(Some(request)) && k <= |NamesOf(w, request)|
    requires forall one :: w.samePlace([one])
    ensures KeepsPlanning(w, Opened(request), events) && Run(w, Opened(request), events).Some?
    ensures Rounds(w, Opened(request), events) == k
    ensures var d := Run(w, Opened(request), events).value; d.node == PlanRoute && !d.paused
  {
    OpeningRuns(w, request);
    var c := Opened(request);
    assert PlannerFits(w, Ran) && KeepsPlanning(w, c, []) && Run(w, c, []) == Some(c) && Rounds(w, c, []) == 0;
    hide NamesOf, Run, Step, Invariant, ChoicesFit, KeepsPlanning, Rounds, PlannerFits;
    if k == 0 {
      events := [];
    } else {
      events := TakesRounds(w, request, k - 1);
      RoundsSettleNames(w, c, events);
      var d := Run(w, c, events).value;
      assert Open(c) == request;
      OneMoreRound(w, d);
      var plan := Planned(Asking(Open(d)));
      KeepsPlanningOn(w, c, events, plan);
      KeepsPlanningOn(w, c, events + [plan], Ran);
      events := events + [plan] + [Ran];
    }
  }

  ghost predicate CanTake(w: Reader, request: Request, k: nat) {
    exists events ::
      KeepsPlanning(w, Opened(request), events) && Run(w, Opened(request), events).Some?
      && Rounds(w, Opened(request), events) == k
  }

  /**
   Main result: from the first message on, a request can take k rounds if and only if it gives at least
   k different names; so more than MAX_CLARIFICATION_ROUNDS exactly when it gives more names than that.
   */
  lemma RoundsAreNames(w: Reader, request: Request, k: nat)
    requires Holds(Some(request))
    requires forall one :: w.samePlace([one])
    ensures Run(w, START, Opening(request)) == Some(Opened(request))
    ensures CanTake(w, request, k) <==> k <= |NamesOf(w, request)|
    ensures (exists n: nat :: n > MAX_CLARIFICATION_ROUNDS && CanTake(w, request, n)) <==>
            |NamesOf(w, request)| > MAX_CLARIFICATION_ROUNDS
  {
    OpeningRuns(w, request);
    hide CanTake, NamesOf, Run;
    CanTakeIff(w, request, k);
    CanTakeIff(w, request, |NamesOf(w, request)|);
    if n: nat :| n > MAX_CLARIFICATION_ROUNDS && CanTake(w, request, n) {
      CanTakeIff(w, request, n);
    }
  }

  lemma CanTakeIff(w: Reader, request: Request, k: nat)
    requires Holds(Some(request))
    requires forall one :: w.samePlace([one])
    ensures CanTake(w, request, k) <==> k <= |NamesOf(w, request)|
  {
    OpeningRuns(w, request);
    hide Invariant, ChoicesFit, NamesOf, Run, Rounds, KeepsPlanning;
    if k <= |NamesOf(w, request)| {
      var _ := TakesRounds(w, request, k);
    }
    if events :| KeepsPlanning(w, Opened(request), events) && Run(w, Opened(request), events).Some?
                 && Rounds(w, Opened(request), events) == k {
      RoundsSettleNames(w, Opened(request), events);
    }
  }
}
