/**
 The step-by-step dialogue (chat/graph.py, `guided`): which answers are usable, what becomes of them, and what
 a line says before anything is asked.
 */
module ChatDialogue {
  import opened Common
  import opened ChatGraph

  // ------------------------------------------------------------------ answers

  /** What can be made of an answer to a question. */
  predicate Usable(slot: Slot, answer: Answer) {
    && !answer.blank
    && (slot.ModeSlot? ==> answer.loops || answer.leadsSomewhere)
    && (slot.DistanceSlot? ==> answer.number.Some? && 1.0 <= answer.number.value <= 1000.0)
    && (slot.BikeSlot? ==> answer.bike.Some? || answer.skips)
  }

  /** What an answer says is in the draft, and all else is as it was; a word for a loop goes first. */
  predicate Stored(before: Draft, after: Draft, slot: Slot, answer: Answer) {
    && after.origin == (if slot.OriginSlot? then Some(answer.place) else before.origin)
    && after.loop == (if slot.ModeSlot? then Some(answer.loops) else before.loop)
    && after.destination == (if slot.DestinationSlot? then Some(answer.place) else before.destination)
    && after.distanceKm == (if slot.DistanceSlot? then answer.number else before.distanceKm)
    && after.bike == (if !slot.BikeSlot? then before.bike
                      else if answer.bike.Some? then Some(Bike(answer.bike.value)) else Some(Skip))
    && after.carry == before.carry
  }

  lemma AnswerIsStored(draft: Draft, slot: Slot, answer: Answer)
    ensures FillSlot(draft, slot, answer).Some? <==> Usable(slot, answer)
    ensures Usable(slot, answer) ==> Stored(draft, FillSlot(draft, slot, answer).value, slot, answer)
  {
  }

  /** What a question is about is not known yet, and whatever is asked before it is. */
  predicate FirstMissing(draft: Draft, slot: Slot) {
    match slot
    case OriginSlot => draft.origin.None?
    case ModeSlot => draft.origin.Some? && draft.loop.None?
    case DistanceSlot => draft.origin.Some? && draft.loop == Some(true) && draft.distanceKm.None?
    case DestinationSlot => draft.origin.Some? && draft.loop == Some(false) && draft.destination.None?
    case BikeSlot =>
      && draft.origin.Some? && draft.bike.None?
      && ((draft.loop == Some(true) && draft.distanceKm.Some?) || (draft.loop == Some(false) && draft.destination.Some?))
  }

  /** Nothing is missing. */
  predicate Complete(draft: Draft) {
    && draft.origin.Some? && draft.bike.Some?
    && ((draft.loop == Some(true) && draft.distanceKm.Some?) || (draft.loop == Some(false) && draft.destination.Some?))
  }

  lemma NextSlotIs(draft: Draft)
    ensures forall slot :: NextSlot(draft) == Some(slot) <==> FirstMissing(draft, slot)
    ensures NextSlot(draft).None? <==> Complete(draft)
  {
  }

  /** The request of a complete draft, with what an earlier line asked for beyond the questions. */
  predicate MadeOf(request: Request, draft: Draft) {
    && request.origin == draft.origin
    && request.destination == (if draft.loop == Some(true) then None else draft.destination)
    && request.via == Some(if draft.carry.Some? then draft.carry.value.via else [])
    && request.others == (if draft.carry.Some? then draft.carry.value.others else map[])
    && request.constraints.Some?
    && request.constraints.value.returnToOrigin == (draft.loop == Some(true))
    && request.constraints.value.targetKm == (if draft.loop == Some(true) then draft.distanceKm else None)
    && request.constraints.value.others == (if draft.carry.Some? then draft.carry.value.constraints.others else map[])
    && request.constraints.value.bike ==
         if draft.bike.Some? && draft.bike.value.Bike? then Some(draft.bike.value.name)
         else if draft.carry.Some? then draft.carry.value.constraints.bike else None
  }

  lemma RequestIsMadeOf(draft: Draft)
    requires NextSlot(draft).None?
    ensures MadeOf(RequestFromDraft(draft), draft) && Holds(Some(RequestFromDraft(draft)))
  {
  }

  /** What a step of the dialogue leaves when this draft has been reached. */
  predicate GoesOnFrom(draft: Draft, after: Config) {
    if Complete(draft) then
      && after.node == PlanRoute && after.state.asking.None? && after.state.draft == BLANK
      && after.state.pendingRequest.Some? && MadeOf(after.state.pendingRequest.value, draft)
    else
      && after.node == Finish && after.state.draft == draft && after.state.replied
      && after.state.asking.Some? && FirstMissing(draft, after.state.asking.value)
  }

  /**
   Main result: an answer to the open question is stored as given, and the dialogue goes on with the first thing
   missing or plans what was said; an answer that cannot be used leaves the question open and all as it was.
   */
  lemma QuestionIsAnswered(w: Reader, c: Config, e: Event) returns (draft: Draft)
    requires Invariant(c) && c.node == Guided && !c.paused && c.state.asking.Some?
    requires e.Said? && Step(w, c, e).Some?
    ensures if Usable(c.state.asking.value, e.answer) then
              Stored(c.state.draft, draft, c.state.asking.value, e.answer) && GoesOnFrom(draft, Step(w, c, e).value)
            else
              && Step(w, c, e).value.node == Finish
              && Step(w, c, e).value.state == c.state.(replied := true)
  {
    var s := c.state;
    var slot := s.asking.value;
    AnswerIsStored(s.draft, slot, e.answer);
    assert s.pendingRequest.None?;
    hide Invariant, FillSlot, Seeded, RequestFromDraft, NextSlot, Usable, Stored, MadeOf, FirstMissing, Complete;
    draft := s.draft;
    if Usable(slot, e.answer) {
      draft := FillSlot(s.draft, slot, e.answer).value;
      NextSlotIs(draft);
      if NextSlot(draft).None? {
        RequestIsMadeOf(draft);
      }
    }
  }

  // ------------------------------------------------------------------ what a line says before anything is asked

  predicate Tells(line: OneLine) {
    line.loop || line.distanceKm.Some? || line.bike.Some? || line.structured
  }

  /** What a line says is in the draft; the bare words of a place are the start. */
  predicate Taken(before: Draft, after: Draft, line: OneLine, isPlace: bool) {
    if Tells(line) then
      var leads := !line.loop && line.destination.Some?;
      && after.origin == (if line.origin.Some? then line.origin else before.origin)
      && after.loop == (if line.loop then Some(true) else if leads then Some(false) else before.loop)
      && after.distanceKm == (if line.loop && line.distanceKm.Some? then line.distanceKm else before.distanceKm)
      && after.destination == (if leads then line.destination else before.destination)
      && after.bike == (if line.bike.Some? then Some(Bike(line.bike.value)) else before.bike)
      && after.carry == Some(line.carry)
    else
      after == if line.origin.Some? && isPlace then before.(origin := line.origin) else before
  }

  lemma LineIsTaken(draft: Draft, line: OneLine, isPlace: bool)
    ensures Seeded(draft, line).Some? <==> Tells(line)
    ensures Tells(line) ==> Taken(draft, Seeded(draft, line).value, line, isPlace)
  {
  }

  /**
   Main result: with no question open, what a line says is taken into the draft and the dialogue goes on from
   there; a question tells it nothing.
   */
  lemma LineStartsTheDialogue(w: Reader, c: Config, e: Event) returns (draft: Draft)
    requires Invariant(c) && c.node == Guided && !c.paused && c.state.asking.None?
    requires e.Said? && Step(w, c, e).Some?
    ensures if e.question then draft == c.state.draft else Taken(c.state.draft, draft, e.line, e.isPlace)
    ensures GoesOnFrom(draft, Step(w, c, e).value)
  {
    var s := c.state;
    LineIsTaken(s.draft, e.line, e.isPlace);
    assert s.pendingRequest.None?;
    hide Invariant, FillSlot, Seeded, RequestFromDraft, NextSlot, MadeOf, FirstMissing, Complete;
    draft :=
      if e.question then s.draft
      else if Tells(e.line) then Seeded(s.draft, e.line).value
      else if e.line.origin.Some? && e.isPlace then s.draft.(origin := e.line.origin)
      else s.draft;
    NextSlotIs(draft);
    if NextSlot(draft).None? {
      RequestIsMadeOf(draft);
    }
  }

  // ------------------------------------------------------------------ a whole dialogue

  /** One message to the dialogue, up to what it makes of it. */
  function Turn(said: Event): seq<Event> {
    [Message(None), Understood(GuidedIntent), Routed, said]
  }

  /** A conversation whose dialogue has this draft and question. */
  predicate Asking(c: Config, draft: Draft, slot: Slot) {
    Invariant(c) && !c.paused && c.node == Finish && c.state.asking == Some(slot) && c.state.draft == draft
  }

  /** Starting over leaves a dialogue with its first question. */
  lemma StartingOverAsks(w: Reader, c: Config)
    requires Invariant(c) && c.node == Reset && !c.paused
    ensures Step(w, c, Ran).Some? && Asking(Step(w, c, Ran).value, BLANK, OriginSlot)
  {
    StepKeepsInvariant(w, c, Ran);
  }

  lemma TurnReaches(w: Reader, c: Config, said: Event) returns (d: Config)
    requires Invariant(c) && !c.paused && said.Said?
    ensures Invariant(d) && d.node == Guided && !d.paused
    ensures d.state.asking == c.state.asking && d.state.draft == c.state.draft
    ensures Step(w, d, said).Some? && Run(w, c, Turn(said)) == Step(w, d, said)
  {
    hide Invariant, RunNode, NextSlot;
    var one, two, three := [Message(None)], [Message(None), Understood(GuidedIntent)],
                           [Message(None), Understood(GuidedIntent), Routed];
    RunNothing(w, c);
    RunOneMore(w, c, [], Message(None));
    assert [] + [Message(None)] == one;
    var first := Step(w, c, Message(None)).value;
    StepKeepsInvariant(w, c, Message(None));
    RunOneMore(w, c, one, Understood(GuidedIntent));
    assert one + [Understood(GuidedIntent)] == two;
    OthersDropTheDialogue(w, first, GuidedIntent);
    var second := Step(w, first, Understood(GuidedIntent)).value;
    StepKeepsInvariant(w, first, Understood(GuidedIntent));
    RunOneMore(w, c, two, Routed);
    assert two + [Routed] == three;
    RoutedKeeps(w, second);
    d := Step(w, second, Routed).value;
    StepKeepsInvariant(w, second, Routed);
    RunOneMore(w, c, three, said);
    assert three + [said] == Turn(said);
    SaidIsHeard(w, d, said);
  }

  /** Only a message meant for the dialogue goes on with it; any other drops its question and its draft. */
  lemma OthersDropTheDialogue(w: Reader, c: Config, intent: Intent)
    requires c.node == Ingest && !c.paused
    ensures var d := Step(w, c, Understood(intent));
            && d.Some? && d.value.node == Router && !d.value.paused && d.value.state.intent == intent
            && d.value.state.asking == (if intent == GuidedIntent then c.state.asking else None)
            && d.value.state.draft == (if intent == GuidedIntent then c.state.draft else BLANK)
  {
  }

  lemma RoutedKeeps(w: Reader, c: Config)
    requires c.node == Router && !c.paused && c.state.intent == GuidedIntent
    ensures Step(w, c, Routed) == Some(Config(Guided, c.state, false))
  {
  }

  lemma SaidIsHeard(w: Reader, c: Config, said: Event)
    requires c.node == Guided && !c.paused && said.Said?
    ensures Step(w, c, said).Some?
  {
    hide GuidedNode;
  }

  /** A usable answer in a turn of its own. */
  lemma TurnStores(w: Reader, c: Config, draft: Draft, slot: Slot, said: Event) returns (after: Draft)
    requires Asking(c, draft, slot) && said.Said? && Usable(slot, said.answer)
    ensures Run(w, c, Turn(said)).Some? && Invariant(Run(w, c, Turn(said)).value)
    ensures Stored(draft, after, slot, said.answer) && GoesOnFrom(after, Run(w, c, Turn(said)).value)
  {
    hide Invariant, RunNode, Step, Run, Usable, Stored, GoesOnFrom;
    var d := TurnReaches(w, c, said);
    after := QuestionIsAnswered(w, d, said);
    StepKeepsInvariant(w, d, said);
  }

  lemma AsksNext(c: Config, draft: Draft, slot: Slot)
    requires Invariant(c) && GoesOnFrom(draft, c) && FirstMissing(draft, slot)
    ensures Asking(c, draft, slot)
  {
    NextSlotIs(draft);
  }

  lemma RunJoins(w: Reader, c: Config, a: seq<Event>, b: seq<Event>)
    requires Run(w, c, a).Some?
    ensures Run(w, c, a + b) == Run(w, Run(w, c, a).value, b)
    decreases |b|
  {
    hide Step;
    if b == [] {
      assert a + b == a;
    } else {
      var n := |b| - 1;
      RunJoins(w, c, a, b[..n]);
      assert (a + b)[..|a + b| - 1] == a + b[..n];
    }
  }

  /** The request four answers ask for: start, kind, distance or destination, and bike. */
  predicate AskedFor(request: Request, start: Answer, kind: Answer, goal: Answer, ride: Answer) {
    && request.origin == Some(start.place) && request.via == Some([]) && request.others == map[]
    && request.destination == (if kind.loops then None else Some(goal.place))
    && request.constraints == Some(Constraints(ride.bike, kind.loops, if kind.loops then goal.number else None, map[]))
  }

  lemma StoredStart(after: Draft, start: Answer)
    requires Stored(BLANK, after, OriginSlot, start)
    ensures FirstMissing(after, ModeSlot) && !Complete(after)
  {
  }

  lemma StoredKind(one: Draft, two: Draft, start: Answer, kind: Answer)
    requires Stored(BLANK, one, OriginSlot, start) && Stored(one, two, ModeSlot, kind)
    ensures FirstMissing(two, if kind.loops then DistanceSlot else DestinationSlot)
  {
  }

  lemma StoredGoal(one: Draft, two: Draft, three: Draft, start: Answer, kind: Answer, goal: Answer)
    requires Stored(BLANK, one, OriginSlot, start) && Stored(one, two, ModeSlot, kind)
    requires Stored(two, three, if kind.loops then DistanceSlot else DestinationSlot, goal)
    requires kind.loops ==> goal.number.Some?
    ensures FirstMissing(three, BikeSlot)
  {
  }

  lemma StoredRide(one: Draft, two: Draft, three: Draft, four: Draft,
                   start: Answer, kind: Answer, goal: Answer, ride: Answer, request: Request)
    requires Stored(BLANK, one, OriginSlot, start) && Stored(one, two, ModeSlot, kind)
    requires Stored(two, three, if kind.loops then DistanceSlot else DestinationSlot, goal)
    requires kind.loops ==> goal.number.Some?
    requires Stored(three, four, BikeSlot, ride)
    ensures Complete(four)
    ensures MadeOf(request, four) ==> AskedFor(request, start, kind, goal, ride)
  {
  }

  /**
   Main result: from the first question, four usable answers in turns of their own end in the planning of exactly
   the request they ask for.
   */
  lemma FourAnswersMakeTheRequest(w: Reader, c: Config, start: Event, kind: Event, goal: Event, ride: Event)
    requires Asking(c, BLANK, OriginSlot)
    requires start.Said? && kind.Said? && goal.Said? && ride.Said?
    requires Usable(OriginSlot, start.answer) && Usable(ModeSlot, kind.answer) && Usable(BikeSlot, ride.answer)
    requires Usable(if kind.answer.loops then DistanceSlot else DestinationSlot, goal.answer)
    ensures var end := Run(w, c, Turn(start) + Turn(kind) + Turn(goal) + Turn(ride));
            && end.Some? && end.value.node == PlanRoute && end.value.state.pendingRequest.Some?
            && AskedFor(end.value.state.pendingRequest.value, start.answer, kind.answer, goal.answer, ride.answer)
  {
    var goalSlot := if kind.answer.loops then DistanceSlot else DestinationSlot;
    assert kind.answer.loops ==> goal.answer.number.Some?;
    hide *;
    var one := TurnStores(w, c, BLANK, OriginSlot, start);
    StoredStart(one, start.answer);
    var c1 := Run(w, c, Turn(start)).value;
    AsksNext(c1, one, ModeSlot);
    var two := TurnStores(w, c1, one, ModeSlot, kind);
    StoredKind(one, two, start.answer, kind.answer);
    var c2 := Run(w, c1, Turn(kind)).value;
    AsksNext(c2, two, goalSlot);
    RunJoins(w, c, Turn(start), Turn(kind));
    var three := TurnStores(w, c2, two, goalSlot, goal);
    StoredGoal(one, two, three, start.answer, kind.answer, goal.answer);
    var c3 := Run(w, c2, Turn(goal)).value;
    AsksNext(c3, three, BikeSlot);
    RunJoins(w, c, Turn(start) + Turn(kind), Turn(goal));
    var four := TurnStores(w, c3, three, BikeSlot, ride);
    RunJoins(w, c, Turn(start) + Turn(kind) + Turn(goal), Turn(ride));
    var c4 := Run(w, c3, Turn(ride)).value;
    EndsInRequest(four, c4, one, two, three, start.answer, kind.answer, goal.answer, ride.answer);
  }

  lemma EndsInRequest(four: Draft, end: Config, one: Draft, two: Draft, three: Draft,
                      start: Answer, kind: Answer, goal: Answer, ride: Answer)
    requires Stored(BLANK, one, OriginSlot, start) && Stored(one, two, ModeSlot, kind)
    requires Stored(two, three, if kind.loops then DistanceSlot else DestinationSlot, goal)
    requires kind.loops ==> goal.number.Some?
    requires Stored(three, four, BikeSlot, ride) && GoesOnFrom(four, end)
    ensures end.node == PlanRoute && end.state.pendingRequest.Some?
    ensures AskedFor(end.state.pendingRequest.value, start, kind, goal, ride)
  {
    hide Stored, AskedFor, MadeOf, Complete;
    StoredRide(one, two, three, four, start, kind, goal, ride, EMPTY);
    StoredRide(one, two, three, four, start, kind, goal, ride, end.state.pendingRequest.value);
  }
}
