/**
 * The chat's dialogue graph (chat/graph.py) as a state machine. A node is a function from the
 * conversation's state to its next state; what the planner, the sentence rules, the language model
 * and the person do are inputs of the step (`Event`), so the results hold whatever they do.
 *
 * `Config.node` is the node that runs next. A message starts a new walk at `Ingest` from wherever the
 * last one stopped: at the end, or in the middle when a turn failed or was replaced.
 */
module ChatGraph {
  import opened Common

  // ------------------------------------------------------------------ requests and plans

  datatype Place = Words(text: string) | Position(lon: Option<real>, lat: Option<real>)

  datatype Constraints =
    Constraints(bike: Option<string>, returnToOrigin: bool, targetKm: Option<real>, others: map<string, string>)

  const NO_CONSTRAINTS := Constraints(None, false, None, map[])

  /** A plan request; a missing key is None. */
  datatype Request = Request(
    origin: Option<Place>, destination: Option<Place>, via: Option<seq<Place>>,
    constraints: Option<Constraints>, others: map<string, string>)

  /** The empty dict, which counts as no request. */
  const EMPTY := Request(None, None, None, None, map[])

  predicate Holds(request: Option<Request>) {
    request.Some? && request.value != EMPTY
  }

  datatype Status = Ready | AwaitingClarification | Ended(how: string)

  datatype Candidate = Candidate(name: string, lon: Option<real>, lat: Option<real>)
  datatype Group = Group(field: string, candidates: seq<Candidate>)

  /** `request` is the request the plan was made from; the planner's answer belongs to it. */
  datatype Plan = Plan(status: Status, request: Request, clarification: seq<Group>, ranks: seq<nat>)

  datatype FormContext = FormContext(request: Option<Request>, plan: Option<Plan>)

  /** Text as `_replace_place` and `clarify` compare it, and the tests that read it. */
  datatype Reader = Reader(
    normal: string -> string,                              // value.strip().lower()
    startsWith: (string, string) -> bool,                  // label.lower().startswith(typed)
    samePlace: seq<Candidate> -> bool,                     // _same_place of one candidate or more
    choose: (string, seq<Candidate>) -> Option<nat>)       // _choose, as an index

  // ------------------------------------------------------------------ the step-by-step dialogue

  datatype Slot = OriginSlot | ModeSlot | DestinationSlot | DistanceSlot | BikeSlot
  datatype Bike = Skip | Bike(name: string)
  datatype Carry = Carry(constraints: Constraints, via: seq<Place>, others: map<string, string>)

  datatype Draft = Draft(
    origin: Option<Place>, loop: Option<bool>, distanceKm: Option<real>, destination: Option<Place>,
    bike: Option<Bike>, carry: Option<Carry>)

  const BLANK := Draft(None, None, None, None, None, None)

  /** What the patterns found in an answer. */
  datatype Answer = Answer(
    blank: bool, place: Place, loops: bool, leadsSomewhere: bool, number: Option<real>,
    bike: Option<string>, skips: bool)

  /** A message read as one line; `structured` for a separator, stops, constraints and the like. */
  datatype OneLine = OneLine(
    origin: Option<Place>, destination: Option<Place>, loop: bool, distanceKm: Option<real>,
    bike: Option<string>, structured: bool, carry: Carry)

  function NextSlot(draft: Draft): Option<Slot> {
    if draft.origin.None? then Some(OriginSlot)
    else if draft.loop.None? then Some(ModeSlot)
    else if draft.loop.value && draft.distanceKm.None? then Some(DistanceSlot)
    else if !draft.loop.value && draft.destination.None? then Some(DestinationSlot)
    else if draft.bike.None? then Some(BikeSlot)
    else None
  }

  /** The draft with the answer stored, or None when the answer is not usable. */
  function FillSlot(draft: Draft, slot: Slot, answer: Answer): Option<Draft> {
    if answer.blank then None
    else match slot
    case OriginSlot => Some(draft.(origin := Some(answer.place)))
    case ModeSlot =>
      if answer.loops then Some(draft.(loop := Some(true)))
      else if answer.leadsSomewhere then Some(draft.(loop := Some(false)))
      else None
    case DestinationSlot => Some(draft.(destination := Some(answer.place)))
    case DistanceSlot =>
      if answer.number.None? || !(1.0 <= answer.number.value <= 1000.0) then None
      else Some(draft.(distanceKm := answer.number))
    case BikeSlot =>
      if answer.bike.Some? then Some(draft.(bike := Some(Bike(answer.bike.value))))
      else if answer.skips then Some(draft.(bike := Some(Skip)))
      else None
  }

  /** `draft.update(seed)` with what a line already told; None when it told nothing. */
  function Seeded(draft: Draft, line: OneLine): Option<Draft> {
    if !(line.loop || line.distanceKm.Some? || line.bike.Some? || line.structured) then None
    else
      var started := if line.origin.Some? then draft.(origin := line.origin) else draft;
      var headed :=
        if line.loop then
          started.(loop := Some(true), distanceKm := if line.distanceKm.Some? then line.distanceKm else started.distanceKm)
        else if line.destination.Some? then started.(loop := Some(false), destination := line.destination)
        else started;
      var riding := if line.bike.Some? then headed.(bike := Some(Bike(line.bike.value))) else headed;
      Some(riding.(carry := Some(line.carry)))
  }

  function RequestFromDraft(draft: Draft): Request
    requires NextSlot(draft).None?
  {
    var carry := if draft.carry.Some? then draft.carry.value else Carry(NO_CONSTRAINTS, [], map[]);
    var kept := carry.constraints.(returnToOrigin := false, targetKm := None);
    var riding := if draft.bike.value.Bike? then kept.(bike := Some(draft.bike.value.name)) else kept;
    if draft.loop.value then
      Request(draft.origin, None, Some(carry.via),
              Some(riding.(returnToOrigin := true, targetKm := draft.distanceKm)), carry.others)
    else
      Request(draft.origin, draft.destination, Some(carry.via), Some(riding), carry.others)
  }

  // ------------------------------------------------------------------ choosing a place

  predicate Same(w: Reader, place: Place, field: string) {
    place.Words? && w.normal(place.text) == w.normal(field)
  }

  function Swap(w: Reader, place: Place, field: string, chosen: Candidate): Place {
    if Same(w, place, field) then Position(chosen.lon, chosen.lat) else place
  }

  function SwapOption(w: Reader, place: Option<Place>, field: string, chosen: Candidate): Option<Place> {
    if place.Some? then Some(Swap(w, place.value, field, chosen)) else None
  }

  function SwapAll(w: Reader, places: seq<Place>, field: string, chosen: Candidate): seq<Place> {
    if places == [] then []
    else [Swap(w, places[0], field, chosen)] + SwapAll(w, places[1..], field, chosen)
  }

  function ReplacePlace(w: Reader, request: Request, field: string, chosen: Candidate): (r: Request)
    ensures Holds(Some(r))
  {
    request.(
      origin := SwapOption(w, request.origin, field, chosen),
      destination := SwapOption(w, request.destination, field, chosen),
      via := Some(SwapAll(w, if request.via.Some? then request.via.value else [], field, chosen)))
  }

  /** The first group with candidates. */
  function FirstToChoose(groups: seq<Group>): Option<nat> {
    if groups == [] then None
    else if groups[0].candidates != [] then Some(0)
    else
      var rest := FirstToChoose(groups[1..]);
      if rest.Some? then Some(rest.value + 1) else None
  }

  lemma FirstToChooseIs(groups: seq<Group>)
    ensures var i := FirstToChoose(groups);
            && (i.Some? ==> i.value < |groups| && groups[i.value].candidates != [])
            && (i.None? ==> forall g :: g in groups ==> g.candidates == [])
  {
  }

  function Named(w: Reader, candidates: seq<Candidate>, typed: string): seq<Candidate> {
    if candidates == [] then []
    else
      (if w.startsWith(candidates[0].name, typed) then [candidates[0]] else []) + Named(w, candidates[1..], typed)
  }

  /** The candidates a group offers: at most five, those that begin as typed when some do. */
  function Offered(w: Reader, group: Group): (r: seq<Candidate>)
    ensures group.candidates != [] ==> r != []
  {
    var five := if |group.candidates| <= 5 then group.candidates else group.candidates[..5];
    var named := Named(w, five, w.normal(group.field));
    if w.normal(group.field) != "" && named != [] then named else five
  }

  // ------------------------------------------------------------------ the state and the nodes

  datatype Intent =
    | PlanIntent | PlanTextIntent | GuidedIntent | RefineIntent | AlternativesIntent | SightsIntent
    | ExplainIntent | ExportIntent | OptimizeIntent | ResetIntent | HelpIntent

  datatype ClarifyResult = Failed | Resolved | Restart | Retry

  datatype State = State(
    intent: Intent, draft: Draft, asking: Option<Slot>,
    lastRequest: Option<Request>, lastPlan: Option<Plan>,
    failedRequest: Option<Request>, awaitingRequest: Option<Request>,
    form: Option<FormContext>, pendingRequest: Option<Request>,
    clarification: seq<Group>, clarifyResult: Option<ClarifyResult>,
    replied: bool,                     // `reply` is not empty
    plan: Option<Plan>, focusRank: Option<nat>)

  const FRESH := State(HelpIntent, BLANK, None, None, None, None, None, None, None, [], None, false, None, None)

  datatype Node =
    | Ingest | Router | PlanOneLine | PlanText | Guided | Refine | Optimize | PlanRoute | Clarify
    | Alternatives | Sights | Explain | Export | Reset | Help | Finish | End

  datatype Config = Config(node: Node, state: State, paused: bool)

  datatype Event =
    | Message(form: Option<FormContext>)                      // a new message arrives
    | Reply(text: string, followup: Option<Intent>)           // a message to the open question
    | Understood(intent: Intent)                              // ingest
    | Routed                                                  // router
    | Asked(request: Request)                                 // plan_one_line, or what refine/optimize make
    | NotAsked                                                // refine/optimize found nothing to change
    | Planned(plan: Plan)                                     // the planner answered
    | NotPlanned                                              // PlanError, or free text is not available
    | Said(question: bool, line: OneLine, isPlace: bool, answer: Answer)   // guided
    | Picked(rank: Option<nat>, askedForOne: bool)            // alternatives
    | Ran                                                     // any other node

  function AdoptForm(s: State): State {
    if s.form.None? then s
    else
      var context := s.form.value;
      var told := if Holds(context.request) then s.(lastRequest := context.request, failedRequest := None) else s;
      if context.plan.Some? then told.(lastPlan := context.plan) else told
  }

  function IngestNode(s: State, intent: Intent): State {
    var adopted := AdoptForm(s);
    var left := if intent.GuidedIntent? then adopted else adopted.(asking := None, draft := BLANK);
    left.(form := None, intent := intent, replied := false, plan := None, focusRank := None,
          pendingRequest := None, clarifyResult := None)
  }

  function RouteIntent(intent: Intent): Node {
    match intent
    case PlanIntent => PlanOneLine
    case PlanTextIntent => PlanText
    case GuidedIntent => Guided
    case RefineIntent => Refine
    case AlternativesIntent => Alternatives
    case SightsIntent => Sights
    case ExplainIntent => Explain
    case ExportIntent => Export
    case OptimizeIntent => Optimize
    case ResetIntent => Reset
    case HelpIntent => Help
  }

  function GuidedNode(s: State, question: bool, line: OneLine, isPlace: bool, answer: Answer): State {
    var seeded := if s.asking.None? && !question then Seeded(s.draft, line) else None;
    var start :=
      if s.asking.None? && !question then
        if seeded.Some? then seeded.value
        else if line.origin.Some? && isPlace then s.draft.(origin := line.origin)
        else s.draft
      else s.draft;
    var filled := if s.asking.Some? then FillSlot(start, s.asking.value, answer) else Some(start);
    if filled.None? then s.(draft := start, replied := true)
    else
      var slot := NextSlot(filled.value);
      if slot.None? then
        s.(pendingRequest := Some(RequestFromDraft(filled.value)), asking := None, draft := BLANK)
      else s.(draft := filled.value, asking := slot, replied := true)
  }

  /** `_after_plan`. */
  function AfterPlan(s: State, plan: Plan, request: Request): State {
    var base := s.(pendingRequest := None, awaitingRequest := None, asking := None, draft := BLANK);
    match plan.status
    case Ready =>
      base.(lastRequest := Some(request), lastPlan := Some(plan), failedRequest := None, plan := Some(plan),
            clarification := [], replied := true)
    case AwaitingClarification =>
      base.(awaitingRequest := Some(request), clarification := plan.clarification)
    case Ended(_) => base.(failedRequest := Some(request), replied := true)
  }

  /** The request a chosen place goes into. */
  function WaitingRequest(s: State): Request {
    if Holds(s.awaitingRequest) then s.awaitingRequest.value
    else if Holds(s.lastRequest) then s.lastRequest.value
    else EMPTY
  }

  function ResolvedBy(w: Reader, s: State, i: nat, chosen: Candidate): State
    requires i < |s.clarification|
  {
    s.(pendingRequest := Some(ReplacePlace(w, WaitingRequest(s), s.clarification[i].field, chosen)),
       clarification := s.clarification[..i] + s.clarification[i + 1..],
       clarifyResult := Some(Resolved))
  }

  /** `clarify` up to its `interrupt`: the state it leaves, or None when it pauses. */
  function ClarifyNode(w: Reader, s: State): Option<State> {
    FirstToChooseIs(s.clarification);
    var i := FirstToChoose(s.clarification);
    if i.None? then Some(s.(clarification := [], clarifyResult := Some(Failed), replied := true))
    else
      var offered := Offered(w, s.clarification[i.value]);
      if w.samePlace(offered) then Some(ResolvedBy(w, s, i.value, offered[0])) else None
  }

  /** `clarify` run again with the answer, from the question on. */
  function ClarifyAnswered(w: Reader, s: State, text: string, followup: Option<Intent>): State
    requires FirstToChoose(s.clarification).Some?
  {
    FirstToChooseIs(s.clarification);
    var i := FirstToChoose(s.clarification).value;
    var offered := Offered(w, s.clarification[i]);
    var choice := w.choose(text, offered);
    if choice.Some? && choice.value < |offered| then ResolvedBy(w, s, i, offered[choice.value])
    else if followup in {Some(ResetIntent), Some(HelpIntent), Some(PlanIntent)} then
      s.(intent := followup.value, clarification := [], clarifyResult := Some(Restart))
    else s.(clarifyResult := Some(Retry))
  }

  function AlternativesNode(s: State, rank: Option<nat>, askedForOne: bool): State {
    if s.lastPlan.None? || !s.lastPlan.value.status.Ready? then s.(replied := true)
    else if rank.Some? then s.(replied := true, plan := s.lastPlan, focusRank := rank)
    else if askedForOne && |s.lastPlan.value.ranks| > 1 then s.(replied := true)
    else s.(replied := true, plan := s.lastPlan)
  }

  function ResetNode(s: State): State {
    s.(draft := BLANK, asking := Some(OriginSlot), lastRequest := None, lastPlan := None, failedRequest := None,
       awaitingRequest := None, clarification := [], replied := true)
  }

  // ------------------------------------------------------------------ the edges

  function AfterRequest(s: State): Node {
    if Holds(s.pendingRequest) then PlanRoute else Finish
  }

  function AfterPlanning(s: State): Node {
    if s.clarification != [] && !s.replied then Clarify else Finish
  }

  function AfterClarify(s: State): Node {
    match s.clarifyResult
    case Some(Resolved) => PlanRoute
    case Some(Restart) => Router
    case Some(Retry) => Clarify
    case _ => Finish
  }

  /** A request that went through the validation of the plan endpoint or was built by the chat. */
  predicate EventFits(c: Config, e: Event) {
    match e
    case Message(form) =>
      // _form_context drops a route that is not ready, and context without anything in it
      form.Some? && form.value.plan.Some? ==> form.value.plan.value.status.Ready?
    case Asked(request) => Holds(Some(request))
    case Planned(plan) =>
      c.node == PlanRoute && c.state.pendingRequest.Some? ==> plan.request == c.state.pendingRequest.value
    case _ => true
  }

  /** One step, or None when this event cannot happen here. */
  function Step(w: Reader, c: Config, e: Event): Option<Config> {
    if !EventFits(c, e) then None
    else if e.Message? then
      if c.paused then None else Some(Config(Ingest, c.state.(form := e.form), false))
    else if c.paused then
      if e.Reply? && c.node == Clarify && FirstToChoose(c.state.clarification).Some? then
        var s := ClarifyAnswered(w, c.state, e.text, e.followup);
        Some(Config(AfterClarify(s), s, false))
      else None
    else RunNode(w, c, e)
  }

  function RunNode(w: Reader, c: Config, e: Event): Option<Config> {
    var s := c.state;
    match c.node
    case Ingest => if e.Understood? then Some(Config(Router, IngestNode(s, e.intent), false)) else None
    case Router => if e.Routed? then Some(Config(RouteIntent(s.intent), s, false)) else None
    case PlanOneLine =>
      if e.Asked? then
        var t := s.(pendingRequest := Some(e.request), asking := None, draft := BLANK);
        Some(Config(AfterRequest(t), t, false))
      else None
    case PlanText =>
      if e.Planned? then
        var t := AfterPlan(s, e.plan, e.plan.request);
        Some(Config(AfterPlanning(t), t, false))
      else if e.NotPlanned? then
        var t := s.(replied := true);
        Some(Config(AfterPlanning(t), t, false))
      else None
    case Guided =>
      if e.Said? then
        var t := GuidedNode(s, e.question, e.line, e.isPlace, e.answer);
        Some(Config(AfterRequest(t), t, false))
      else None
    case Refine => RunChange(s, e, Holds(s.failedRequest) || Holds(s.lastRequest))
    case Optimize => RunChange(s, e, Holds(s.failedRequest) || Holds(s.lastRequest))
    case PlanRoute =>
      if e.Planned? then
        var t := AfterPlan(s, e.plan, if s.pendingRequest.Some? then s.pendingRequest.value else EMPTY);
        Some(Config(AfterPlanning(t), t, false))
      else if e.NotPlanned? then
        var t := s.(replied := true, pendingRequest := None);
        Some(Config(AfterPlanning(t), t, false))
      else None
    case Clarify =>
      if e.Ran? then
        var t := ClarifyNode(w, s);
        if t.Some? then Some(Config(AfterClarify(t.value), t.value, false)) else Some(Config(Clarify, s, true))
      else None
    case Alternatives =>
      if e.Picked? then Some(Config(Finish, AlternativesNode(s, e.rank, e.askedForOne), false)) else None
    case Reset => if e.Ran? then Some(Config(Finish, ResetNode(s), false)) else None
    case Sights => if e.Ran? then Some(Config(Finish, s.(replied := true), false)) else None
    case Explain => if e.Ran? then Some(Config(Finish, s.(replied := true), false)) else None
    case Export => if e.Ran? then Some(Config(Finish, s.(replied := true), false)) else None
    case Help => if e.Ran? then Some(Config(Finish, s.(replied := true), false)) else None
    case Finish => if e.Ran? then Some(Config(End, s, false)) else None
    case End => None
  }

  /** `refine` and `optimize`: a changed request, or an answer in words. */
  function RunChange(s: State, e: Event, hasPrevious: bool): Option<Config> {
    if e.Asked? && hasPrevious then
      var t := s.(pendingRequest := Some(e.request));
      Some(Config(AfterRequest(t), t, false))
    else if e.NotAsked? then
      var t := s.(replied := true);
      Some(Config(AfterRequest(t), t, false))
    else None
  }

  function Run(w: Reader, c: Config, events: seq<Event>): Option<Config> {
    if events == [] then Some(c)
    else
      var before := Run(w, c, events[..|events| - 1]);
      if before.Some? then Step(w, before.value, events[|events| - 1]) else None
  }

  /** A conversation before its first message. */
  const START := Config(End, FRESH, false)

  // ------------------------------------------------------------------ what every run keeps

  /** The plan a finished walk hands to the caller. */
  function HandedOut(c: Config): Option<Plan> {
    if c.paused then None else c.state.plan
  }

  predicate PlansAreReady(c: Config) {
    && (c.state.lastPlan.Some? ==> c.state.lastPlan.value.status.Ready?)
    && (c.state.form.Some? && c.state.form.value.plan.Some? ==> c.state.form.value.plan.value.status.Ready?)
  }

  /** Nothing is handed out before the walk's last step; then it is the route on screen. */
  predicate HandsOutLastPlan(c: Config) {
    && (c.node !in {Ingest, Finish, End} ==> c.state.plan.None?)
    && (c.state.plan.Some? ==> c.state.plan == c.state.lastPlan)
  }

  /** The open question of the dialogue is the first that is not answered. */
  predicate AsksWhatIsMissing(c: Config) {
    c.state.asking.Some? ==> c.state.asking == NextSlot(c.state.draft)
  }

  /** A planning step has a request, and a choice of places is waiting for one. */
  predicate HasWhatItNeeds(c: Config) {
    && (c.node == PlanRoute ==> Holds(c.state.pendingRequest))
    && (c.node == Clarify ==> c.state.clarification != [] && !c.state.replied && c.state.pendingRequest.None?)
    && (c.node in {Router, PlanOneLine, PlanText, Guided, Refine, Optimize} ==> c.state.pendingRequest.None? && !c.state.replied)
    && (c.node == PlanRoute ==> !c.state.replied)
    && (c.paused ==> c.node == Clarify && FirstToChoose(c.state.clarification).Some?)
  }

  predicate Invariant(c: Config) {
    PlansAreReady(c) && HandsOutLastPlan(c) && AsksWhatIsMissing(c) && HasWhatItNeeds(c)
  }

  lemma StepKeepsInvariant(w: Reader, c: Config, e: Event)
    requires Invariant(c) && Step(w, c, e).Some?
    ensures Invariant(Step(w, c, e).value)
  {
    hide RunNode, NextSlot, ReplacePlace, Offered;
    if !c.paused && !e.Message? {
      NodeKeepsInvariant(w, c, e);
    }
  }

  lemma NodeKeepsInvariant(w: Reader, c: Config, e: Event)
    requires Invariant(c) && !c.paused && EventFits(c, e) && RunNode(w, c, e).Some?
    ensures Invariant(RunNode(w, c, e).value)
  {
    hide RunNode, Invariant, EventFits;
    match c.node
    case Ingest => IngestKeepsInvariant(w, c, e);
    case Guided => GuidedKeepsInvariant(w, c, e);
    case Clarify => ClarifyKeepsInvariant(w, c, e);
    case PlanRoute => PlanningKeepsInvariant(w, c, e);
    case PlanText => PlanningKeepsInvariant(w, c, e);
    case Refine => ChangeKeepsInvariant(w, c, e);
    case Optimize => ChangeKeepsInvariant(w, c, e);
    case _ => OtherNodeKeepsInvariant(w, c, e);
  }

  lemma IngestKeepsInvariant(w: Reader, c: Config, e: Event)
    requires Invariant(c) && !c.paused && c.node == Ingest && RunNode(w, c, e).Some?
    ensures Invariant(RunNode(w, c, e).value)
  {
    hide NextSlot, AdoptForm;
    AdoptingKeeps(c.state);
  }

  lemma GuidedKeepsInvariant(w: Reader, c: Config, e: Event)
    requires Invariant(c) && !c.paused && c.node == Guided && RunNode(w, c, e).Some?
    ensures Invariant(RunNode(w, c, e).value)
  {
    hide NextSlot, GuidedNode;
    GuidedKeeps(c.state, e.question, e.line, e.isPlace, e.answer);
  }

  lemma ClarifyKeepsInvariant(w: Reader, c: Config, e: Event)
    requires Invariant(c) && !c.paused && c.node == Clarify && RunNode(w, c, e).Some?
    ensures Invariant(RunNode(w, c, e).value)
  {
    hide NextSlot, ClarifyNode;
    ClarifyKeeps(w, c.state);
  }

  lemma PlanningKeepsInvariant(w: Reader, c: Config, e: Event)
    requires Invariant(c) && !c.paused && c.node in {PlanRoute, PlanText} && EventFits(c, e) && RunNode(w, c, e).Some?
    ensures Invariant(RunNode(w, c, e).value)
  {
    hide NextSlot, AfterPlan;
    if e.Planned? {
      AfterPlanKeeps(c.state, e.plan, e.plan.request);
    }
  }

  lemma ChangeKeepsInvariant(w: Reader, c: Config, e: Event)
    requires Invariant(c) && !c.paused && c.node in {Refine, Optimize} && EventFits(c, e) && RunNode(w, c, e).Some?
    ensures Invariant(RunNode(w, c, e).value)
  {
    hide NextSlot;
  }

  lemma OtherNodeKeepsInvariant(w: Reader, c: Config, e: Event)
    requires Invariant(c) && !c.paused && EventFits(c, e) && RunNode(w, c, e).Some?
    requires c.node !in {Ingest, Guided, Clarify, PlanRoute, PlanText, Refine, Optimize}
    ensures Invariant(RunNode(w, c, e).value)
  {
    hide NextSlot, ClarifyNode, GuidedNode, AfterPlan, IngestNode, RunChange;
    BlankAsksForOrigin();
  }

  lemma BlankAsksForOrigin()
    ensures NextSlot(BLANK) == Some(OriginSlot)
  {
  }

  lemma AdoptingKeeps(s: State)
    ensures s.form.Some? && s.form.value.plan.Some? ==> AdoptForm(s).lastPlan == s.form.value.plan
    ensures !(s.form.Some? && s.form.value.plan.Some?) ==> AdoptForm(s).lastPlan == s.lastPlan
    ensures AdoptForm(s).asking == s.asking && AdoptForm(s).draft == s.draft
  {
  }

  lemma AfterPlanKeeps(s: State, plan: Plan, request: Request)
    requires s.lastPlan.Some? ==> s.lastPlan.value.status.Ready?
    requires s.plan.None?
    ensures var t := AfterPlan(s, plan, request);
            && t.pendingRequest.None? && t.asking.None? && t.form == s.form
            && (t.lastPlan.Some? ==> t.lastPlan.value.status.Ready?)
            && (t.plan.Some? ==> t.plan == t.lastPlan)
            && (AfterPlanning(t) == Clarify ==> t.plan.None?)
  {
  }

  lemma GuidedKeeps(s: State, question: bool, line: OneLine, isPlace: bool, answer: Answer)
    requires s.asking.Some? ==> s.asking == NextSlot(s.draft)
    ensures var t := GuidedNode(s, question, line, isPlace, answer);
            && t.asking.Some? ==> t.asking == NextSlot(t.draft)
    ensures var t := GuidedNode(s, question, line, isPlace, answer);
            && t.lastPlan == s.lastPlan && t.form == s.form && t.plan == s.plan
            && t.clarification == s.clarification
            && (t.pendingRequest == s.pendingRequest || (Holds(t.pendingRequest) && t.replied == s.replied))
  {
    hide FillSlot, Seeded;
  }

  lemma ClarifyKeeps(w: Reader, s: State)
    ensures var t := ClarifyNode(w, s);
            && (t.None? ==> FirstToChoose(s.clarification).Some?)
            && (t.Some? ==>
                && t.value.lastPlan == s.lastPlan && t.value.form == s.form && t.value.plan == s.plan
                && t.value.asking == s.asking && t.value.draft == s.draft
                && (t.value.clarifyResult == Some(Failed) || (
                    && t.value.clarifyResult == Some(Resolved)
                    && Holds(t.value.pendingRequest) && t.value.replied == s.replied)))
  {
    hide ReplacePlace;
  }

  /** Main result: after any events at all, the four invariants hold. */
  lemma {:induction false} EveryRunKeepsInvariant(w: Reader, events: seq<Event>)
    requires Run(w, START, events).Some?
    ensures Invariant(Run(w, START, events).value)
  {
    if events == [] {
    } else {
      hide Invariant;
      EveryRunKeepsInvariant(w, events[..|events| - 1]);
      StepKeepsInvariant(w, Run(w, START, events[..|events| - 1]).value, events[|events| - 1]);
    }
  }

  /** What the caller gets from a turn is a ready route, and the one the conversation goes on with. */
  lemma TurnHandsOutLastPlan(w: Reader, events: seq<Event>)
    requires Run(w, START, events).Some?
    ensures var c := Run(w, START, events).value;
            && (c.state.lastPlan.Some? ==> c.state.lastPlan.value.status.Ready?)
            && (c.node == End && HandedOut(c).Some? ==> HandedOut(c) == c.state.lastPlan)
  {
    EveryRunKeepsInvariant(w, events);
  }

  // ------------------------------------------------------------------ a place choice makes progress

  function CountWords(place: Place): nat {
    if place.Words? then 1 else 0
  }

  function CountOption(place: Option<Place>): nat {
    if place.Some? then CountWords(place.value) else 0
  }

  function CountAll(places: seq<Place>): nat {
    if places == [] then 0 else CountWords(places[0]) + CountAll(places[1..])
  }

  function Stops(request: Request): seq<Place> {
    if request.via.Some? then request.via.value else []
  }

  /** The places of a request still given in words. */
  function Worded(request: Request): nat {
    CountOption(request.origin) + CountOption(request.destination) + CountAll(Stops(request))
  }

  /** Some place of the request was typed as this field. */
  predicate Names(w: Reader, request: Request, field: string) {
    || (request.origin.Some? && Same(w, request.origin.value, field))
    || (request.destination.Some? && Same(w, request.destination.value, field))
    || exists i :: 0 <= i < |Stops(request)| && Same(w, Stops(request)[i], field)
  }

  lemma {:induction false} SwapAllCounts(w: Reader, places: seq<Place>, field: string, chosen: Candidate)
    ensures |SwapAll(w, places, field, chosen)| == |places|
    ensures forall i :: 0 <= i < |places| ==> SwapAll(w, places, field, chosen)[i] == Swap(w, places[i], field, chosen)
    ensures CountAll(SwapAll(w, places, field, chosen)) <= CountAll(places)
    ensures CountAll(SwapAll(w, places, field, chosen)) < CountAll(places) <==>
            exists i :: 0 <= i < |places| && Same(w, places[i], field)
  {
    if places == [] {
    } else {
      SwapAllCounts(w, places[1..], field, chosen);
      var rest := SwapAll(w, places[1..], field, chosen);
      assert forall i :: 0 < i < |places| ==> places[i] == places[1..][i - 1];
      assert SwapAll(w, places, field, chosen)[1..] == rest;
      if exists i :: 0 <= i < |places| && Same(w, places[i], field) {
        var i :| 0 <= i < |places| && Same(w, places[i], field);
        assert i == 0 || Same(w, places[1..][i - 1], field);
      }
    }
  }

  /** Main result: a choice leaves fewer places in words exactly when its field is one of them. */
  lemma ChoiceReducesWords(w: Reader, request: Request, field: string, chosen: Candidate)
    ensures Worded(ReplacePlace(w, request, field, chosen)) < Worded(request) <==> Names(w, request, field)
    ensures Worded(ReplacePlace(w, request, field, chosen)) <= Worded(request)
  {
    SwapAllCounts(w, Stops(request), field, chosen);
  }

  /** Nothing but the places typed as the field changes, and each of those becomes the chosen position. */
  lemma ChoiceChangesOnlyItsField(w: Reader, request: Request, field: string, chosen: Candidate)
    ensures var r := ReplacePlace(w, request, field, chosen);
            && r.constraints == request.constraints && r.others == request.others
            && !Names(w, r, field)
            && (!Names(w, request, field) ==>
                r.origin == request.origin && r.destination == request.destination && Stops(r) == Stops(request))
            && |Stops(r)| == |Stops(request)|
            && forall i :: 0 <= i < |Stops(r)| ==>
                 Stops(r)[i] == if Same(w, Stops(request)[i], field) then Position(chosen.lon, chosen.lat)
                                else Stops(request)[i]
  {
    SwapAllCounts(w, Stops(request), field, chosen);
    var r := ReplacePlace(w, request, field, chosen);
    if !Names(w, request, field) {
      assert Stops(r) == Stops(request);
    }
  }

  // ------------------------------------------------------------------ walks end

  /** What the geocoder promises: it asks about places the request gives in words. */
  predicate AsksAboutWords(w: Reader, request: Request, groups: seq<Group>) {
    forall g :: g in groups && g.candidates != [] ==> Names(w, request, g.field)
  }

  predicate PlannerFits(w: Reader, e: Event) {
    e.Planned? && e.plan.status.AwaitingClarification? ==> AsksAboutWords(w, e.plan.request, e.plan.clarification)
  }

  /** An open choice is about a place its request gives in words. */
  predicate ChoicesFit(w: Reader, c: Config) {
    c.node == Clarify ==> AsksAboutWords(w, WaitingRequest(c.state), c.state.clarification)
  }

  /** A step the graph takes by itself: not a message of the person. */
  predicate Internal(e: Event) {
    !e.Message? && !e.Reply?
  }

  function Phase(node: Node): nat {
    match node
    case Ingest => 3
    case Router => 2
    case PlanRoute => 0
    case Clarify => 0
    case Finish => 0
    case End => 0
    case _ => 1
  }

  /** Within a phase: how far a planning step, or a choice before it, is from the end. */
  function Left(c: Config): nat {
    if c.paused then 0
    else if c.node == PlanRoute then 3 + 2 * (if c.state.pendingRequest.Some? then Worded(c.state.pendingRequest.value) else 0)
    else if c.node == Clarify then 2 + 2 * Worded(WaitingRequest(c.state))
    else if c.node == Finish then 1
    else 0
  }

  predicate Closer(before: Config, after: Config) {
    || Phase(after.node) < Phase(before.node)
    || (Phase(after.node) == Phase(before.node) && Left(after) < Left(before))
  }

  lemma EmptyNamesNothing(w: Reader, groups: seq<Group>, request: Request)
    requires AsksAboutWords(w, EMPTY, groups)
    ensures AsksAboutWords(w, request, groups)
  {
  }

  lemma AfterPlanFits(w: Reader, s: State, plan: Plan)
    requires plan.status.AwaitingClarification? ==> AsksAboutWords(w, plan.request, plan.clarification)
    requires !s.replied
    ensures var t := AfterPlan(s, plan, plan.request);
            && (AfterPlanning(t) == Clarify ==>
                && AsksAboutWords(w, WaitingRequest(t), t.clarification)
                && (Holds(Some(plan.request)) ==> WaitingRequest(t) == plan.request))
            && AfterPlanning(t) in {Clarify, Finish}
  {
    hide Names;
    var t := AfterPlan(s, plan, plan.request);
    if AfterPlanning(t) == Clarify {
      assert plan.status.AwaitingClarification?;
      if !Holds(Some(plan.request)) {
        EmptyNamesNothing(w, plan.clarification, WaitingRequest(t));
      }
    }
  }

  lemma ClarifyGetsCloser(w: Reader, s: State)
    requires AsksAboutWords(w, WaitingRequest(s), s.clarification)
    requires ClarifyNode(w, s).Some?
    ensures var t := ClarifyNode(w, s).value;
            && AfterClarify(t) in {PlanRoute, Finish}
            && (AfterClarify(t) == PlanRoute ==>
                t.pendingRequest.Some? && Worded(t.pendingRequest.value) < Worded(WaitingRequest(s)))
  {
    hide Names, Worded, ReplacePlace, Offered, WaitingRequest;
    FirstToChooseIs(s.clarification);
    var i := FirstToChoose(s.clarification);
    if i.Some? {
      var group := s.clarification[i.value];
      assert group in s.clarification;
      ChoiceReducesWords(w, WaitingRequest(s), group.field, Offered(w, group)[0]);
    }
  }

  /** Main result: while nobody writes, every step brings the walk nearer to its end or to a question. */
  lemma InternalStepGetsCloser(w: Reader, c: Config, e: Event)
    requires Invariant(c) && ChoicesFit(w, c)
    requires Internal(e) && PlannerFits(w, e) && Step(w, c, e).Some?
    ensures ChoicesFit(w, Step(w, c, e).value)
    ensures Closer(c, Step(w, c, e).value)
  {
    hide Worded, AsksAboutWords, AfterPlan, ClarifyNode, GuidedNode, AdoptForm, FillSlot, NextSlot, ReplacePlace;
    var s := c.state;
    if c.node == PlanRoute && e.Planned? {
      AfterPlanFits(w, s, e.plan);
    } else if c.node == PlanText && e.Planned? {
      AfterPlanFits(w, s, e.plan);
    } else if c.node == Clarify && ClarifyNode(w, s).Some? {
      ClarifyGetsCloser(w, s);
    }
  }

  /** So a request with n places in words is planned and clarified for at most 2n + 3 steps at a stretch. */
  lemma {:induction false} PlanningIsShort(w: Reader, c: Config, events: seq<Event>)
    requires Invariant(c) && ChoicesFit(w, c) && Phase(c.node) == 0
    requires Run(w, c, events).Some?
    requires forall e :: e in events ==> Internal(e) && PlannerFits(w, e)
    ensures var d := Run(w, c, events).value;
            Invariant(d) && ChoicesFit(w, d) && Phase(d.node) == 0 && |events| + Left(d) <= Left(c)
  {
    if events == [] {
    } else {
      hide Invariant, ChoicesFit, Left, Phase, Step, PlannerFits, Internal;
      var n := |events| - 1;
      PlanningIsShort(w, c, events[..n]);
      var d := Run(w, c, events[..n]).value;
      assert events[n] in events;
      StepKeepsInvariant(w, d, events[n]);
      InternalStepGetsCloser(w, d, events[n]);
      CloserInPhase(d, Step(w, d, events[n]).value);
    }
  }

  lemma CloserInPhase(c: Config, d: Config)
    requires Phase(c.node) == 0 && Closer(c, d)
    ensures Phase(d.node) == 0 && Left(d) + 1 <= Left(c)
  {
  }

  lemma RunNothing(w: Reader, c: Config)
    ensures Run(w, c, []) == Some(c)
  {
  }

  lemma RunOneMore(w: Reader, c: Config, events: seq<Event>, e: Event)
    requires Run(w, c, events).Some?
    ensures Run(w, c, events + [e]) == Step(w, Run(w, c, events).value, e)
  {
    assert (events + [e])[..|events|] == events;
  }

  // ------------------------------------------------------------------ what a conversation remembers

  /** The request whose plan this step brings, if any. */
  function PlannedNow(c: Config, e: Event): Option<Request> {
    if c.paused || !e.Planned? then None
    else if c.node == PlanText then Some(e.plan.request)
    else if c.node == PlanRoute then c.state.pendingRequest
    else None
  }

  predicate RemembersAll(s: State, t: State) {
    && t.lastRequest == s.lastRequest && t.lastPlan == s.lastPlan
    && t.failedRequest == s.failedRequest && t.awaitingRequest == s.awaitingRequest
  }

  /** A ready plan replaces the route; one that ended badly, or waits for a choice, leaves it alone. */
  predicate RemembersPlan(s: State, t: State, plan: Plan, request: Request) {
    match plan.status
    case Ready =>
      && t.lastRequest == Some(request) && t.lastPlan == Some(plan)
      && t.failedRequest.None? && t.awaitingRequest.None?
    case AwaitingClarification =>
      && t.lastRequest == s.lastRequest && t.lastPlan == s.lastPlan
      && t.failedRequest == s.failedRequest && t.awaitingRequest == Some(request)
    case Ended(_) =>
      && t.lastRequest == s.lastRequest && t.lastPlan == s.lastPlan
      && t.failedRequest == Some(request) && t.awaitingRequest.None?
  }

  /** A form replaces what it sends, and with its request the failed one no longer counts. */
  predicate RemembersForm(s: State, t: State) {
    var request := if s.form.Some? then s.form.value.request else None;
    var plan := if s.form.Some? then s.form.value.plan else None;
    && t.lastRequest == (if Holds(request) then request else s.lastRequest)
    && t.failedRequest == (if Holds(request) then None else s.failedRequest)
    && t.lastPlan == (if plan.Some? then plan else s.lastPlan)
    && t.awaitingRequest == s.awaitingRequest
  }

  predicate RemembersNothing(t: State) {
    t.lastRequest.None? && t.lastPlan.None? && t.failedRequest.None? && t.awaitingRequest.None?
  }

  /**
   * Main result: of the remembered route and requests a step changes only this. A plan that came to
   * nothing is kept to be tried again, beside the route on screen, and so is one that waits for a choice.
   */
  lemma OnlyThisIsForgotten(w: Reader, c: Config, e: Event)
    requires Invariant(c) && Step(w, c, e).Some?
    ensures var s, t, request := c.state, Step(w, c, e).value.state, PlannedNow(c, e);
            if request.Some? then RemembersPlan(s, t, e.plan, request.value)
            else if c.node == Ingest && e.Understood? then RemembersForm(s, t)
            else if c.node == Reset && e.Ran? then RemembersNothing(t)
            else RemembersAll(s, t)
  {
    hide NextSlot, ReplacePlace, Offered, RunNode, RemembersForm;
    if !c.paused && !e.Message? {
      hide RemembersPlan, RemembersAll;
      NodeForgets(w, c, e);
    }
  }

  lemma NodeForgets(w: Reader, c: Config, e: Event)
    requires Invariant(c) && !c.paused && EventFits(c, e) && RunNode(w, c, e).Some?
    ensures var s, t, request := c.state, RunNode(w, c, e).value.state, PlannedNow(c, e);
            if request.Some? then RemembersPlan(s, t, e.plan, request.value)
            else if c.node == Ingest && e.Understood? then RemembersForm(s, t)
            else if c.node == Reset && e.Ran? then RemembersNothing(t)
            else RemembersAll(s, t)
  {
    hide NextSlot, GuidedNode, AfterPlan, IngestNode, ClarifyNode, RemembersPlan, RemembersForm;
    var s := c.state;
    match c.node
    case Guided => GuidedRemembers(s, e.question, e.line, e.isPlace, e.answer);
    case PlanRoute =>
      if e.Planned? {
        PlanningRemembers(s, e.plan, e.plan.request);
      }
    case PlanText =>
      if e.Planned? {
        PlanningRemembers(s, e.plan, e.plan.request);
      }
    case Ingest => AdoptingRemembers(s, e.intent);
    case Clarify => ClarifyRemembers(w, s);
    case _ =>
  }

  lemma PlanningRemembers(s: State, plan: Plan, request: Request)
    ensures RemembersPlan(s, AfterPlan(s, plan, request), plan, request)
  {
  }

  lemma AdoptingRemembers(s: State, intent: Intent)
    ensures RemembersForm(s, IngestNode(s, intent))
  {
  }

  lemma ClarifyRemembers(w: Reader, s: State)
    ensures ClarifyNode(w, s).Some? ==> RemembersAll(s, ClarifyNode(w, s).value)
  {
    hide ReplacePlace, Offered;
  }

  lemma GuidedRemembers(s: State, question: bool, line: OneLine, isPlace: bool, answer: Answer)
    ensures var t := GuidedNode(s, question, line, isPlace, answer);
            && t.lastPlan == s.lastPlan && t.lastRequest == s.lastRequest
            && t.failedRequest == s.failedRequest && t.awaitingRequest == s.awaitingRequest
  {
    hide NextSlot, FillSlot, Seeded, RequestFromDraft;
  }

  // ------------------------------------------------------------------ the dialogue gets somewhere

  /** How many questions are still to be asked at most. */
  function OpenQuestions(draft: Draft): nat {
    (if draft.origin.None? then 1 else 0)
    + (if draft.loop.None? then 2
       else if draft.loop.value then (if draft.distanceKm.None? then 1 else 0)
       else (if draft.destination.None? then 1 else 0))
    + (if draft.bike.None? then 1 else 0)
  }

  /** A usable answer to the open question leaves fewer; at most four are ever needed. */
  lemma AnswerAdvances(draft: Draft, answer: Answer)
    requires NextSlot(draft).Some?
    requires FillSlot(draft, NextSlot(draft).value, answer).Some?
    ensures OpenQuestions(FillSlot(draft, NextSlot(draft).value, answer).value) < OpenQuestions(draft) <= 4
    ensures NextSlot(FillSlot(draft, NextSlot(draft).value, answer).value) != NextSlot(draft)
  {
  }

  /** In any run, a message to an open question either leaves it open as it was or answers it for good. */
  lemma QuestionsRunOut(w: Reader, c: Config, e: Event)
    requires Invariant(c) && c.node == Guided && !c.paused && c.state.asking.Some?
    requires e.Said? && Step(w, c, e).Some?
    ensures var t := Step(w, c, e).value.state;
            || (t.asking == c.state.asking && t.draft == c.state.draft && t.replied)
            || (t.asking.Some? && t.asking != c.state.asking && OpenQuestions(t.draft) < OpenQuestions(c.state.draft))
            || (t.asking.None? && Holds(t.pendingRequest) && Step(w, c, e).value.node == PlanRoute)
  {
    var slot := c.state.asking.value;
    var filled := FillSlot(c.state.draft, slot, e.answer);
    if filled.Some? {
      AnswerAdvances(c.state.draft, e.answer);
    }
    hide FillSlot, OpenQuestions, Seeded;
  }

  /** The request the dialogue ends with is a loop of the distance said, or leads to the place said. */
  lemma DialogueAsksForWhatWasSaid(draft: Draft)
    requires NextSlot(draft).None?
    ensures var r := RequestFromDraft(draft);
            && Holds(Some(r)) && r.origin == draft.origin && r.origin.Some? && r.constraints.Some?
            && (draft.loop == Some(true) <==> r.constraints.value.returnToOrigin)
            && (r.constraints.value.returnToOrigin <==> r.destination.None?)
            && (r.constraints.value.returnToOrigin <==> r.constraints.value.targetKm.Some?)
            && (r.destination.Some? ==> r.destination == draft.destination)
            && (r.constraints.value.targetKm.Some? ==> r.constraints.value.targetKm == draft.distanceKm)
  {
  }
}
