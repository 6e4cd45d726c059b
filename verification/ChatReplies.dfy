/**
 What a turn of the dialogue ends with (chat/graph.py): a reply, and for a question about alternatives the
 route it shows.
 */
module ChatReplies {
  import opened Common
  import opened ChatGraph

  /** The planner waits for a choice of places and names none. */
  predicate WaitsForNothing(e: Event) {
    e.Planned? && e.plan.status.AwaitingClarification? && e.plan.clarification == []
  }

  lemma PlanReplies(s: State, plan: Plan, request: Request)
    requires !s.replied
    ensures var t := AfterPlan(s, plan, request);
            AfterPlanning(t) == Finish ==> (!t.replied <==> plan.status.AwaitingClarification? && plan.clarification == [])
  {
  }

  lemma GuidedReplies(s: State, question: bool, line: OneLine, isPlace: bool, answer: Answer)
    requires s.pendingRequest.None?
    ensures var t := GuidedNode(s, question, line, isPlace, answer); AfterRequest(t) == Finish ==> t.replied
  {
    hide FillSlot, Seeded, NextSlot;
  }

  lemma ClarifyReplies(w: Reader, s: State)
    ensures ClarifyNode(w, s).Some? && AfterClarify(ClarifyNode(w, s).value) == Finish ==> ClarifyNode(w, s).value.replied
  {
    hide Offered, ReplacePlace;
  }

  lemma AnsweredGoesOn(w: Reader, s: State, text: string, followup: Option<Intent>)
    requires FirstToChoose(s.clarification).Some?
    ensures AfterClarify(ClarifyAnswered(w, s, text, followup)) != Finish
  {
    hide Offered, ReplacePlace;
  }

  lemma StepReplies(w: Reader, c: Config, e: Event)
    requires Invariant(c) && Step(w, c, e).Some? && Step(w, c, e).value.node == Finish
    ensures !Step(w, c, e).value.state.replied <==> WaitsForNothing(e)
  {
    if c.paused {
      AnsweredGoesOn(w, c.state, e.text, e.followup);
    } else if c.node in {PlanRoute, PlanText, Guided, Clarify} {
      BusyNodeReplies(w, c, e);
    } else {
      hide NextSlot, GuidedNode, AfterPlan, IngestNode, ClarifyNode;
    }
  }

  lemma BusyNodeReplies(w: Reader, c: Config, e: Event)
    requires Invariant(c) && !c.paused && c.node in {PlanRoute, PlanText, Guided, Clarify}
    requires Step(w, c, e).Some? && Step(w, c, e).value.node == Finish
    ensures !Step(w, c, e).value.state.replied <==> WaitsForNothing(e)
  {
    hide NextSlot, GuidedNode, AfterPlan, AfterPlanning, AfterClarify, IngestNode, ClarifyNode;
    if c.node == Guided && e.Said? {
      GuidedReplies(c.state, e.question, e.line, e.isPlace, e.answer);
    } else if c.node == Clarify {
      ClarifyReplies(w, c.state);
    } else if e.Planned? {
      PlanReplies(c.state, e.plan, if c.node == PlanRoute then c.state.pendingRequest.value else e.plan.request);
    }
  }

  /**
   Main result: in every run, a turn comes to its end without a reply if and only if the planner waited for a
   choice of places without naming any.
   */
  lemma TurnRepliesIff(w: Reader, events: seq<Event>, e: Event)
    requires Run(w, START, events).Some? && Step(w, Run(w, START, events).value, e).Some?
    requires Step(w, Run(w, START, events).value, e).value.node == Finish
    ensures !Step(w, Run(w, START, events).value, e).value.state.replied <==> WaitsForNothing(e)
  {
    hide *;
    EveryRunKeepsInvariant(w, events);
    StepReplies(w, Run(w, START, events).value, e);
  }

  /**
   A question about the alternatives hands out the route on screen, and the one asked for in focus, unless there
   is no route, or one was asked for that several could be and none was recognised.
   */
  lemma AlternativesShow(w: Reader, c: Config, e: Event)
    requires Invariant(c) && c.node == Alternatives && !c.paused && e.Picked? && Step(w, c, e).Some?
    ensures var d, route := Step(w, c, e).value, c.state.lastPlan;
            && d.node == Finish
            && (route.None? ==> HandedOut(d).None?)
            && (route.Some? && e.rank.Some? ==> HandedOut(d) == route && d.state.focusRank == e.rank)
            && (route.Some? && e.rank.None? ==>
                HandedOut(d) == if e.askedForOne && |route.value.ranks| >= 2 then None else route)
  {
    hide NextSlot, GuidedNode, AfterPlan, IngestNode, ClarifyNode;
  }

  // ------------------------------------------------------------------ what an intent leads to

  /** What can happen next in a turn of this intent. */
  predicate Takes(intent: Intent, e: Event) {
    match intent
    case PlanIntent => e.Asked?
    case PlanTextIntent => e.Planned? || e.NotPlanned?
    case GuidedIntent => e.Said?
    case RefineIntent => e.Asked? || e.NotAsked?
    case OptimizeIntent => e.Asked? || e.NotAsked?
    case AlternativesIntent => e.Picked?
    case _ => e.Ran?
  }

  /**
   Every intent leads where it should: to planning, to the dialogue, to a change or to the alternatives, by what
   can happen next; starting over forgets all routes; sights, an explanation, files and help end the turn, hand out
   no route and change none that is remembered.
   */
  lemma IntentDoesWhatItIsFor(w: Reader, c: Config, e: Event)
    requires Invariant(c) && c.node == Router && !c.paused && Step(w, c, Routed).Some? && !e.Message?
    requires Step(w, Step(w, c, Routed).value, e).Some?
    ensures Takes(c.state.intent, e)
    ensures var d := Step(w, Step(w, c, Routed).value, e).value;
            && (c.state.intent.PlanIntent? ==> d.node == PlanRoute && d.state.pendingRequest == Some(e.request))
            && (c.state.intent.ResetIntent? ==> RemembersNothing(d.state) && d.state.asking == Some(OriginSlot))
            && (c.state.intent in {SightsIntent, ExplainIntent, ExportIntent, HelpIntent} ==>
                d.node == Finish && HandedOut(d).None? && RemembersAll(c.state, d.state))
  {
    hide NextSlot, GuidedNode, AfterPlan, IngestNode, ClarifyNode, AlternativesNode;
  }

  /** A request is changed exactly when there is one to change: the one that failed, or that of the route on screen. */
  lemma ChangeNeedsARequest(w: Reader, c: Config, request: Request)
    requires (c.node == Refine || c.node == Optimize) && !c.paused && Holds(Some(request))
    ensures Step(w, c, Asked(request)).Some? <==> Holds(c.state.failedRequest) || Holds(c.state.lastRequest)
    ensures Step(w, c, Asked(request)).Some? ==>
              Step(w, c, Asked(request)).value.node == PlanRoute
              && Step(w, c, Asked(request)).value.state == c.state.(pendingRequest := Some(request))
  {
  }

  /** What the choices of places are after a step that is not one of choosing. */
  predicate ChoicesAfter(c: Config, e: Event, after: seq<Group>) {
    if c.node in {PlanRoute, PlanText} && e.Planned? then
      match e.plan.status
      case Ready => after == []
      case AwaitingClarification => after == e.plan.clarification
      case Ended(_) => after == c.state.clarification
    else if c.node == Reset && e.Ran? then after == []
    else after == c.state.clarification
  }

  /** A ready plan and starting over leave nothing to choose, a waiting plan what it asks; nothing else opens a choice. */
  lemma OpenChoicesAre(w: Reader, c: Config, e: Event)
    requires !c.paused && c.node != Clarify && Step(w, c, e).Some?
    ensures if e.Message? then Step(w, c, e).value.state.clarification == c.state.clarification
            else ChoicesAfter(c, e, Step(w, c, e).value.state.clarification)
  {
    hide NextSlot, FillSlot, Seeded, RequestFromDraft;
  }
}
