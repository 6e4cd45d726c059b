/**
 The request a chat returns beside a route (chat/graph.py). Plans and forms both tell the conversation of
 requests and routes, at different times; what it returns is the last of each.
 */
module ChatMemory {
  import opened Common
  import opened ChatGraph

  // ------------------------------------------------------------------ what a run told the conversation

  /** The form of the last message, while it is not taken over. */
  function FormSent(events: seq<Event>): Option<FormContext> {
    if events == [] then None
    else match events[|events| - 1]
    case Message(form) => form
    case Understood(_) => None
    case _ => FormSent(events[..|events| - 1])
  }

  function SentRequest(form: Option<FormContext>): Option<Request> {
    if form.Some? && Holds(form.value.request) then form.value.request else None
  }

  function SentPlan(form: Option<FormContext>): Option<Plan> {
    if form.Some? then form.value.plan else None
  }

  /** The last step cleared the conversation. */
  predicate Cleared(w: Reader, events: seq<Event>)
    requires events != []
  {
    var before := Run(w, START, events[..|events| - 1]);
    events[|events| - 1].Ran? && before.Some? && before.value.node == Reset && !before.value.paused
  }

  /** The request told last: by a plan that got ready, or by a form. */
  function RequestTold(w: Reader, events: seq<Event>): Option<Request> {
    if events == [] then None
    else
      var before, e := events[..|events| - 1], events[|events| - 1];
      if e.Planned? && e.plan.status.Ready? then Some(e.plan.request)
      else if e.Understood? && SentRequest(FormSent(before)).Some? then SentRequest(FormSent(before))
      else if Cleared(w, events) then None
      else RequestTold(w, before)
  }

  function RouteTold(w: Reader, events: seq<Event>): Option<Plan> {
    if events == [] then None
    else
      var before, e := events[..|events| - 1], events[|events| - 1];
      if e.Planned? && e.plan.status.Ready? then Some(e.plan)
      else if e.Understood? && SentPlan(FormSent(before)).Some? then SentPlan(FormSent(before))
      else if Cleared(w, events) then None
      else RouteTold(w, before)
  }

  /**
   The last of these in the run keeps a route's request: a plan that got ready; a form with a request,
   which is its own route's, or without one the route's told last; a form with a route alone, made from
   the request told last. A form with neither changes nothing, and no reset came after.
   */
  ghost predicate KeptItsRequest(w: Reader, events: seq<Event>) {
    events != [] &&
      var before, e := events[..|events| - 1], events[|events| - 1];
      if e.Planned? && e.plan.status.Ready? then true
      else if e.Understood? && SentRequest(FormSent(before)).Some? then
        var route := if SentPlan(FormSent(before)).Some? then SentPlan(FormSent(before)) else RouteTold(w, before);
        route.Some? && route.value.request == SentRequest(FormSent(before)).value
      else if e.Understood? && SentPlan(FormSent(before)).Some? then
        RequestTold(w, before) == Some(SentPlan(FormSent(before)).value.request)
      else !Cleared(w, events) && KeptItsRequest(w, before)
  }

  lemma StepKeepsForm(w: Reader, c: Config, e: Event)
    requires Step(w, c, e).Some?
    ensures Step(w, c, e).value.state.form ==
            if e.Message? then e.form else if e.Understood? then None else c.state.form
  {
    hide NextSlot, FillSlot, Seeded, RequestFromDraft, ReplacePlace, Offered, AdoptForm, FirstToChoose;
  }

  /** What one step tells, in terms of the step alone. */
  lemma StepTells(w: Reader, c: Config, e: Event)
    requires Invariant(c) && Step(w, c, e).Some?
    ensures var s, t := c.state, Step(w, c, e).value.state;
            if e.Planned? && e.plan.status.Ready? then t.lastRequest == Some(e.plan.request) && t.lastPlan == Some(e.plan)
            else if e.Understood? then
              && t.lastRequest == (if SentRequest(s.form).Some? then SentRequest(s.form) else s.lastRequest)
              && t.lastPlan == (if SentPlan(s.form).Some? then SentPlan(s.form) else s.lastPlan)
            else if e.Ran? && c.node == Reset && !c.paused then t.lastRequest.None? && t.lastPlan.None?
            else t.lastRequest == s.lastRequest && t.lastPlan == s.lastPlan
  {
    OnlyThisIsForgotten(w, c, e);
    WhereItHappens(w, c, e);
    hide Step;
  }

  lemma WhereItHappens(w: Reader, c: Config, e: Event)
    requires Invariant(c) && Step(w, c, e).Some?
    ensures e.Planned? ==> PlannedNow(c, e) == Some(e.plan.request)
    ensures e.Understood? ==> c.node == Ingest
    ensures c.paused ==> c.node == Clarify
  {
    hide IngestNode, GuidedNode, AfterPlan, ClarifyNode, ClarifyAnswered, AlternativesNode, ResetNode;
  }

  /** Main result: after any run the conversation holds the request and the route that were told last. */
  lemma {:induction false} HoldsWhatWasTold(w: Reader, events: seq<Event>)
    requires Run(w, START, events).Some?
    ensures var c := Run(w, START, events).value;
            && Invariant(c) && c.state.form == FormSent(events)
            && c.state.lastRequest == RequestTold(w, events) && c.state.lastPlan == RouteTold(w, events)
  {
    hide Invariant, Step, SentRequest, SentPlan;
    if events == [] {
      EveryRunKeepsInvariant(w, events);
    } else {
      var n := |events| - 1;
      HoldsWhatWasTold(w, events[..n]);
      var c := Run(w, START, events[..n]).value;
      StepKeepsInvariant(w, c, events[n]);
      StepKeepsForm(w, c, events[n]);
      StepTells(w, c, events[n]);
    }
  }

  lemma {:induction false} KeptMeansSame(w: Reader, events: seq<Event>)
    ensures KeptItsRequest(w, events) && RouteTold(w, events).Some? ==>
              RequestTold(w, events) == Some(RouteTold(w, events).value.request)
    ensures RouteTold(w, events).Some? && RequestTold(w, events) == Some(RouteTold(w, events).value.request) ==>
              KeptItsRequest(w, events)
  {
    hide SentRequest, SentPlan, Run;
    if events != [] {
      KeptMeansSame(w, events[..|events| - 1]);
    }
  }

  /**
   Main result: in every run, the request returned beside a route is the one that route was planned from
   if and only if the plans and forms since that route kept its request.
   */
  lemma ReturnedRequestIsTheRoutesIff(w: Reader, events: seq<Event>)
    requires Run(w, START, events).Some?
    ensures var c := Run(w, START, events).value;
            c.node == End && HandedOut(c).Some? ==>
              (c.state.lastRequest == Some(HandedOut(c).value.request) <==> KeptItsRequest(w, events))
  {
    HoldsWhatWasTold(w, events);
    KeptMeansSame(w, events);
    TurnHandsOutLastPlan(w, events);
    hide Run, RequestTold, RouteTold, KeptItsRequest, FormSent;
  }

  // ------------------------------------------------------------------ forms that keep them together

  /** The form sends its request and the route made from it, or neither. */
  predicate FormPairs(form: Option<FormContext>) {
    SentPlan(form).Some? == SentRequest(form).Some?
    && (SentPlan(form).Some? ==> SentRequest(form) == Some(SentPlan(form).value.request))
  }

  lemma {:induction false} PairingFormsKeep(w: Reader, events: seq<Event>)
    requires forall e :: e in events && e.Message? ==> FormPairs(e.form)
    ensures FormPairs(FormSent(events))
    ensures RouteTold(w, events).Some? ==> KeptItsRequest(w, events)
  {
    assert FormPairs(None);
    hide SentRequest, SentPlan, Cleared;
    if events != [] {
      var before := events[..|events| - 1];
      PairingFormsKeep(w, before);
      assert events[|events| - 1] in events;
      assert FormPairs(FormSent(before));
    }
  }

  /** The conversation after a walk for the alternatives, with this form. */
  function Compared(s: State, form: FormContext): State {
    AlternativesNode(IngestNode(s.(form := Some(form)), AlternativesIntent), None, false)
  }

  const COMPARING := [Understood(AlternativesIntent), Routed, Picked(None, false), Ran]

  lemma ComparingSteps(w: Reader, s: State, form: FormContext)
    requires form.plan.None?
    ensures var told := s.(form := Some(form));
            var read := IngestNode(told, AlternativesIntent);
            && Step(w, Config(End, s, false), Message(Some(form))) == Some(Config(Ingest, told, false))
            && Step(w, Config(Ingest, told, false), COMPARING[0]) == Some(Config(Router, read, false))
            && Step(w, Config(Router, read, false), COMPARING[1]) == Some(Config(Alternatives, read, false))
            && Step(w, Config(Alternatives, read, false), COMPARING[2]) ==
               Some(Config(Finish, Compared(s, form), false))
            && Step(w, Config(Finish, Compared(s, form), false), COMPARING[3]) ==
               Some(Config(End, Compared(s, form), false))
  {
    hide AlternativesNode, AdoptForm;
  }

  /** A message that asks for the alternatives, walked to its end. */
  lemma ComparingRuns(w: Reader, s: State, form: FormContext)
    requires form.plan.None?
    ensures Run(w, Config(End, s, false), [Message(Some(form))] + COMPARING) == Some(Config(End, Compared(s, form), false))
  {
    hide Run, Step, Compared, IngestNode;
    var c, m, o := Config(End, s, false), [Message(Some(form))], COMPARING;
    ComparingSteps(w, s, form);
    RunNothing(w, c);
    RunOneMore(w, c, [], m[0]);
    assert [] + [m[0]] == m;
    RunOneMore(w, c, m, o[0]);
    RunOneMore(w, c, m + [o[0]], o[1]);
    RunOneMore(w, c, m + [o[0]] + [o[1]], o[2]);
    RunOneMore(w, c, m + [o[0]] + [o[1]] + [o[2]], o[3]);
    assert m + [o[0]] + [o[1]] + [o[2]] + [o[3]] == m + o;
  }

  /**
   * A form edited after the last route sends its request alone. Asked for the alternatives then, the
   * chat returns the old route beside a request it was not planned from.
   */
  lemma EditedFormSeparatesThem(w: Reader, s: State, plan: Plan, edited: Request)
    requires s.lastPlan == Some(plan) && plan.status.Ready? && s.lastRequest == Some(plan.request) && s.form.None?
    requires edited != plan.request && edited != EMPTY
    ensures var form := FormContext(Some(edited), None);
            var d := Run(w, Config(End, s, false), [Message(Some(form))] + COMPARING);
            && d.Some? && d.value.node == End
            && HandedOut(d.value) == Some(plan) && d.value.state.lastRequest == Some(edited)
  {
    hide Run;
    ComparingRuns(w, s, FormContext(Some(edited), None));
  }
}
