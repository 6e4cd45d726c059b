/**
 * Which answer the page draws (frontend/app.js). Plan requests of the form, chat turns and GPX files
 * are all answered later, in any order; the page tells them apart by a generation that every new form
 * plan, every drawn chat route and every imported file raises.
 *
 * `Page` is the page's shared state with its handlers, one method for what runs between two awaits.
 * Each handler is tied to a function on `View`; the results about all interleavings use those.
 */
module PagePlans {
  import opened Common

  /** A route the chat answered with; `asked` is the generation when the message was sent. */
  datatype ChatAnswer = ChatAnswer(id: nat, asked: nat)

  datatype Drawing = Nothing | FormRoute(generation: nat) | ChatRoute(answer: ChatAnswer) | FileRoute(file: nat, generation: nat)

  datatype View = View(
    planGeneration: nat,
    planPending: Option<nat>,
    renderedGeneration: nat,
    deferredChat: Option<ChatAnswer>,
    gpxImportRequest: nat,
    chatBusy: bool,
    shown: Drawing)

  const BLANK := View(0, None, 0, None, 0, false, Nothing)

  // ------------------------------------------------------------------ the handlers as functions

  /** `planRoute` up to its request (the result panel is cleared). */
  function FormSent(v: View): View {
    v.(planGeneration := v.planGeneration + 1, planPending := Some(v.planGeneration + 1), shown := Nothing)
  }

  function ChatDrawn(v: View, answer: ChatAnswer): View {
    v.(planGeneration := v.planGeneration + 1, renderedGeneration := v.planGeneration + 1,
       deferredChat := None, shown := ChatRoute(answer))
  }

  function Settled(v: View, generation: nat, drawn: bool): View {
    var free := if v.planPending == Some(generation) then v.(planPending := None) else v;
    if generation != v.planGeneration then free
    else if drawn then free.(renderedGeneration := generation, deferredChat := None)
    else if v.deferredChat.Some? then ChatDrawn(free.(deferredChat := None), v.deferredChat.value)
    else free
  }

  /** `planRoute` from its answer on; no data when it failed or was aborted. */
  function FormAnswered(v: View, generation: nat, data: bool): View {
    if data && generation == v.planGeneration then Settled(v.(shown := FormRoute(generation)), generation, true)
    else Settled(v, generation, false)
  }

  /** `sendChat` from its answer on; `id` of the route the answer carries, if any. */
  function ChatAnswered(v: View, asked: nat, id: Option<nat>): View {
    var free := v.(chatBusy := false);
    if id.None? then free
    else
      var answer := ChatAnswer(id.value, asked);
      if asked == v.planGeneration || (v.planPending.None? && v.renderedGeneration != v.planGeneration) then
        ChatDrawn(free, answer)
      else if v.planPending.Some? then free.(deferredChat := Some(answer))
      else free
  }

  function FileChosen(v: View): View {
    v.(gpxImportRequest := v.gpxImportRequest + 1)
  }

  /** `importGpx` once the file is read; `ok` when it is a GPX. */
  function FileRead(v: View, file: nat, ok: bool): View {
    if file != v.gpxImportRequest || !ok then v
    else
      v.(planGeneration := v.planGeneration + 1, renderedGeneration := v.planGeneration + 1, deferredChat := None,
         shown := FileRoute(file, v.planGeneration + 1))
  }

  function FormReset(v: View): View {
    v.(gpxImportRequest := v.gpxImportRequest + 1, shown := Nothing)
  }

  /** When what is on the map was asked for (a file counts from when it was read). */
  function Asked(d: Drawing): nat {
    match d
    case Nothing => 0
    case FormRoute(g) => g
    case ChatRoute(a) => a.asked
    case FileRoute(_, g) => g
  }

  /** What is drawn is of the newest generation, and nothing is drawn while that one is under way. */
  predicate InStep(v: View) {
    && v.renderedGeneration <= v.planGeneration
    && (v.planPending.Some? ==> 1 <= v.planPending.value <= v.planGeneration)
    && (v.renderedGeneration != v.planGeneration ==> v.shown == Nothing)
    && (v.shown.FormRoute? ==> v.shown.generation == v.renderedGeneration)
    && Asked(v.shown) <= v.planGeneration
    && (v.deferredChat.Some? ==> v.deferredChat.value.asked <= v.planGeneration)
  }

  // ------------------------------------------------------------------ the page

  class Page {
    var planGeneration: nat
    var planPending: Option<nat>
    var renderedGeneration: nat
    var deferredChat: Option<ChatAnswer>
    var gpxImportRequest: nat
    var chatBusy: bool
    var shown: Drawing

    function Now(): View
      reads this
    {
      View(planGeneration, planPending, renderedGeneration, deferredChat, gpxImportRequest, chatBusy, shown)
    }

    predicate Valid()
      reads this
    {
      InStep(Now())
    }

    constructor ()
      ensures Valid() && Now() == BLANK
    {
      planGeneration, planPending, renderedGeneration := 0, None, 0;
      deferredChat, gpxImportRequest, chatBusy, shown := None, 0, false, Nothing;
    }

    method PlanRoute() returns (generation: nat)
      requires Valid()
      modifies this
      ensures Valid()
      ensures Now() == FormSent(old(Now())) && generation == planGeneration
    {
      shown := Nothing;
      planGeneration := planGeneration + 1;
      generation := planGeneration;
      planPending := Some(generation);
    }

    method PlanAnswered(generation: nat, data: bool)
      requires Valid()
      modifies this
      ensures Valid()
      ensures Now() == FormAnswered(old(Now()), generation, data)
    {
      var drawn := false;
      if data && generation == planGeneration {
        shown := FormRoute(generation);
        drawn := true;
      }
      SettlePlan(generation, drawn);
    }

    method SettlePlan(generation: nat, drawn: bool)
      requires !drawn ==> Valid()
      modifies this
      ensures !drawn ==> Valid()
      ensures Now() == Settled(old(Now()), generation, drawn)
    {
      if planPending == Some(generation) {
        planPending := None;
      }
      if generation != planGeneration {
        return;
      }
      if drawn {
        renderedGeneration := generation;
        deferredChat := None;
      } else if deferredChat.Some? {
        var held := deferredChat.value;
        deferredChat := None;
        DrawChatPlan(held);
      }
    }

    method SendChat() returns (asked: Option<nat>)
      requires Valid()
      modifies this
      ensures Valid()
      ensures asked == if old(chatBusy) then None else Some(planGeneration)
      ensures Now() == old(Now()).(chatBusy := true)
    {
      if chatBusy {
        return None;
      }
      chatBusy := true;
      asked := Some(planGeneration);
    }

    method ChatReplied(asked: nat, id: Option<nat>)
      requires Valid() && asked <= planGeneration
      modifies this
      ensures Valid()
      ensures Now() == ChatAnswered(old(Now()), asked, id)
    {
      if id.Some? {
        var stale := asked != planGeneration;
        if !stale || (planPending.None? && renderedGeneration != planGeneration) {
          DrawChatPlan(ChatAnswer(id.value, asked));
        } else if planPending.Some? {
          deferredChat := Some(ChatAnswer(id.value, asked));
        }
      }
      chatBusy := false;
    }

    method DrawChatPlan(answer: ChatAnswer)
      requires Valid() && answer.asked <= planGeneration
      modifies this
      ensures Valid()
      ensures Now() == ChatDrawn(old(Now()), answer)
    {
      planGeneration := planGeneration + 1;
      renderedGeneration := planGeneration;
      deferredChat := None;
      shown := ChatRoute(answer);
    }

    method ImportGpx() returns (request: nat)
      requires Valid()
      modifies this
      ensures Valid()
      ensures Now() == FileChosen(old(Now())) && request == gpxImportRequest
    {
      gpxImportRequest := gpxImportRequest + 1;
      request := gpxImportRequest;
    }

    method GpxRead(request: nat, ok: bool)
      requires Valid()
      modifies this
      ensures Valid()
      ensures Now() == FileRead(old(Now()), request, ok)
    {
      if request != gpxImportRequest || !ok {
        return;
      }
      planGeneration := planGeneration + 1;
      renderedGeneration := planGeneration;
      deferredChat := None;
      shown := FileRoute(request, planGeneration);
    }
  }

  // ------------------------------------------------------------------ all interleavings

  /** The page and what is under way: form requests, at most one chat turn, files being read. */
  datatype World = World(v: View, forms: set<nat>, chat: Option<nat>, files: set<nat>)

  const OPENED := World(BLANK, {}, None, {})

  datatype Event =
    | SendForm
    | FormAnswer(generation: nat, data: bool)
    | SendChat
    | ChatAnswerEvent(id: Option<nat>)
    | ChooseFile(refused: bool)
    | ReadFile(file: nat, ok: bool)
    | ResetForm

  /** An answer comes only to what is under way; an aborted request may still be answered. */
  function Step(w: World, e: Event): Option<World> {
    match e
    case SendForm => var v := FormSent(w.v); Some(w.(v := v, forms := w.forms + {v.planGeneration}))
    case FormAnswer(g, data) =>
      if g in w.forms then Some(w.(v := FormAnswered(w.v, g, data), forms := w.forms - {g})) else None
    case SendChat =>
      if w.v.chatBusy then None else Some(w.(v := w.v.(chatBusy := true), chat := Some(w.v.planGeneration)))
    case ChatAnswerEvent(id) =>
      if w.chat.Some? then Some(w.(v := ChatAnswered(w.v, w.chat.value, id), chat := None)) else None
    case ChooseFile(refused) =>
      var v := FileChosen(w.v);
      Some(w.(v := v, files := if refused then w.files else w.files + {v.gpxImportRequest}))
    case ReadFile(file, ok) =>
      if file in w.files then Some(w.(v := FileRead(w.v, file, ok), files := w.files - {file})) else None
    case ResetForm => Some(w.(v := FormReset(w.v)))
  }

  function Run(w: World, events: seq<Event>): Option<World> {
    if events == [] then Some(w)
    else
      var before := Run(w, events[..|events| - 1]);
      if before.Some? then Step(before.value, events[|events| - 1]) else None
  }

  lemma RunOneMore(w: World, events: seq<Event>, e: Event)
    requires Run(w, events).Some?
    ensures Run(w, events + [e]) == Step(Run(w, events).value, e)
  {
    assert (events + [e])[..|events|] == events;
  }

  ghost predicate Invariant(w: World) {
    var v := w.v;
    && InStep(v)
    && (forall g :: g in w.forms ==> 1 <= g <= v.planGeneration)
    && (v.planPending.Some? ==> v.planPending.value in w.forms)
    && (v.planGeneration in w.forms ==>
        v.planPending == Some(v.planGeneration) && v.renderedGeneration != v.planGeneration)
    && (w.chat.Some? <==> v.chatBusy)
    && (w.chat.Some? ==> w.chat.value <= v.planGeneration)
  }

  lemma FormStepKeeps(w: World, e: Event)
    requires Invariant(w) && Step(w, e).Some? && (e.SendForm? || e.ResetForm?)
    ensures Invariant(Step(w, e).value)
  {
  }

  lemma FormAnswerKeeps(w: World, g: nat, data: bool)
    requires Invariant(w) && Step(w, FormAnswer(g, data)).Some?
    ensures Invariant(Step(w, FormAnswer(g, data)).value)
  {
    if g != w.v.planGeneration {
      OlderAnswerChangesNothing(w, g, data);
      hide FormAnswered, Settled, ChatDrawn;
    }
  }

  lemma ChatStepKeeps(w: World, e: Event)
    requires Invariant(w) && Step(w, e).Some? && (e.SendChat? || e.ChatAnswerEvent?)
    ensures Invariant(Step(w, e).value)
  {
  }

  lemma FileStepKeeps(w: World, e: Event)
    requires Invariant(w) && Step(w, e).Some? && (e.ChooseFile? || e.ReadFile?)
    ensures Invariant(Step(w, e).value)
  {
  }

  lemma StepKeepsInvariant(w: World, e: Event)
    requires Invariant(w) && Step(w, e).Some?
    ensures Invariant(Step(w, e).value)
  {
    hide Invariant, Step;
    match e
    case SendForm => FormStepKeeps(w, e);
    case ResetForm => FormStepKeeps(w, e);
    case FormAnswer(g, data) => FormAnswerKeeps(w, g, data);
    case SendChat => ChatStepKeeps(w, e);
    case ChatAnswerEvent(_) => ChatStepKeeps(w, e);
    case _ => FileStepKeeps(w, e);
  }

  lemma {:induction false} EveryRunKeepsInvariant(events: seq<Event>)
    requires Run(OPENED, events).Some?
    ensures Invariant(Run(OPENED, events).value)
  {
    if events == [] {
    } else {
      hide Invariant, Step;
      var n := |events| - 1;
      EveryRunKeepsInvariant(events[..n]);
      StepKeepsInvariant(Run(OPENED, events[..n]).value, events[n]);
    }
  }

  /** Main result: after any run, a form's answer gets onto the map only if no newer plan was asked for or drawn. */
  lemma OnlyTheNewestFormIsDrawn(events: seq<Event>, e: Event)
    requires Run(OPENED, events).Some?
    ensures var w := Run(OPENED, events).value;
            Step(w, e).Some? && Step(w, e).value.v.shown.FormRoute? && Step(w, e).value.v.shown != w.v.shown ==>
              && e == FormAnswer(w.v.planGeneration, true)
              && Step(w, e).value.v.shown == FormRoute(w.v.planGeneration)
              && w.v.shown == Nothing
  {
    EveryRunKeepsInvariant(events);
  }

  /** The answer to an older request changes nothing a person sees, now or later. */
  lemma OlderAnswerChangesNothing(w: World, g: nat, data: bool)
    requires Invariant(w) && g in w.forms && g != w.v.planGeneration
    ensures var v := Step(w, FormAnswer(g, data)).value.v;
            v == w.v.(planPending := v.planPending)
    ensures w.v.planPending != Some(g) ==> Step(w, FormAnswer(g, data)).value.v == w.v
  {
  }

  /** Main result: what replaces a drawing was never asked for before it. */
  lemma OlderNeverReplacesNewer(events: seq<Event>, e: Event)
    requires Run(OPENED, events).Some?
    ensures var w := Run(OPENED, events).value;
            Step(w, e).Some? && w.v.shown != Nothing && Step(w, e).value.v.shown !in {Nothing, w.v.shown} ==>
              Asked(Step(w, e).value.v.shown) >= Asked(w.v.shown)
  {
    EveryRunKeepsInvariant(events);
  }

  /**
   * Main result: when the newest request settles, the held-back chat route is dropped if that request
   * drew and shown if it did not, and nothing stays held.
   */
  lemma NewestSettlesTheHeldRoute(events: seq<Event>, data: bool)
    requires Run(OPENED, events).Some?
    requires var w := Run(OPENED, events).value; w.v.planGeneration in w.forms
    ensures var w := Run(OPENED, events).value;
            var s := Step(w, FormAnswer(w.v.planGeneration, data));
            && s.Some? && s.value.v.deferredChat.None? && s.value.v.planPending.None?
            && s.value.v.shown == (if data then FormRoute(w.v.planGeneration)
                                   else if w.v.deferredChat.Some? then ChatRoute(w.v.deferredChat.value)
                                   else Nothing)
  {
    EveryRunKeepsInvariant(events);
  }

  // ------------------------------------------------------------------ nothing is held for ever

  /** A held-back route waits for the newest request, which is still under way. */
  ghost predicate HeldWaits(w: World) {
    w.v.deferredChat.Some? ==> w.v.planGeneration in w.forms
  }

  /** `planPending` still names a request that something newer has overtaken. */
  ghost predicate Straggling(w: World) {
    w.v.planPending.Some? && w.v.planPending.value != w.v.planGeneration
  }

  /** A chat route that comes too late for the map while only an overtaken request is pending. */
  ghost predicate HoldsForStraggler(w: World, e: Event) {
    e.ChatAnswerEvent? && e.id.Some? && w.chat.Some? && w.chat.value != w.v.planGeneration && Straggling(w)
  }

  /** Exactly these answers are held with nothing left to settle them. */
  lemma HeldWaitsIff(w: World, e: Event)
    requires Invariant(w) && HeldWaits(w) && Step(w, e).Some?
    ensures HeldWaits(Step(w, e).value) <==> !HoldsForStraggler(w, e)
  {
  }

  /** While an overtaken request is pending, no message older than that is out. */
  ghost predicate OvertakenOnlyByForms(w: World) {
    HeldWaits(w) && (Straggling(w) ==> w.chat.Some? ==> w.chat.value == w.v.planGeneration)
  }

  lemma StepWithoutFiles(w: World, e: Event)
    requires Invariant(w) && OvertakenOnlyByForms(w) && Step(w, e).Some?
    requires !e.ReadFile?
    ensures OvertakenOnlyByForms(Step(w, e).value)
  {
  }

  lemma {:induction false} RunWithoutFiles(events: seq<Event>)
    requires Run(OPENED, events).Some?
    requires forall e :: e in events ==> !e.ReadFile?
    ensures Invariant(Run(OPENED, events).value) && OvertakenOnlyByForms(Run(OPENED, events).value)
  {
    if events == [] {
    } else {
      hide Invariant, OvertakenOnlyByForms, Step;
      var n := |events| - 1;
      RunWithoutFiles(events[..n]);
      assert events[n] in events;
      StepKeepsInvariant(Run(OPENED, events[..n]).value, events[n]);
      StepWithoutFiles(Run(OPENED, events[..n]).value, events[n]);
    }
  }

  /** Main result: in every run in which no file is imported, a held route is waiting for the newest request. */
  lemma NothingIsHeldForEver(events: seq<Event>)
    requires Run(OPENED, events).Some?
    requires forall e :: e in events ==> !e.ReadFile?
    ensures HeldWaits(Run(OPENED, events).value)
  {
    RunWithoutFiles(events);
  }

  /** A pending request that was aborted, and so overtaken, reports back before any message is answered. */
  ghost predicate AbortsAreHeard(w: World, e: Event) {
    Straggling(w) ==> !e.ChatAnswerEvent?
  }

  ghost predicate HeardRun(events: seq<Event>) {
    events != [] ==>
      var n := |events| - 1;
      HeardRun(events[..n]) && Run(OPENED, events[..n]).Some? && AbortsAreHeard(Run(OPENED, events[..n]).value, events[n])
  }

  /** Main result: where aborts are heard first, a held route waits for the newest request, imports or not. */
  lemma {:induction false} HeardAbortsHoldNothing(events: seq<Event>)
    requires Run(OPENED, events).Some? && HeardRun(events)
    ensures Invariant(Run(OPENED, events).value) && HeldWaits(Run(OPENED, events).value)
  {
    if events == [] {
    } else {
      hide Invariant, Step, HeldWaits;
      var n := |events| - 1;
      HeardAbortsHoldNothing(events[..n]);
      var w := Run(OPENED, events[..n]).value;
      StepKeepsInvariant(w, events[n]);
      HeldWaitsIff(w, events[n]);
    }
  }

  lemma OneRequest()
    ensures var none: set<nat> := {}; none + {1} == {1} && none + {1} - {1} == none
  {
  }

  // ------------------------------------------------------------------ which file is drawn

  /** Choosing a file and resetting the form make every file chosen before an old one. */
  predicate Discards(e: Event) {
    e.ChooseFile? || e.ResetForm?
  }

  /** How many files were discarded or are the newest: a file's number when it is chosen. */
  function Number(events: seq<Event>): nat {
    if events == [] then 0
    else Number(events[..|events| - 1]) + (if Discards(events[|events| - 1]) then 1 else 0)
  }

  lemma {:induction false} RequestIsNumber(events: seq<Event>)
    requires Run(OPENED, events).Some?
    ensures Run(OPENED, events).value.v.gpxImportRequest == Number(events)
  {
    if events != [] {
      var n := |events| - 1;
      RequestIsNumber(events[..n]);
      StepNumbers(Run(OPENED, events[..n]).value, events[n]);
      hide Step;
    }
  }

  lemma StepNumbers(w: World, e: Event)
    requires Step(w, e).Some?
    ensures Step(w, e).value.v.gpxImportRequest == w.v.gpxImportRequest + if Discards(e) then 1 else 0
    ensures e == ChooseFile(false) ==> Step(w, e).value.v.gpxImportRequest in Step(w, e).value.files
    ensures forall file :: file in w.files && (e.ReadFile? ==> e.file != file) ==> file in Step(w, e).value.files
  {
  }

  /** Numbers grow, and only by what discards. */
  lemma {:induction false} NumberGrows(events: seq<Event>, i: nat)
    requires i <= |events|
    ensures Number(events[..i]) <= Number(events)
    ensures Number(events[..i]) == Number(events) <==> forall j :: i <= j < |events| ==> !Discards(events[j])
  {
    hide Discards;
    if i == |events| {
      assert events[..i] == events;
    } else {
      var n := |events| - 1;
      NumberGrows(events[..n], i);
      assert events[..n][..i] == events[..i];
      assert forall j :: i <= j < n ==> events[..n][j] == events[j];
    }
  }

  lemma RunBefore(events: seq<Event>)
    requires events != [] && Run(OPENED, events).Some?
    ensures Run(OPENED, events[..|events| - 1]).Some?
    ensures Run(OPENED, events) == Step(Run(OPENED, events[..|events| - 1]).value, events[|events| - 1])
  {
  }

  /** A chosen file is being read until its reading ends. */
  lemma {:induction false} ChosenIsBeingRead(events: seq<Event>, i: nat)
    requires Run(OPENED, events).Some? && i < |events| && events[i] == ChooseFile(false)
    requires forall j :: i < j < |events| && events[j].ReadFile? ==> events[j].file != Number(events[..i + 1])
    ensures Number(events[..i + 1]) in Run(OPENED, events).value.files
  {
    hide Step, Run, Discards;
    var n := |events| - 1;
    RunBefore(events);
    StepNumbers(Run(OPENED, events[..n]).value, events[n]);
    if i == n {
      assert events[..i + 1] == events;
      RequestIsNumber(events);
    } else {
      assert events[..n][..i + 1] == events[..i + 1];
      ChosenIsBeingRead(events[..n], i);
    }
  }

  /**
   Main result: in every run, a file that was chosen and whose reading ends now is drawn exactly when it is a
   GPX and neither another file was chosen nor the form reset since; otherwise nothing on the page changes.
   */
  lemma FileIsDrawnIff(events: seq<Event>, i: nat, ok: bool)
    requires Run(OPENED, events).Some? && i < |events| && events[i] == ChooseFile(false)
    requires forall j :: i < j < |events| && events[j].ReadFile? ==> events[j].file != Number(events[..i + 1])
    ensures var w, file := Run(OPENED, events).value, Number(events[..i + 1]);
            var after := Step(w, ReadFile(file, ok));
            && after.Some?
            && if ok && forall j :: i < j < |events| ==> !events[j].ChooseFile? && !events[j].ResetForm? then
                 && after.value.v.shown == FileRoute(file, after.value.v.planGeneration)
                 && after.value.v.planGeneration == w.v.planGeneration + 1 && after.value.v.deferredChat.None?
               else after.value.v == w.v
  {
    hide Run;
    ChosenIsBeingRead(events, i);
    RequestIsNumber(events);
    NumberGrows(events, i + 1);
  }

  /** The map is cleared by a new form request and by a reset, and by nothing else. */
  lemma MapIsClearedIff(w: World, e: Event)
    requires Invariant(w) && Step(w, e).Some? && w.v.shown != Nothing
    ensures Step(w, e).value.v.shown == Nothing <==> e.SendForm? || e.ResetForm?
  {
  }

  // ------------------------------------------------------------------ what becomes of a chat route

  predicate Kept(v: View, answer: ChatAnswer) {
    v.shown == ChatRoute(answer) || v.deferredChat == Some(answer)
  }

  /**
   * A route the chat answers with is neither drawn nor held exactly when the message was overtaken, no
   * form request is pending, and what was drawn last is the newest.
   */
  lemma AnswerIsLostIff(w: World, id: nat)
    requires Invariant(w) && w.chat.Some?
    requires !Kept(w.v, ChatAnswer(id, w.chat.value))
    ensures var answer := ChatAnswer(id, w.chat.value);
            !Kept(Step(w, ChatAnswerEvent(Some(id))).value.v, answer) <==>
              && w.chat.value != w.v.planGeneration && w.v.planPending.None?
              && w.v.renderedGeneration == w.v.planGeneration
  {
  }

  /**
   * That need not be a form's route, as the page then says: a held chat route that came to be shown
   * overtakes a newer message, whose own route is lost.
   */
  lemma HeldRouteOvertakesNewerMessage() returns (events: seq<Event>)
    ensures Run(OPENED, events).Some?
    ensures var v := Run(OPENED, events).value.v;
            v.shown == ChatRoute(ChatAnswer(1, 0)) && !Kept(v, ChatAnswer(2, 1))
  {
    OneRequest();
    events := [];
    RunOneMore(OPENED, events, SendChat);
    events := events + [SendChat];
    RunOneMore(OPENED, events, SendForm);
    events := events + [SendForm];
    RunOneMore(OPENED, events, ChatAnswerEvent(Some(1)));
    events := events + [ChatAnswerEvent(Some(1))];
    RunOneMore(OPENED, events, SendChat);
    events := events + [SendChat];
    RunOneMore(OPENED, events, FormAnswer(1, false));
    events := events + [FormAnswer(1, false)];
    RunOneMore(OPENED, events, ChatAnswerEvent(Some(2)));
    events := events + [ChatAnswerEvent(Some(2))];
  }
}
