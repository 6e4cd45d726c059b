/**
 One streamed plan from end to end: the server's queue between the planner and the response body
 (`plan_route_stream` in api.py), the text on the network, and what the page makes of it
 (`streamPlan` in frontend/app.js).
 */
module PlanStream {
  import opened Common
  import opened EventStream

  /** What one planner node reports: a `step`, and a `route` when there is a best route to show. */
  datatype Update<D> = Update(step: D, route: Option<D>)

  datatype Outcome<D> = Planned(body: D) | Crashed(detail: D)

  function StepEvents<D>(updates: seq<Update<D>>): seq<Event<D>> {
    if updates == [] then []
    else
      var u := updates[0];
      [Event(Step, u.step)] + (if u.route.Some? then [Event(Route, u.route.value)] else []) + StepEvents(updates[1..])
  }

  function Final<D>(outcome: Outcome<D>): Event<D> {
    match outcome
    case Planned(body) => Event(Result, body)
    case Crashed(detail) => Event(Error, detail)
  }

  /** Everything a plan tells: its steps, then exactly one final event. */
  function Told<D>(updates: seq<Update<D>>, outcome: Outcome<D>): seq<Event<D>> {
    StepEvents(updates) + [Final(outcome)]
  }

  // ---------------------------------------------------------------- the queue

  /** `todo` is what the producer has yet to put; None is the mark that ends the stream. */
  datatype Queue<D> = Queue(todo: seq<Option<Event<D>>>, queued: seq<Option<Event<D>>>, sent: seq<Event<D>>, closed: bool)
  {
    /** One move: the producer puts its next item, or the response body takes one and sends it. */
    function Move(produce: bool): Queue<D> {
      if produce then
        if todo == [] then this else this.(todo := todo[1..], queued := queued + [todo[0]])
      else if closed || queued == [] then this
      else match queued[0]
        case None => this.(queued := queued[1..], closed := true)
        case Some(event) => this.(queued := queued[1..], sent := sent + [event])
    }

    function Moves(run: seq<bool>): Queue<D>
      decreases |run|
    {
      if run == [] then this else Move(run[0]).Moves(run[1..])
    }

    /** Moves that are still to be made: an item is put once and taken once. */
    function Left(): nat {
      2 * |todo| + |queued|
    }

    /** All that is sent, queued and yet to come is the told events and the end mark. */
    ghost predicate Carries(told: seq<Event<D>>) {
      && |sent| <= |told| && sent == told[..|sent|]
      && (closed ==> sent == told && queued == [] && todo == [])
      && (!closed ==> queued + todo == Marked(told[|sent|..]))
    }
  }

  function Items<D>(events: seq<Event<D>>): (r: seq<Option<Event<D>>>)
    ensures |r| == |events| && forall i :: 0 <= i < |events| ==> r[i] == Some(events[i])
  {
    seq(|events|, i requires 0 <= i < |events| => Some(events[i]))
  }

  function Marked<D>(events: seq<Event<D>>): (r: seq<Option<Event<D>>>)
    ensures |r| == |events| + 1 && r[|events|] == None
    ensures forall i :: 0 <= i < |events| ==> r[i] == Some(events[i])
  {
    Items(events) + [None]
  }

  function Start<D>(told: seq<Event<D>>): Queue<D> {
    Queue(Marked(told), [], [], false)
  }

  lemma MoveCarries<D>(q: Queue<D>, produce: bool, told: seq<Event<D>>)
    requires q.Carries(told)
    ensures q.Move(produce).Carries(told)
  {
    if produce {
      assert q.todo != [] ==> q.Move(true).queued + q.Move(true).todo == q.queued + q.todo;
    } else if !q.closed && q.queued != [] {
      TakeCarries(q, told);
    }
  }

  lemma MarkedStep<D>(left: seq<Event<D>>)
    ensures if left == [] then Marked(left) == [None]
            else Marked(left)[0] == Some(left[0]) && Marked(left)[1..] == Marked(left[1..])
  {
  }

  lemma TakeCarries<D>(q: Queue<D>, told: seq<Event<D>>)
    requires q.Carries(told) && !q.closed && q.queued != []
    ensures q.Move(false).Carries(told)
  {
    hide Marked;
    var left := told[|q.sent|..];
    MarkedStep(left);
    assert q.queued[0] == (q.queued + q.todo)[0] == Marked(left)[0];
    assert q.queued[1..] + q.todo == (q.queued + q.todo)[1..] == Marked(left)[1..];
    if left != [] {
      assert told[..|q.sent| + 1] == told[..|q.sent|] + [left[0]];
      assert told[|q.sent| + 1..] == left[1..];
    }
  }

  /** In every interleaving the body sends a prefix of the told events, and all of them before it ends. */
  lemma {:induction false} EveryRunCarries<D>(q: Queue<D>, run: seq<bool>, told: seq<Event<D>>)
    requires q.Carries(told)
    ensures q.Moves(run).Carries(told)
    decreases |run|
  {
    if run != [] {
      MoveCarries(q, run[0], told);
      EveryRunCarries(q.Move(run[0]), run[1..], told);
    }
  }

  // ---------------------------------------------------------------- the producer

  lemma {:induction false} StepsSoFar<D>(updates: seq<Update<D>>, i: nat)
    requires i < |updates|
    ensures StepEvents(updates[..i + 1]) == StepEvents(updates[..i]) + StepEvents([updates[i]])
  {
    if i == 0 {
      assert updates[..1] == [updates[0]];
    } else {
      StepsSoFar(updates[1..], i - 1);
      assert updates[..i + 1][1..] == updates[1..][..i] && updates[..i][1..] == updates[1..][..i - 1];
    }
  }

  lemma NoUpdates<D>(updates: seq<Update<D>>)
    ensures StepEvents(updates[..0]) == []
  {
  }

  lemma ItemsOfOneMore<D>(updates: seq<Update<D>>, i: nat)
    requires i < |updates|
    ensures var u := updates[i];
            Items(StepEvents(updates[..i + 1])) == Items(StepEvents(updates[..i])) + [Some(Event(Step, u.step))]
            + (if u.route.Some? then [Some(Event(Route, u.route.value))] else [])
  {
    StepsSoFar(updates, i);
    assert [updates[i]][1..] == [];
  }

  /** `produce`: what it puts on the queue, however the planner ends. */
  method Produce<D>(updates: seq<Update<D>>, outcome: Outcome<D>) returns (put: seq<Option<Event<D>>>)
    ensures put == Marked(Told(updates, outcome))
  {
    hide StepEvents;
    put := [];
    NoUpdates(updates);
    for i := 0 to |updates|
      invariant put == Items(StepEvents(updates[..i]))
    {
      var u := updates[i];
      ItemsOfOneMore(updates, i);
      put := put + [Some(Event(Step, u.step))];
      if u.route.Some? {
        put := put + [Some(Event(Route, u.route.value))];
      }
    }
    assert updates[..|updates|] == updates;
    match outcome {
      case Planned(body) => put := put + [Some(Event(Result, body))];
      case Crashed(detail) => put := put + [Some(Event(Error, detail))];
    }
    put := put + [None];
  }

  // ---------------------------------------------------------------- the stream ends

  lemma {:induction false} MovesOn<D>(q: Queue<D>, one: seq<bool>, two: seq<bool>)
    ensures q.Moves(one + two) == q.Moves(one).Moves(two)
    decreases |one|
  {
    if one == [] {
      assert one + two == two;
    } else {
      assert (one + two)[1..] == one[1..] + two;
      MovesOn(q.Move(one[0]), one[1..], two);
    }
  }

  /** Nothing comes back; and a side that has something to do does it when it moves. */
  lemma {:induction false} MovesSpend<D>(q: Queue<D>, run: seq<bool>)
    ensures q.Moves(run).Left() <= q.Left()
    ensures q.todo != [] && true in run ==> q.Moves(run).Left() < q.Left()
    ensures q.todo == [] && q.queued != [] && !q.closed && false in run ==> q.Moves(run).Left() < q.Left()
    decreases |run|
  {
    if run != [] {
      MovesSpend(q.Move(run[0]), run[1..]);
    }
  }

  /** Main result: when both sides keep moving the stream ends, with everything sent. */
  lemma {:induction false} MovingSidesFinish<D>(q: Queue<D>, rounds: seq<seq<bool>>, told: seq<Event<D>>)
    requires q.Carries(told) && |rounds| >= q.Left()
    requires forall round :: round in rounds ==> true in round && false in round
    ensures q.Moves(Flatten(rounds)).closed && q.Moves(Flatten(rounds)).sent == told
    decreases |rounds|
  {
    EveryRunCarries(q, Flatten(rounds), told);
    if q.closed || rounds == [] {
      StaysClosed(q, Flatten(rounds));
    } else {
      MovesSpend(q, rounds[0]);
      EveryRunCarries(q, rounds[0], told);
      MovesOn(q, rounds[0], Flatten(rounds[1..]));
      MovingSidesFinish(q.Moves(rounds[0]), rounds[1..], told);
    }
  }

  lemma {:induction false} StaysClosed<D>(q: Queue<D>, run: seq<bool>)
    requires q.closed
    ensures q.Moves(run).closed
    decreases |run|
  {
    if run != [] {
      StaysClosed(q.Move(run[0]), run[1..]);
    }
  }

  // ---------------------------------------------------------------- the page

  /** What the page got: the last `result`, and the last `error` for when there is none. */
  datatype Answer<D> = Answer(result: Option<D>, error: Option<D>)

  function Hear<D>(answer: Answer<D>, e: Event<D>): Answer<D> {
    match e.kind
    case Result => answer.(result := Some(e.data))
    case Error => answer.(error := Some(e.data))
    case Step => answer
    case Route => answer
  }

  function Listen<D>(answer: Answer<D>, events: seq<Event<D>>): Answer<D>
    decreases |events|
  {
    if events == [] then answer else Listen(Hear(answer, events[0]), events[1..])
  }

  lemma {:induction false} ListenConcat<D>(answer: Answer<D>, a: seq<Event<D>>, b: seq<Event<D>>)
    ensures Listen(answer, a + b) == Listen(Listen(answer, a), b)
    decreases |a|
  {
    if a == [] {
      assert a + b == b;
    } else {
      assert (a + b)[1..] == a[1..] + b;
      ListenConcat(Hear(answer, a[0]), a[1..], b);
    }
  }

  /** A broken-off stream ends in the middle of the steps, or is whole. */
  lemma {:induction false} ListenToPrefix<D>(answer: Answer<D>, updates: seq<Update<D>>, heard: seq<Event<D>>)
    requires heard <= StepEvents(updates)
    ensures Listen(answer, heard) == answer
    decreases |heard|
  {
    StepsAreNoAnswers(updates);
    ListenToNoAnswers(answer, heard);
  }

  lemma {:induction false} StepsAreNoAnswers<D>(updates: seq<Update<D>>)
    ensures forall e <- StepEvents(updates) :: e.kind == Step || e.kind == Route
  {
    if updates != [] {
      StepsAreNoAnswers(updates[1..]);
    }
  }

  lemma {:induction false} ListenToNoAnswers<D>(answer: Answer<D>, events: seq<Event<D>>)
    requires forall i :: 0 <= i < |events| ==> events[i].kind == Step || events[i].kind == Route
    ensures Listen(answer, events) == answer
    decreases |events|
  {
    if events != [] {
      ListenToNoAnswers(answer, events[1..]);
    }
  }

  lemma SentIsToldSoFar<D>(json: Codec<D>, told: seq<Event<D>>, run: seq<bool>)
    requires ShortEnough(json, told)
    ensures var q := Start(told).Moves(run);
            q.sent <= told && ShortEnough(json, q.sent) && (q.closed ==> q.sent == told)
  {
    hide Queue.Moves;
    assert Start(told).Carries(told) by { assert told[0..] == told; }
    EveryRunCarries(Start(told), run, told);
    var sent := Start(told).Moves(run).sent;
    forall e | e in sent
      ensures |Sse(json, e)| <= MAX_EVENT_CHARS + 1
    {
      assert e in told;
    }
  }

  function Settled<D>(outcome: Outcome<D>): Answer<D> {
    match outcome
    case Planned(body) => Answer(Some(body), None)
    case Crashed(detail) => Answer(None, Some(detail))
  }

  lemma AnswerToPrefix<D>(updates: seq<Update<D>>, outcome: Outcome<D>, heard: seq<Event<D>>)
    requires heard <= Told(updates, outcome)
    ensures Listen(Answer(None, None), heard)
         == if heard == Told(updates, outcome) then Settled(outcome) else Answer(None, None)
  {
    var nothing: Answer<D> := Answer(None, None);
    if heard == Told(updates, outcome) {
      ListenToPrefix(nothing, updates, StepEvents(updates));
      ListenConcat(nothing, StepEvents(updates), [Final(outcome)]);
      assert [Final(outcome)][1..] == [];
    } else {
      assert heard <= StepEvents(updates);
      ListenToPrefix(nothing, updates, heard);
    }
  }

  /**
   The page's answer to a plan, for every interleaving of planner and response, every cut of the
   text into network pieces and every point at which the connection may break off: the plan's
   outcome if all of it arrived, nothing otherwise; never another result, never a partial one.
   */
  lemma PageHearsThePlan<D(!new)>(json: Codec<D>, updates: seq<Update<D>>, outcome: Outcome<D>, run: seq<bool>, pieces: seq<string>)
    requires Faithful(json) && ShortEnough(json, Told(updates, outcome))
    requires Flatten(pieces) <= Print(json, Start(Told(updates, outcome)).Moves(run).sent)
    ensures var q := Start(Told(updates, outcome)).Moves(run);
            var answer := Listen(Answer(None, None), Reading(json, "", pieces));
            && (answer == Answer(None, None) || answer == Settled(outcome))
            && (q.closed && Flatten(pieces) == Print(json, q.sent) ==> answer == Settled(outcome))
  {
    hide *;
    var told := Told(updates, outcome);
    SentIsToldSoFar(json, told, run);
    ReadingBrokenOff(json, Start(told).Moves(run).sent, pieces);
    AnswerToPrefix(updates, outcome, Reading(json, "", pieces));
  }
}
