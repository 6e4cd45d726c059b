/**
 When a newer message replaces the turn of an older one (chat/service.py). A send replaces the turn
 that the books hold as running for its session. Two sends that wait for one turn both make a turn of
 their own afterwards, and the books hold the later one only; so the results ask of every launch whether
 another send of the session is waiting.
 */
module ChatReplacement {
  import opened Common
  import opened ChatService
  import opened ChatTurns

  // ------------------------------------------------------------------ turns that can still be replaced

  /** The books hold the turn as its session's, and it is not over. */
  predicate Replaceable(w: World, t: TurnId) {
    t < |w.turns| && w.turns[t].sid in w.running && w.running[w.turns[t].sid] == t && !w.turns[t].phase.Done?
  }

  ghost predicate ReplacedLater(w: World, t: TurnId, events: seq<Event>)
    requires t < |w.turns|
  {
    t < |w.Run(events).turns| && w.Run(events).turns[t].replacedBy != w.turns[t].replacedBy
  }

  /** A turn the books do not hold is not taken up again, and its record stays. */
  lemma StepKeepsUnreplaceable(w: World, t: TurnId, ev: Event)
    requires Books(w) && t < |w.turns| && !Replaceable(w, t)
    ensures var next := w.Step(ev);
            && t < |next.turns| && !Replaceable(next, t)
            && next.turns[t].sid == w.turns[t].sid && next.turns[t].replacedBy == w.turns[t].replacedBy
  {
    hide LockOf, Recent, Evicted, Sids, Without, World.Free, SenderOk, TurnOk, RunningOk;
    match ev
    case Send(sid) => SendKeepsUnreplaceable(w, t, sid);
    case _ =>
  }

  lemma SendKeepsUnreplaceable(w: World, t: TurnId, sid: Sid)
    requires Books(w) && t < |w.turns| && !Replaceable(w, t)
    ensures var next := w.Step(Send(sid));
            && t < |next.turns| && !Replaceable(next, t)
            && next.turns[t].sid == w.turns[t].sid && next.turns[t].replacedBy == w.turns[t].replacedBy
  {
    hide SenderOk, TurnOk;
    assert sid in w.running ==> RunningOk(w, sid);
    assert t in w.DoneTurns() <==> w.turns[t].phase.Done?;
  }

  lemma {:induction false} NeverReplacedAgain(w: World, t: TurnId, events: seq<Event>)
    requires Books(w) && t < |w.turns| && !Replaceable(w, t)
    ensures t < |w.Run(events).turns| && w.Run(events).turns[t].replacedBy == w.turns[t].replacedBy
    decreases |events|
  {
    hide World.Step, Replaceable, Books;
    if events != [] {
      StepKeepsBooks(w, events[0]);
      StepKeepsUnreplaceable(w, t, events[0]);
      NeverReplacedAgain(w.Step(events[0]), t, events[1..]);
    }
  }

  lemma SendReplaces(w: World, t: TurnId)
    requires Books(w) && Replaceable(w, t) && w.Takes(w.turns[t].sid)
    ensures var next, s := w.Step(Send(w.turns[t].sid)), |w.senders|;
            && |next.turns| == |w.turns| && next.turns[t].asked && t in next.superseded
            && next.turns[t].replacedBy == w.turns[t].replacedBy + {s} && s !in w.turns[t].replacedBy
            && next.senders == w.senders + [Sender(w.turns[t].sid, Waiting(t), false)]
  {
    assert TurnOk(w, t);
    assert t !in w.DoneTurns();
  }

  /**
   Main result: while the service knows its session, some later run replaces a turn if and only if the
   books hold the turn and it is not over.
   */
  lemma ReplaceableIff(max: nat, past: seq<Event>, t: TurnId)
    requires var w := Start(max).Run(past); t < |w.turns| && w.Takes(w.turns[t].sid)
    ensures var w := Start(max).Run(past);
            (exists events :: ReplacedLater(w, t, events)) <==> Replaceable(w, t)
  {
    var w := Start(max).Run(past);
    StartIsFine(max);
    EveryRunKeepsInvariant(Start(max), past);
    if Replaceable(w, t) {
      var send := [Send(w.turns[t].sid)];
      SendReplaces(w, t);
      RunOfOne(w, send[0]);
      assert ReplacedLater(w, t, send);
    }
    if events :| ReplacedLater(w, t, events) {
      if !Replaceable(w, t) {
        NeverReplacedAgain(w, t, events);
      }
    }
  }

  lemma RunOfOne(w: World, ev: Event)
    ensures w.Run([ev]) == w.Step(ev)
  {
    assert [ev][1..] == [];
  }

  /**
   Main result: once a send has resumed while another of its session waited, and that one has resumed
   too, no later run replaces the first one's turn.
   */
  lemma OvertakenIsNeverReplaced(max: nat, past: seq<Event>, a: SenderId, b: SenderId, between: seq<Event>, later: seq<Event>)
    requires CanResume(Start(max).Run(past), a)
    requires var w := Start(max).Run(past);
             var after := w.Step(Resume(a)).Run(between);
             CanResume(after, b) && after.senders[b].sid == w.senders[a].sid
    ensures var w := Start(max).Run(past);
            var after, t := w.Step(Resume(a)).Run(between), |w.turns|;
            && t < |after.turns| && after.turns[t].sid == w.senders[a].sid
            && t < |after.Step(Resume(b)).Run(later).turns|
            && after.Step(Resume(b)).Run(later).turns[t].replacedBy == after.turns[t].replacedBy
  {
    hide World.Run, Books, Locks;
    var w := Start(max).Run(past);
    var first, t := w.Step(Resume(a)), |w.turns|;
    var after := first.Run(between);
    StartIsFine(max);
    EveryRunKeepsInvariant(Start(max), past);
    StepKeepsBooks(w, Resume(a));
    StepKeepsLocks(w, Resume(a));
    EveryRunKeepsInvariant(first, between);
    StepKeepsBooks(after, Resume(b));
    TurnsStay(first, between, t);
    NeverReplacedAgain(after.Step(Resume(b)), t, later);
  }

  predicate CanResume(w: World, s: SenderId) {
    && s < |w.senders| && w.senders[s].stage.Waiting? && w.senders[s].stage.previous < |w.turns|
    && w.turns[w.senders[s].stage.previous].phase.Done?
  }

  lemma StepKeepsTurns(w: World, ev: Event, t: TurnId)
    requires t < |w.turns|
    ensures t < |w.Step(ev).turns| && w.Step(ev).turns[t].sid == w.turns[t].sid
  {
    hide LockOf, Recent, Evicted, Sids, Without, World.Free, Cleared, Previous;
  }

  lemma {:induction false} TurnsStay(w: World, events: seq<Event>, t: TurnId)
    requires t < |w.turns|
    ensures t < |w.Run(events).turns| && w.Run(events).turns[t].sid == w.turns[t].sid
    decreases |events|
  {
    hide World.Step;
    if events != [] {
      StepKeepsTurns(w, events[0], t);
      TurnsStay(w.Step(events[0]), events[1..], t);
    }
  }

  // ------------------------------------------------------------------ runs in which each message replaces the last

  ghost predicate Waits(w: World, s: SenderId, sid: Sid) {
    s < |w.senders| && w.senders[s].sid == sid && w.senders[s].stage.Waiting?
  }

  /** A turn is made only while no other send of its session waits. */
  ghost predicate Orderly(w: World, ev: Event) {
    match ev
    case Send(sid) => Previous(w.running, sid, w.DoneTurns()).None? ==> forall x: SenderId :: !Waits(w, x, sid)
    case Resume(s) => CanResume(w, s) ==> forall x: SenderId :: x != s ==> !Waits(w, x, w.senders[s].sid)
    case _ => true
  }

  ghost predicate OrderlyRun(w: World, events: seq<Event>)
    decreases |events|
  {
    events != [] ==> Orderly(w, events[0]) && OrderlyRun(w.Step(events[0]), events[1..])
  }

  ghost predicate Live(w: World, t: TurnId, sid: Sid) {
    t < |w.turns| && w.turns[t].sid == sid && !w.turns[t].phase.Done?
  }

  /** The books hold every turn that is not over, and whoever waits, waits for it. */
  ghost predicate OneBySession(w: World) {
    && (forall t: TurnId, sid: Sid :: Live(w, t, sid) ==> sid in w.running && w.running[sid] == t)
    && (forall s: SenderId, t: TurnId, sid: Sid :: Waits(w, s, sid) && Live(w, t, sid) ==> w.senders[s].stage.previous == t)
  }

  lemma LaunchKeepsOne(w: World, s: SenderId)
    requires s < |w.senders| && OneBySession(w)
    requires forall t: TurnId :: !Live(w, t, w.senders[s].sid)
    requires forall x: SenderId :: x != s ==> !Waits(w, x, w.senders[s].sid)
    ensures OneBySession(w.Launch(s))
  {
    var next := w.Launch(s);
    forall t: TurnId, sid: Sid | Live(next, t, sid) ensures sid in next.running && next.running[sid] == t {
      assert t < |w.turns| ==> Live(w, t, sid);
    }
    forall x: SenderId, t: TurnId, sid: Sid | Waits(next, x, sid) && Live(next, t, sid) ensures next.senders[x].stage.previous == t {
      assert Waits(w, x, sid);
      assert t < |w.turns| ==> Live(w, t, sid);
    }
  }

  lemma SendKeepsOne(w: World, sid: Sid)
    requires Books(w) && OneBySession(w) && Orderly(w, Send(sid))
    ensures OneBySession(w.Sending(sid))
  {
    var p := Previous(w.running, sid, w.DoneTurns());
    var next := w.Sending(sid);
    if p.Some? {
      assert RunningOk(w, sid);
      forall t: TurnId, other: Sid | Live(next, t, other) ensures other in next.running && next.running[other] == t {
        assert Live(w, t, other);
      }
      forall x: SenderId, t: TurnId, other: Sid | Waits(next, x, other) && Live(next, t, other)
        ensures next.senders[x].stage.previous == t
      {
        assert Live(w, t, other);
        assert x < |w.senders| ==> Waits(w, x, other);
      }
    } else {
      NobodyLives(w, sid);
      var waiting := w.(senders := w.senders + [Sender(sid, Waiting(|w.turns|), false)]);
      forall t: TurnId, other: Sid | Live(waiting, t, other) ensures Live(w, t, other) {
      }
      forall x: SenderId, other: Sid | Waits(waiting, x, other) && x < |w.senders| ensures Waits(w, x, other) {
      }
      LaunchKeepsOne(waiting, |w.senders|);
    }
  }

  lemma NobodyLives(w: World, sid: Sid)
    requires OneBySession(w) && Previous(w.running, sid, w.DoneTurns()).None?
    ensures forall t: TurnId :: !Live(w, t, sid)
  {
    forall t: TurnId ensures !Live(w, t, sid) {
      assert Live(w, t, sid) ==> t !in w.DoneTurns();
    }
  }

  lemma ResumeKeepsOne(w: World, s: SenderId)
    requires OneBySession(w) && CanResume(w, s) && Orderly(w, Resume(s))
    ensures OneBySession(w.Launch(s))
  {
    forall t: TurnId ensures !Live(w, t, w.senders[s].sid) {
      assert Waits(w, s, w.senders[s].sid);
    }
    LaunchKeepsOne(w, s);
  }

  /** Steps that make no turn end some, at most, and let go only of turns that are over. */
  lemma QuietKeepsOne(w: World, next: World)
    requires OneBySession(w) && |next.turns| == |w.turns| && |next.senders| == |w.senders|
    requires forall t :: 0 <= t < |w.turns| ==>
               next.turns[t].sid == w.turns[t].sid && (w.turns[t].phase.Done? ==> next.turns[t].phase.Done?)
    requires forall s :: 0 <= s < |w.senders| ==>
               && next.senders[s].sid == w.senders[s].sid
               && (next.senders[s].stage.Waiting? ==> next.senders[s].stage == w.senders[s].stage)
    requires forall sid :: sid in w.running ==>
               (sid in next.running && next.running[sid] == w.running[sid]) || w.running[sid] in w.DoneTurns()
    ensures OneBySession(next)
  {
    forall t: TurnId, sid: Sid | Live(next, t, sid) ensures sid in next.running && next.running[sid] == t {
      assert Live(w, t, sid) && t !in w.DoneTurns();
    }
    forall x: SenderId, t: TurnId, sid: Sid | Waits(next, x, sid) && Live(next, t, sid) ensures next.senders[x].stage.previous == t {
      assert Live(w, t, sid) && Waits(w, x, sid);
    }
  }

  lemma StepKeepsOne(w: World, ev: Event)
    requires Books(w) && OneBySession(w) && Orderly(w, ev)
    ensures OneBySession(w.Step(ev))
  {
    match ev
    case Send(sid) => SendKeepsOne(w, sid);
    case Resume(s) =>
      if CanResume(w, s) {
        ResumeKeepsOne(w, s);
      }
    case _ => QuietStepKeepsOne(w, ev);
  }

  lemma QuietStepKeepsOne(w: World, ev: Event)
    requires OneBySession(w) && !ev.Send? && !ev.Resume?
    ensures OneBySession(w.Step(ev))
  {
    hide LockOf, Recent, Evicted, Sids, Without, World.Free, OneBySession;
    QuietKeepsOne(w, w.Step(ev));
  }

  lemma {:induction false} OrderlyRunKeepsOne(w: World, events: seq<Event>)
    requires Invariant(w) && OneBySession(w) && OrderlyRun(w, events)
    ensures Invariant(w.Run(events)) && OneBySession(w.Run(events))
    decreases |events|
  {
    hide Books, Locks, OneBySession, World.Step, Orderly;
    if events != [] {
      StepKeepsBooks(w, events[0]);
      StepKeepsLocks(w, events[0]);
      StepKeepsOne(w, events[0]);
      OrderlyRunKeepsOne(w.Step(events[0]), events[1..]);
    }
  }

  lemma OrderlyFromStart(max: nat, events: seq<Event>)
    requires OrderlyRun(Start(max), events)
    ensures Invariant(Start(max).Run(events)) && OneBySession(Start(max).Run(events))
  {
    StartIsFine(max);
    hide World.Run, OrderlyRun, Invariant;
    OrderlyRunKeepsOne(Start(max), events);
  }

  /**
   Main result: in every run that makes no turn while another send of its session waits, a session has
   at most one turn that is not over, dropped or not.
   */
  lemma OneLiveTurn(max: nat, events: seq<Event>, t: TurnId, u: TurnId)
    requires OrderlyRun(Start(max), events)
    requires var w := Start(max).Run(events);
             && t < |w.turns| && u < |w.turns| && w.turns[t].sid == w.turns[u].sid
             && !w.turns[t].phase.Done? && !w.turns[u].phase.Done?
    ensures t == u
  {
    OrderlyFromStart(max, events);
    hide World.Run, OrderlyRun;
    var w := Start(max).Run(events);
    assert Live(w, t, w.turns[t].sid) && Live(w, u, w.turns[t].sid);
  }

  /** Main result: and in every such run the next send to a session replaces the turn that is not over. */
  lemma NextSendReplaces(max: nat, events: seq<Event>, t: TurnId)
    requires OrderlyRun(Start(max), events)
    requires var w := Start(max).Run(events); t < |w.turns| && !w.turns[t].phase.Done? && w.Takes(w.turns[t].sid)
    ensures var w := Start(max).Run(events);
            var next := w.Step(Send(w.turns[t].sid));
            && |next.turns| == |w.turns| && next.turns[t].asked && t in next.superseded
            && next.senders == w.senders + [Sender(w.turns[t].sid, Waiting(t), false)]
  {
    OrderlyFromStart(max, events);
    hide World.Run, OrderlyRun;
    var w := Start(max).Run(events);
    assert Live(w, t, w.turns[t].sid);
    SendReplaces(w, t);
  }
}
