/**
 What a caller is told when a send returns (chat/service.py): the reply of a turn that ended by itself,
 that a newer message replaced the turn, or nothing, because the caller had gone away.
 */
module ChatResults {
  import opened Common
  import opened ChatService
  import opened ChatTurns

  /** A turn is told to cancel by a newer send or by its own caller's leaving, and is cancelled only when told. */
  ghost predicate AskedRightly(w: World, t: TurnId)
    requires t < |w.turns|
  {
    var me := w.turns[t];
    && (me.phase == Done(Cancelled) ==> me.asked)
    && (me.asked ==> me.replacedBy != {} || (me.sender < |w.senders| && w.senders[me.sender].left))
  }

  /** What the turn came to, and who went away, fits what the caller was told. */
  ghost predicate ToldRightly(w: World, s: SenderId)
    requires s < |w.senders|
  {
    var me := w.senders[s];
    me.stage.Returned? ==>
      && me.stage.turn < |w.turns| && w.turns[me.stage.turn].phase.Done?
      && var turn := w.turns[me.stage.turn];
      && (turn.phase == Done(Ended) && !me.left ==> me.stage.result == Reply)
      && (me.stage.result == Reply ==> turn.phase == Done(Ended))
      && (me.stage.result == TurnSuperseded ==> turn.replacedBy != {} && (turn.phase == Done(Cancelled) || me.left))
      && (me.stage.result == Gone ==> turn.replacedBy == {} && me.left)
  }

  ghost predicate AllTold(w: World) {
    && (forall t: TurnId :: t < |w.turns| ==> AskedRightly(w, t))
    && (forall s: SenderId :: s < |w.senders| ==> ToldRightly(w, s))
  }

  /** A world that differs in phases, and in what is asked of turns whose caller has just left. */
  lemma ToldFollows(w: World, next: World)
    requires AllTold(w) && |next.turns| == |w.turns| && |next.senders| == |w.senders|
    requires forall t: TurnId :: t < |w.turns| ==>
               && next.turns[t].replacedBy == w.turns[t].replacedBy && next.turns[t].sender == w.turns[t].sender
               && (w.turns[t].phase.Done? ==> next.turns[t].phase == w.turns[t].phase)
               && (next.turns[t].phase == Done(Cancelled) && !w.turns[t].phase.Done? ==> next.turns[t].asked)
               && (w.turns[t].asked ==> next.turns[t].asked)
               && (next.turns[t].asked ==> w.turns[t].asked || (w.turns[t].sender < |w.senders| && next.senders[w.turns[t].sender].left))
    requires forall s: SenderId :: s < |w.senders| ==>
               && next.senders[s].stage == w.senders[s].stage && (w.senders[s].left ==> next.senders[s].left)
               && (w.senders[s].stage.Returned? ==> next.senders[s].left == w.senders[s].left)
    ensures AllTold(next)
  {
    forall t: TurnId | t < |next.turns| ensures AskedRightly(next, t) {
      assert AskedRightly(w, t);
    }
    forall s: SenderId | s < |next.senders| ensures ToldRightly(next, s) {
      assert ToldRightly(w, s);
    }
  }

  lemma PhaseKeepsTold(w: World, ev: Event)
    requires AllTold(w) && (ev.Begin? || ev.Enter? || ev.Leave? || ev.Finish?)
    ensures AllTold(w.Step(ev))
  {
    hide LockOf, Recent, Evicted, Sids, World.Free, AllTold;
    ToldFollows(w, w.Step(ev));
  }

  lemma CallerLeavesKeepsTold(w: World, s: SenderId)
    requires Books(w) && AllTold(w)
    ensures AllTold(w.Step(CallerLeaves(s)))
  {
    hide AllTold;
    if s < |w.senders| && w.senders[s].stage.Following? {
      assert SenderOk(w, s);
      ToldFollows(w, w.Step(CallerLeaves(s)));
    }
  }

  lemma LaunchKeepsTold(w: World, s: SenderId)
    requires AllTold(w) && s < |w.senders| && w.senders[s].stage.Waiting?
    ensures AllTold(w.Launch(s))
  {
    var next := w.Launch(s);
    forall t: TurnId | t < |next.turns| ensures AskedRightly(next, t) {
      assert t < |w.turns| ==> AskedRightly(w, t);
    }
    forall x: SenderId | x < |next.senders| ensures ToldRightly(next, x) {
      assert ToldRightly(w, x);
    }
  }

  lemma SendKeepsTold(w: World, sid: Sid)
    requires Books(w) && AllTold(w)
    ensures AllTold(w.Sending(sid))
  {
    var p := Previous(w.running, sid, w.DoneTurns());
    var next := w.Sending(sid);
    if p.None? {
      var waiting := w.(senders := w.senders + [Sender(sid, Waiting(|w.turns|), false)]);
      forall t: TurnId | t < |w.turns| ensures AskedRightly(waiting, t) {
        assert AskedRightly(w, t);
      }
      forall x: SenderId | x < |waiting.senders| ensures ToldRightly(waiting, x) {
        assert x < |w.senders| ==> ToldRightly(w, x);
      }
      LaunchKeepsTold(waiting, |w.senders|);
    } else {
      assert RunningOk(w, sid);
      RunningIsNotDone(w, sid);
      forall t: TurnId | t < |next.turns| ensures AskedRightly(next, t) {
        assert AskedRightly(w, t) && TurnOk(w, t);
      }
      forall x: SenderId | x < |next.senders| ensures ToldRightly(next, x) {
        assert x < |w.senders| ==> ToldRightly(w, x);
      }
    }
  }

  lemma RunningIsNotDone(w: World, sid: Sid)
    requires Books(w) && Previous(w.running, sid, w.DoneTurns()).Some?
    ensures var p := Previous(w.running, sid, w.DoneTurns()).value; p < |w.turns| && !w.turns[p].phase.Done?
  {
    assert RunningOk(w, sid);
    assert w.running[sid] !in w.DoneTurns();
  }

  lemma ReturnKeepsTold(w: World, s: SenderId, interrupted: bool)
    requires Books(w) && AllTold(w)
    ensures AllTold(w.Step(Return(s, interrupted)))
  {
    var next := w.Step(Return(s, interrupted));
    if s < |w.senders| && w.senders[s].stage.Following? {
      var t := w.senders[s].stage.turn;
      assert SenderOk(w, s) && TurnOk(w, t) && AskedRightly(w, t);
    }
    forall t: TurnId | t < |next.turns| ensures AskedRightly(next, t) {
      assert AskedRightly(w, t);
    }
    forall x: SenderId | x < |next.senders| ensures ToldRightly(next, x) {
      assert ToldRightly(w, x);
    }
  }

  lemma StepKeepsTold(w: World, ev: Event)
    requires Books(w) && AllTold(w)
    ensures AllTold(w.Step(ev))
  {
    hide AllTold, Books, World.Sending, World.Launch;
    match ev
    case Send(sid) => SendKeepsTold(w, sid);
    case Resume(s) =>
      if s < |w.senders| && w.senders[s].stage.Waiting? {
        LaunchKeepsTold(w, s);
      }
    case Return(s, interrupted) => ReturnKeepsTold(w, s, interrupted);
    case CallerLeaves(s) => CallerLeavesKeepsTold(w, s);
    case AskDelete(_) => DeletingKeepsTold(w, ev);
    case Delete(_) => DeletingKeepsTold(w, ev);
    case _ => PhaseKeepsTold(w, ev);
  }

  lemma DeletingKeepsTold(w: World, ev: Event)
    requires AllTold(w) && (ev.AskDelete? || ev.Delete?)
    ensures AllTold(w.Step(ev))
  {
    hide LockOf, Without, World.Free, AllTold;
    ToldFollows(w, w.Step(ev));
  }

  lemma {:induction false} EveryRunTells(w: World, events: seq<Event>)
    requires Invariant(w) && AllTold(w)
    ensures Invariant(w.Run(events)) && AllTold(w.Run(events))
    decreases |events|
  {
    hide Books, Locks, World.Step, AllTold;
    if events != [] {
      StepKeepsBooks(w, events[0]);
      StepKeepsLocks(w, events[0]);
      StepKeepsTold(w, events[0]);
      EveryRunTells(w.Step(events[0]), events[1..]);
    }
  }

  lemma StartTells(max: nat)
    ensures AllTold(Start(max))
  {
  }

  /**
   Main result: in every run, who returned was told rightly. A turn that ended by itself gives its caller
   the reply, unless that caller had left; only a replaced turn's caller hears of a newer message, when the
   turn was cancelled or the caller had left; and only a caller that had left, of a turn nobody replaced,
   is told nothing.
   */
  lemma CallersAreToldRightly(max: nat, events: seq<Event>, s: SenderId)
    requires var w := Start(max).Run(events); s < |w.senders| && w.senders[s].stage.Returned?
    ensures var w := Start(max).Run(events);
            var me := w.senders[s];
            && me.stage.turn < |w.turns|
            && var turn := w.turns[me.stage.turn];
            && turn.sender == s && turn.sid == me.sid
            && (turn.phase == Done(Ended) || turn.phase == Done(Cancelled))
            && (turn.phase == Done(Ended) && !me.left ==> me.stage.result == Reply)
            && (turn.phase == Done(Cancelled) ==>
                me.stage.result == if turn.replacedBy != {} then TurnSuperseded else Gone)
            && (me.stage.result == TurnSuperseded ==>
                (turn.phase == Done(Cancelled) || me.left)
                && exists x :: x in turn.replacedBy && s < x < |w.senders| && w.senders[x].sid == me.sid)
            && (me.stage.result == Gone ==> turn.replacedBy == {} && me.left)
  {
    StartIsFine(max);
    StartTells(max);
    hide World.Run, Locks;
    EveryRunTells(Start(max), events);
    var w := Start(max).Run(events);
    assert ToldRightly(w, s) && SenderOk(w, s);
    var t := w.senders[s].stage.turn;
    assert TurnOk(w, t) && AskedRightly(w, t);
    assert w.turns[t].phase.outcome.Ended? || w.turns[t].phase.outcome.Cancelled?;
    if w.senders[s].stage.result == TurnSuperseded {
      var x :| x in w.turns[t].replacedBy;
    }
  }

  /** A caller whose own cancellation reaches it gets no reply, even when its turn had just ended. */
  lemma InterruptedGetsNoReply(max: nat, events: seq<Event>, s: SenderId)
    requires var w := Start(max).Run(events);
             && s < |w.senders| && w.senders[s].left && w.senders[s].stage.Following?
             && w.senders[s].stage.turn < |w.turns| && w.turns[w.senders[s].stage.turn].phase.Done?
    ensures var w := Start(max).Run(events);
            var turn := w.turns[w.senders[s].stage.turn];
            && w.Step(Return(s, true)).senders[s].stage
               == Returned(w.senders[s].stage.turn, if turn.replacedBy != {} then TurnSuperseded else Gone)
            && (turn.phase == Done(Ended) ==>
                w.Step(Return(s, false)).senders[s].stage == Returned(w.senders[s].stage.turn, Reply))
  {
    StartIsFine(max);
    hide World.Run, Locks;
    EveryRunKeepsInvariant(Start(max), events);
    var w := Start(max).Run(events);
    assert SenderOk(w, s) && TurnOk(w, w.senders[s].stage.turn);
  }
}
