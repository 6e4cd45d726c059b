/**
 Every interleaving of sends, turns, departures and deletions in a chat service: a world of senders
 and turns around the service's books, one step per stretch of code between two awaits.
 */
module ChatTurns {
  import opened Common
  import opened ChatService

  datatype Outcome = Ended | Cancelled

  /** A turn is made, waits for its session's lock, works inside it, notes what it missed, and is done. */
  datatype Phase = Created | Queued(lock: Lock) | Inside(lock: Lock) | Unlocked | Done(outcome: Outcome)

  /** `asked`: it was told to cancel. `replacedBy`: the sends that found it running and replaced it. */
  datatype Turn = Turn(sid: Sid, sender: SenderId, asked: bool, phase: Phase, replacedBy: set<SenderId>)

  datatype Result = Reply | TurnSuperseded | Gone

  /** A send waits for the turn it replaces, follows its own turn, and returns. */
  datatype Stage = Waiting(previous: TurnId) | Following(turn: TurnId) | Returned(turn: TurnId, result: Result)

  /** `left`: whoever called the send went away. */
  datatype Sender = Sender(sid: Sid, stage: Stage, left: bool)

  datatype Event =
    | Send(sid: Sid)
    | Resume(sender: SenderId)
    | Begin(turn: TurnId)
    | Enter(turn: TurnId)
    | Leave(turn: TurnId, cancelled: bool)
    | Finish(turn: TurnId, cancelled: bool)
    | Return(sender: SenderId, interrupted: bool)
    | CallerLeaves(sender: SenderId)
    | AskDelete(sid: Sid)
    | Delete(which: nat)

  /** `dropped` remembers the sessions that were evicted or deleted at some time. */
  datatype World = World(
    max: nat, sessions: seq<Session>, running: map<Sid, TurnId>, superseded: set<TurnId>, locks: nat,
    turns: seq<Turn>, senders: seq<Sender>, deleters: seq<Session>, dropped: set<Sid>)
  {
    predicate Free(lock: Lock) {
      forall t :: 0 <= t < |turns| ==> turns[t].phase != Inside(lock)
    }

    function DoneTurns(): set<TurnId> {
      set t | 0 <= t < |turns| && turns[t].phase.Done?
    }

    function At(t: TurnId, phase: Phase): World
      requires t < |turns|
    {
      this.(turns := turns[t := turns[t].(phase := phase)])
    }

    /** A send that waits no more makes its turn and follows it. */
    function Launch(s: SenderId): World
      requires s < |senders|
    {
      var sid, t := senders[s].sid, |turns|;
      this.(turns := turns + [Turn(sid, s, false, Created, {})],
            senders := senders[s := senders[s].(stage := Following(t))],
            running := running[sid := t])
    }

    /** A send goes to a session the service knows, or starts a new one; an id it does not know is not used. */
    predicate Takes(sid: Sid) {
      sid in Sids(sessions) || forall s :: 0 <= s < |senders| ==> senders[s].sid != sid
    }

    function Sending(sid: Sid): World {
      var s := |senders|;
      match Previous(running, sid, DoneTurns())
      case Some(p) =>
        if p >= |turns| then this
        else this.(superseded := superseded + {p},
                   turns := turns[p := turns[p].(asked := true, replacedBy := turns[p].replacedBy + {s})],
                   senders := senders + [Sender(sid, Waiting(p), false)])
      case None => this.(senders := senders + [Sender(sid, Waiting(|turns|), false)]).Launch(s)
    }

    /** A turn's first step takes the session's lock object and puts the session last in line for eviction. */
    function Beginning(t: TurnId): World
      requires t < |turns|
    {
      var sid := turns[t].sid;
      var known := LockOf(sessions, sid);
      var lock := if known.Some? then known.value else locks;
      this.(sessions := Recent(sessions, sid, lock, max),
            locks := if known.Some? then locks else locks + 1,
            dropped := dropped + Sids(Evicted(sessions, sid, lock, max))).At(t, Queued(lock))
    }

    function Returning(s: SenderId, interrupted: bool): World
      requires s < |senders| && senders[s].stage.Following? && senders[s].stage.turn < |turns|
      requires turns[senders[s].stage.turn].phase.Done?
    {
      var t := senders[s].stage.turn;
      var raised := turns[t].phase.outcome == Cancelled || (interrupted && senders[s].left);
      var result := if !raised then Reply else if t in superseded then TurnSuperseded else Gone;
      this.(superseded := superseded - {t}, running := Cleared(running, senders[s].sid, t),
            senders := senders[s := senders[s].(stage := Returned(t, result))])
    }

    /** The step an event takes; an event that is not open changes nothing. */
    function Step(ev: Event): World {
      match ev
      case Send(sid) => if Takes(sid) then Sending(sid) else this
      case Resume(s) =>
        if s < |senders| && senders[s].stage.Waiting? && senders[s].stage.previous < |turns|
           && turns[senders[s].stage.previous].phase.Done? then Launch(s)
        else this
      case Begin(t) =>
        if t >= |turns| || turns[t].phase != Created then this
        else if turns[t].asked then At(t, Done(Cancelled))
        else Beginning(t)
      case Enter(t) =>
        if t < |turns| && turns[t].phase.Queued? && Free(turns[t].phase.lock) then At(t, Inside(turns[t].phase.lock)) else this
      case Leave(t, cancelled) =>
        if t >= |turns| || !turns[t].phase.Inside? then this
        else if !cancelled then At(t, Unlocked)
        else if turns[t].asked then At(t, Done(Cancelled))
        else this
      case Finish(t, cancelled) =>
        if t >= |turns| then this
        else if cancelled && turns[t].asked && (turns[t].phase.Queued? || turns[t].phase.Unlocked?) then At(t, Done(Cancelled))
        else if !cancelled && turns[t].phase.Unlocked? then At(t, Done(Ended))
        else this
      case Return(s, interrupted) =>
        if s < |senders| && senders[s].stage.Following? && senders[s].stage.turn < |turns|
           && turns[senders[s].stage.turn].phase.Done? then Returning(s, interrupted)
        else this
      case CallerLeaves(s) =>
        if s < |senders| && senders[s].stage.Following? && senders[s].stage.turn < |turns| then
          var t := senders[s].stage.turn;
          this.(senders := senders[s := senders[s].(left := true)],
                turns := if turns[t].phase.Done? then turns else turns[t := turns[t].(asked := true)])
        else this
      case AskDelete(sid) =>
        (match LockOf(sessions, sid)
         case None => this
         case Some(lock) => this.(deleters := deleters + [Session(sid, lock)]))
      case Delete(i) =>
        if i < |deleters| && Free(deleters[i].lock) then
          this.(sessions := Without(sessions, deleters[i].sid), dropped := dropped + {deleters[i].sid},
                deleters := deleters[..i] + deleters[i + 1..])
        else this
    }

    function Run(events: seq<Event>): World
      decreases |events|
    {
      if events == [] then this else Step(events[0]).Run(events[1..])
    }
  }

  function Sids(sessions: seq<Session>): set<Sid> {
    set s | s in sessions :: s.sid
  }

  function Start(max: nat): World {
    World(max, [], map[], {}, 0, [], [], [], {})
  }

  // ---------------------------------------------------------------- the invariant

  ghost predicate SenderOk(w: World, s: SenderId)
    requires s < |w.senders|
  {
    var me := w.senders[s];
    match me.stage
    case Waiting(p) => p < |w.turns| && w.turns[p].sid == me.sid && s in w.turns[p].replacedBy
    case Following(t) => t < |w.turns| && w.turns[t].sid == me.sid && w.turns[t].sender == s
    case Returned(t, result) =>
      && t < |w.turns| && w.turns[t].sid == me.sid && w.turns[t].sender == s
      && (result == TurnSuperseded ==> w.turns[t].replacedBy != {})
  }

  ghost predicate TurnOk(w: World, t: TurnId)
    requires t < |w.turns|
  {
    var me := w.turns[t];
    && me.sender < |w.senders| && w.senders[me.sender].sid == me.sid
    && (w.senders[me.sender].stage == Following(t)
        || (w.senders[me.sender].stage.Returned? && w.senders[me.sender].stage.turn == t))
    && (forall x :: x in me.replacedBy ==> me.sender < x < |w.senders| && w.senders[x].sid == me.sid)
    && (me.replacedBy != {} ==> me.asked)
    && (t in w.superseded <==> me.replacedBy != {} && w.senders[me.sender].stage == Following(t))
  }

  ghost predicate RunningOk(w: World, sid: Sid)
    requires sid in w.running
  {
    var t := w.running[sid];
    t < |w.turns| && w.turns[t].sid == sid && w.turns[t].sender < |w.senders|
    && w.senders[w.turns[t].sender].stage == Following(t)
  }

  /** A turn of a session that was never dropped waits for, or holds, that session's lock. */
  ghost predicate LockOk(w: World, t: TurnId)
    requires t < |w.turns|
  {
    var me := w.turns[t];
    me.sid !in w.dropped && (me.phase.Queued? || me.phase.Inside?) ==> Session(me.sid, me.phase.lock) in w.sessions
  }

  ghost predicate Books(w: World) {
    && (forall s :: 0 <= s < |w.senders| ==> SenderOk(w, s))
    && (forall t :: 0 <= t < |w.turns| ==> TurnOk(w, t))
    && (forall t :: t in w.superseded ==> 0 <= t < |w.turns|)
    && (forall sid :: sid in w.running ==> RunningOk(w, sid))
  }

  ghost predicate Locks(w: World) {
    && Distinct(w.sessions) && |w.sessions| <= w.max
    && (forall t :: 0 <= t < |w.turns| ==> LockOk(w, t))
    && (forall t, u :: 0 <= t < u < |w.turns| && w.turns[t].phase.Inside? && w.turns[u].phase.Inside? ==>
          w.turns[t].phase.lock != w.turns[u].phase.lock)
  }

  // ---------------------------------------------------------------- every step keeps the locks

  lemma PhaseKeepsLocks(w: World, t: TurnId, phase: Phase)
    requires Locks(w) && t < |w.turns|
    requires phase.Queued? || phase.Inside? ==> w.turns[t].phase == Queued(phase.lock)
    requires phase.Inside? ==> w.Free(phase.lock)
    ensures Locks(w.At(t, phase))
  {
    var next := w.At(t, phase);
    forall u | 0 <= u < |next.turns|
      ensures LockOk(next, u)
    {
      assert LockOk(w, u);
    }
  }

  lemma BeginningKeepsLocks(w: World, t: TurnId)
    requires Locks(w) && t < |w.turns| && w.turns[t].phase == Created
    ensures Locks(w.Beginning(t))
  {
    hide LockOf, Recent, Evicted, Sids;
    var sid := w.turns[t].sid;
    var known := LockOf(w.sessions, sid);
    var lock := if known.Some? then known.value else w.locks;
    var next := w.Beginning(t);
    RecentIsFine(w.sessions, sid, lock, w.max);
    forall u | 0 <= u < |next.turns|
      ensures LockOk(next, u)
    {
      var me := next.turns[u];
      assert LockOk(w, u);
      if me.sid !in next.dropped && (me.phase.Queued? || me.phase.Inside?) {
        KeptUnlessDropped(w.sessions, sid, lock, w.max, Session(me.sid, me.phase.lock));
      }
    }
  }

  lemma RecentIsFine(sessions: seq<Session>, sid: Sid, lock: Lock, max: nat)
    requires Distinct(sessions)
    ensures Distinct(Recent(sessions, sid, lock, max)) && |Recent(sessions, sid, lock, max)| <= max
  {
    hide Recent, Evicted;
    TouchDropsTheOldest(sessions, sid, lock, max);
  }

  /** A session stays where it was unless it is touched or dropped, and the touched one has its old lock if it had one. */
  lemma KeptUnlessDropped(sessions: seq<Session>, sid: Sid, lock: Lock, max: nat, s: Session)
    requires Distinct(sessions) && s.sid !in Sids(Evicted(sessions, sid, lock, max))
    requires s == Session(sid, lock) || (s in sessions && (s.sid == sid && LockOf(sessions, sid).Some? ==> LockOf(sessions, sid) == Some(lock)))
    ensures s in Recent(sessions, sid, lock, max)
  {
    hide LockOf, Used, Recent, Evicted, Sids;
    UsedIsDistinct(sessions, sid, lock);
    LockOfIs(sessions, sid);
    assert s in Used(sessions, sid, lock);
    UsedIsSplit(sessions, sid, lock, max, s);
  }

  lemma UsedIsSplit(sessions: seq<Session>, sid: Sid, lock: Lock, max: nat, s: Session)
    requires s in Used(sessions, sid, lock)
    ensures s in Recent(sessions, sid, lock, max) || (s in Evicted(sessions, sid, lock, max) && s.sid in Sids(Evicted(sessions, sid, lock, max)))
  {
    hide Used;
    var all := Used(sessions, sid, lock);
    assert all == all[..Over(all, max)] + all[Over(all, max)..];
  }

  /** A step that moves no turn, but for making one, keeps the locks. */
  lemma StillKeepsLocks(w: World, next: World)
    requires Locks(w) && next.sessions == w.sessions && next.dropped == w.dropped && next.max == w.max
    requires |w.turns| <= |next.turns|
    requires forall t :: 0 <= t < |w.turns| ==> next.turns[t].sid == w.turns[t].sid && next.turns[t].phase == w.turns[t].phase
    requires forall t :: |w.turns| <= t < |next.turns| ==> next.turns[t].phase == Created
    ensures Locks(next)
  {
    forall t | 0 <= t < |next.turns|
      ensures LockOk(next, t)
    {
      assert t < |w.turns| ==> LockOk(w, t);
    }
  }

  lemma DeleteKeepsLocks(w: World, i: nat)
    requires Locks(w)
    ensures Locks(w.Step(Delete(i)))
  {
    if i < |w.deleters| {
      WithoutHas(w.sessions, w.deleters[i].sid);
      forall t | 0 <= t < |w.turns|
        ensures LockOk(w.Step(Delete(i)), t)
      {
        assert LockOk(w, t);
      }
    }
  }

  lemma StepKeepsLocks(w: World, ev: Event)
    requires Locks(w)
    ensures Locks(w.Step(ev))
  {
    hide LockOf, Recent, Evicted, Cleared, Previous, Locks, World.Free;
    match ev
    case Begin(t) =>
      if t < |w.turns| && w.turns[t].phase == Created {
        if w.turns[t].asked {
          PhaseKeepsLocks(w, t, Done(Cancelled));
        } else {
          BeginningKeepsLocks(w, t);
        }
      }
    case Enter(t) =>
      if t < |w.turns| && w.turns[t].phase.Queued? && w.Free(w.turns[t].phase.lock) {
        PhaseKeepsLocks(w, t, Inside(w.turns[t].phase.lock));
      }
    case Leave(t, cancelled) =>
      if t < |w.turns| {
        PhaseKeepsLocks(w, t, Unlocked);
        PhaseKeepsLocks(w, t, Done(Cancelled));
      }
    case Finish(t, cancelled) =>
      if t < |w.turns| {
        PhaseKeepsLocks(w, t, Done(Ended));
        PhaseKeepsLocks(w, t, Done(Cancelled));
      }
    case Delete(i) => DeleteKeepsLocks(w, i);
    case _ => StillKeepsLocks(w, w.Step(ev));
  }

  // ---------------------------------------------------------------- every step keeps the books

  /** The books hold of any world that differs only in the phases of turns and in whether they were asked to cancel. */
  lemma BooksFollow(w: World, next: World)
    requires Books(w) && next.running == w.running && next.superseded == w.superseded
    requires |next.turns| == |w.turns| && |next.senders| == |w.senders|
    requires forall t :: 0 <= t < |w.turns| ==>
               && next.turns[t].sid == w.turns[t].sid && next.turns[t].sender == w.turns[t].sender
               && next.turns[t].replacedBy == w.turns[t].replacedBy && (w.turns[t].asked ==> next.turns[t].asked)
    requires forall s :: 0 <= s < |w.senders| ==>
               next.senders[s].sid == w.senders[s].sid && next.senders[s].stage == w.senders[s].stage
    ensures Books(next)
  {
    forall s | 0 <= s < |next.senders|
      ensures SenderOk(next, s)
    {
      assert SenderOk(w, s);
    }
    forall t | 0 <= t < |next.turns|
      ensures TurnOk(next, t)
    {
      assert TurnOk(w, t);
    }
    forall sid | sid in next.running
      ensures RunningOk(next, sid)
    {
      assert RunningOk(w, sid);
    }
  }

  lemma ReplacingKeepsBooks(w: World, sid: Sid, p: TurnId)
    requires Books(w) && Previous(w.running, sid, w.DoneTurns()) == Some(p)
    ensures p < |w.turns| && Books(w.Sending(sid))
  {
    assert RunningOk(w, sid);
    var next, s := w.Sending(sid), |w.senders|;
    forall x | 0 <= x < |next.senders|
      ensures SenderOk(next, x)
    {
      assert x < s ==> SenderOk(w, x);
    }
    forall t | 0 <= t < |next.turns|
      ensures TurnOk(next, t)
    {
      assert TurnOk(w, t);
    }
    forall other | other in next.running
      ensures RunningOk(next, other)
    {
      assert RunningOk(w, other);
    }
  }

  lemma LaunchKeepsBooks(w: World, s: SenderId)
    requires s < |w.senders| && w.senders[s].stage.Waiting?
    requires forall x :: 0 <= x < |w.senders| && x != s ==> SenderOk(w, x)
    requires forall t :: 0 <= t < |w.turns| ==> TurnOk(w, t)
    requires forall t :: t in w.superseded ==> 0 <= t < |w.turns|
    requires forall sid :: sid in w.running ==> RunningOk(w, sid)
    ensures Books(w.Launch(s))
  {
    var next := w.Launch(s);
    forall x | 0 <= x < |next.senders|
      ensures SenderOk(next, x)
    {
      assert x != s ==> SenderOk(w, x);
    }
    forall t | 0 <= t < |next.turns|
      ensures TurnOk(next, t)
    {
      assert t < |w.turns| ==> TurnOk(w, t);
    }
    forall sid | sid in next.running
      ensures RunningOk(next, sid)
    {
      assert sid in w.running ==> RunningOk(w, sid);
    }
  }

  lemma NewSendKeepsBooks(w: World, sid: Sid)
    requires Books(w) && Previous(w.running, sid, w.DoneTurns()).None?
    ensures Books(w.Sending(sid))
  {
    var s := |w.senders|;
    var waiting := w.(senders := w.senders + [Sender(sid, Waiting(|w.turns|), false)]);
    forall x | 0 <= x < s
      ensures SenderOk(waiting, x)
    {
      assert SenderOk(w, x);
    }
    forall t | 0 <= t < |w.turns|
      ensures TurnOk(waiting, t)
    {
      assert TurnOk(w, t);
    }
    forall other | other in w.running
      ensures RunningOk(waiting, other)
    {
      assert RunningOk(w, other);
    }
    LaunchKeepsBooks(waiting, s);
  }

  lemma ReturnKeepsBooks(w: World, s: SenderId, interrupted: bool)
    requires Books(w) && s < |w.senders| && w.senders[s].stage.Following? && w.senders[s].stage.turn < |w.turns|
    requires w.turns[w.senders[s].stage.turn].phase.Done?
    ensures Books(w.Returning(s, interrupted))
  {
    var next, t := w.Returning(s, interrupted), w.senders[s].stage.turn;
    assert SenderOk(w, s) && TurnOk(w, t);
    forall x | 0 <= x < |next.senders|
      ensures SenderOk(next, x)
    {
      assert SenderOk(w, x);
    }
    forall u | 0 <= u < |next.turns|
      ensures TurnOk(next, u)
    {
      assert TurnOk(w, u);
    }
    forall sid | sid in next.running
      ensures RunningOk(next, sid)
    {
      assert RunningOk(w, sid);
    }
  }

  lemma StepKeepsBooks(w: World, ev: Event)
    requires Books(w)
    ensures Books(w.Step(ev))
  {
    hide LockOf, Recent, Evicted, Cleared, Previous, World.Returning, World.Sending, World.Launch, TurnOk, SenderOk, RunningOk;
    match ev
    case Send(sid) =>
      var p := Previous(w.running, sid, w.DoneTurns());
      if p.Some? {
        ReplacingKeepsBooks(w, sid, p.value);
      } else {
        NewSendKeepsBooks(w, sid);
      }
    case Resume(s) =>
      if s < |w.senders| && w.senders[s].stage.Waiting? {
        LaunchKeepsBooks(w, s);
      }
    case Return(s, interrupted) =>
      if s < |w.senders| && w.senders[s].stage.Following? && w.senders[s].stage.turn < |w.turns|
         && w.turns[w.senders[s].stage.turn].phase.Done? {
        ReturnKeepsBooks(w, s, interrupted);
      }
    case _ => QuietKeepsBooks(w, ev);
  }

  lemma QuietKeepsBooks(w: World, ev: Event)
    requires Books(w) && !ev.Send? && !ev.Resume? && !ev.Return?
    ensures Books(w.Step(ev))
  {
    hide LockOf, Recent, Evicted, Books, World.Free, Sids, Without;
    BooksFollow(w, w.Step(ev));
  }

  ghost predicate Invariant(w: World) {
    Books(w) && Locks(w)
  }

  /** The invariant holds in every world any run of events leads to. */
  lemma {:induction false} EveryRunKeepsInvariant(w: World, events: seq<Event>)
    requires Invariant(w)
    ensures Invariant(w.Run(events))
    decreases |events|
  {
    hide Books, Locks, World.Step;
    if events != [] {
      StepKeepsBooks(w, events[0]);
      StepKeepsLocks(w, events[0]);
      EveryRunKeepsInvariant(w.Step(events[0]), events[1..]);
    }
  }

  // ---------------------------------------------------------------- what every run guarantees

  /** At most one turn of a session works at a time, in every run that never drops the session. */
  lemma OneTurnAtATime(max: nat, events: seq<Event>, t: TurnId, u: TurnId)
    requires var w := Start(max).Run(events);
             && t < |w.turns| && u < |w.turns| && w.turns[t].phase.Inside? && w.turns[u].phase.Inside?
             && w.turns[t].sid == w.turns[u].sid && w.turns[t].sid !in w.dropped
    ensures t == u
  {
    hide World.Run, Books;
    StartIsFine(max);
    EveryRunKeepsInvariant(Start(max), events);
    var w := Start(max).Run(events);
    assert LockOk(w, t) && LockOk(w, u);
    LockOfIs(w.sessions, w.turns[t].sid);
  }

  lemma StartIsFine(max: nat)
    ensures Invariant(Start(max))
  {
  }

  /** Whoever is told that a newer message replaced theirs: a newer send to the same session did replace their turn. */
  lemma OnlyNewerSendsSupersede(max: nat, events: seq<Event>, s: SenderId) returns (newer: SenderId)
    requires var w := Start(max).Run(events);
             s < |w.senders| && w.senders[s].stage.Returned? && w.senders[s].stage.result == TurnSuperseded
    ensures var w := Start(max).Run(events);
            s < newer < |w.senders| && w.senders[newer].sid == w.senders[s].sid
            && w.senders[s].stage.turn < |w.turns| && newer in w.turns[w.senders[s].stage.turn].replacedBy
  {
    hide World.Run, Locks;
    StartIsFine(max);
    EveryRunKeepsInvariant(Start(max), events);
    var w := Start(max).Run(events);
    var t := w.senders[s].stage.turn;
    assert SenderOk(w, s) && TurnOk(w, t);
    newer :| newer in w.turns[t].replacedBy;
  }

  /** So the newest send to a session is never the one replaced. */
  lemma NewestIsNeverSuperseded(max: nat, events: seq<Event>, s: SenderId)
    requires var w := Start(max).Run(events);
             && s < |w.senders| && w.senders[s].stage.Returned?
             && forall x :: s < x < |w.senders| ==> w.senders[x].sid != w.senders[s].sid
    ensures Start(max).Run(events).senders[s].stage.result != TurnSuperseded
  {
    hide World.Run;
    var w := Start(max).Run(events);
    if w.senders[s].stage.result == TurnSuperseded {
      var newer := OnlyNewerSendsSupersede(max, events, s);
    }
  }

  /** A turn that was replaced and ends cancelled tells its caller so. */
  lemma ReplacedCallerIsTold(max: nat, events: seq<Event>, s: SenderId, interrupted: bool)
    requires var w := Start(max).Run(events);
             && s < |w.senders| && w.senders[s].stage.Following?
             && w.senders[s].stage.turn < |w.turns|
             && w.turns[w.senders[s].stage.turn].phase == Done(Cancelled) && w.turns[w.senders[s].stage.turn].replacedBy != {}
    ensures Start(max).Run(events).Step(Return(s, interrupted)).senders[s].stage.result == TurnSuperseded
  {
    hide World.Run, Locks;
    StartIsFine(max);
    EveryRunKeepsInvariant(Start(max), events);
    var w := Start(max).Run(events);
    assert SenderOk(w, s) && TurnOk(w, w.senders[s].stage.turn);
  }

  /** The books hold no turn whose caller has returned, so they are empty when every caller has. */
  lemma BooksAreLive(max: nat, events: seq<Event>)
    ensures var w := Start(max).Run(events);
            && (forall t :: t in w.superseded ==> t < |w.turns| && w.turns[t].sender < |w.senders| && w.senders[w.turns[t].sender].stage == Following(t))
            && ((forall s :: 0 <= s < |w.senders| ==> w.senders[s].stage.Returned?) ==> w.superseded == {} && w.running == map[])
  {
    hide World.Run, Locks;
    StartIsFine(max);
    EveryRunKeepsInvariant(Start(max), events);
    var w := Start(max).Run(events);
    forall t | t in w.superseded
      ensures t < |w.turns| && w.turns[t].sender < |w.senders| && w.senders[w.turns[t].sender].stage == Following(t)
    {
      assert TurnOk(w, t);
    }
    forall sid | sid in w.running
      ensures exists s :: 0 <= s < |w.senders| && w.senders[s].stage.Following?
    {
      assert RunningOk(w, sid);
    }
  }

  /** No more sessions than allowed, in every run. */
  lemma SessionsAreBounded(max: nat, events: seq<Event>)
    ensures |Start(max).Run(events).sessions| <= max
  {
    hide World.Run, Books;
    StartIsFine(max);
    EveryRunKeepsInvariant(Start(max), events);
    RunKeepsMax(Start(max), events);
  }

  lemma {:induction false} RunKeepsMax(w: World, events: seq<Event>)
    ensures w.Run(events).max == w.max
    decreases |events|
  {
    if events != [] {
      RunKeepsMax(w.Step(events[0]), events[1..]);
    }
  }
}
