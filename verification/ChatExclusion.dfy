/**
 Which drops of a session let two of its turns work at once (chat/service.py). A dropped session loses
 its lock; the turns that hold the old lock, or wait for it, go on, and the next turn that begins makes
 a new lock. Whether that turn can come is decided by what the session still has under way.
 */
module ChatExclusion {
  import opened Common
  import opened ChatService
  import opened ChatTurns
  import opened ChatReplacement

  // ------------------------------------------------------------------ the order of the event loop

  /** The turn waits for the lock and was not told to cancel; one that was told never gets the lock. */
  predicate Queues(w: World, t: TurnId, lock: Lock) {
    t < |w.turns| && w.turns[t].phase == Queued(lock) && !w.turns[t].asked
  }

  /** Tasks begin, take a lock, and hear that a task is over, in the order in which they came. */
  ghost predicate InOrder(w: World, ev: Event) {
    match ev
    case Begin(t) => forall u: TurnId :: u < t && u < |w.turns| ==> w.turns[u].phase != Created
    case Enter(t) =>
      t < |w.turns| && w.turns[t].phase.Queued? ==>
        Queues(w, t, w.turns[t].phase.lock) && forall u: TurnId :: u < t ==> !Queues(w, u, w.turns[t].phase.lock)
    case Resume(s) =>
      CanResume(w, s) ==> forall x: SenderId :: x < s ==> w.senders[x].stage != w.senders[s].stage
    case _ => true
  }

  predicate Knows(w: World, sid: Sid) {
    sid in Sids(w.sessions)
  }

  predicate Keeps(w: World, ev: Event, sid: Sid) {
    Knows(w, sid) ==> Knows(w.Step(ev), sid)
  }

  /** A run in the order of the event loop that does not drop the session. */
  ghost predicate Undropped(w: World, events: seq<Event>, sid: Sid)
    decreases |events|
  {
    events != [] ==> InOrder(w, events[0]) && Keeps(w, events[0], sid) && Undropped(w.Step(events[0]), events[1..], sid)
  }

  /** Two turns of the session work at once. */
  ghost predicate Clash(w: World, sid: Sid) {
    exists t: TurnId, u: TurnId :: t != u && Works(w, t, sid) && Works(w, u, sid)
  }

  predicate Works(w: World, t: TurnId, sid: Sid) {
    t < |w.turns| && w.turns[t].sid == sid && w.turns[t].phase.Inside?
  }

  ghost predicate CanClash(w: World, sid: Sid) {
    exists events :: Undropped(w, events, sid) && Clash(w.Run(events), sid)
  }

  // ------------------------------------------------------------------ what is under way

  /** The turn works, or will once it gets its lock. */
  predicate Locked(w: World, t: TurnId, sid: Sid) {
    t < |w.turns| && w.turns[t].sid == sid && (w.turns[t].phase.Inside? || (w.turns[t].phase.Queued? && !w.turns[t].asked))
  }

  predicate Stale(w: World, t: TurnId, sid: Sid) {
    Locked(w, t, sid) && LockOf(w.sessions, sid) != Some(w.turns[t].phase.lock)
  }

  predicate Unstarted(w: World, t: TurnId, sid: Sid) {
    t < |w.turns| && w.turns[t].sid == sid && w.turns[t].phase == Created && !w.turns[t].asked
  }

  /**
   Something besides turn t is under way: a turn on another lock, a turn that has not begun, a send
   that waits for another turn, or a send that would not wait for t.
   */
  ghost predicate AnotherComes(w: World, t: TurnId, sid: Sid)
    requires Locked(w, t, sid)
  {
    || (exists u: TurnId :: Locked(w, u, sid) && w.turns[u].phase.lock != w.turns[t].phase.lock)
    || (exists u: TurnId :: Unstarted(w, u, sid))
    || (exists x: SenderId :: Waits(w, x, sid) && w.senders[x].stage.previous != t)
    || (Knows(w, sid) && !(sid in w.running && w.running[sid] == t))
  }

  ghost predicate AtRisk(w: World, sid: Sid) {
    exists t: TurnId :: Stale(w, t, sid) && AnotherComes(w, t, sid)
  }

  // ------------------------------------------------------------------ without risk nothing clashes

  lemma ClashIsRisk(w: World, sid: Sid)
    requires Locks(w) && Clash(w, sid)
    ensures AtRisk(w, sid)
  {
    var t: TurnId, u: TurnId :| t != u && Works(w, t, sid) && Works(w, u, sid);
    assert w.turns[t].phase.lock != w.turns[u].phase.lock;
    assert Locked(w, t, sid) && Locked(w, u, sid);
    assert Stale(w, t, sid) || Stale(w, u, sid);
    assert AnotherComes(w, t, sid) && AnotherComes(w, u, sid);
  }

  /** A step after which nothing new is under way brings no risk. */
  lemma NothingNewIsCalm(w: World, next: World, sid: Sid)
    requires !AtRisk(w, sid)
    requires LockOf(next.sessions, sid) == LockOf(w.sessions, sid) && (Knows(next, sid) ==> Knows(w, sid))
    requires forall t: TurnId :: Locked(next, t, sid) ==> Locked(w, t, sid) && next.turns[t].phase.lock == w.turns[t].phase.lock
    requires forall t: TurnId :: Unstarted(next, t, sid) ==> Unstarted(w, t, sid)
    requires forall x: SenderId :: Waits(next, x, sid) ==> Waits(w, x, sid) && next.senders[x].stage == w.senders[x].stage
    requires sid in w.running && Locked(next, w.running[sid], sid) ==> sid in next.running && next.running[sid] == w.running[sid]
    ensures !AtRisk(next, sid)
  {
    forall t: TurnId | Stale(next, t, sid) ensures !AnotherComes(next, t, sid) {
      assert Stale(w, t, sid) && !AnotherComes(w, t, sid);
    }
  }

  lemma StaleFree(w: World, sid: Sid)
    requires forall t: TurnId :: !Stale(w, t, sid)
    ensures !AtRisk(w, sid)
  {
  }

  lemma {:induction false} LockOfIn(sessions: seq<Session>, sid: Sid)
    ensures LockOf(sessions, sid).Some? <==> sid in Sids(sessions)
    ensures LockOf(sessions, sid).Some? ==> Session(sid, LockOf(sessions, sid).value) in sessions
  {
    if sessions != [] {
      LockOfIn(sessions[1..], sid);
      assert forall s :: s in sessions <==> s == sessions[0] || s in sessions[1..];
    }
  }

  /** Sessions that hold one entry in common for the session have the same lock for it. */
  lemma SameLock(one: seq<Session>, two: seq<Session>, sid: Sid)
    requires Distinct(one) && (forall s :: s in two && s.sid == sid ==> s in one)
    requires sid in Sids(one) ==> sid in Sids(two)
    ensures LockOf(two, sid) == LockOf(one, sid) && (sid in Sids(two) <==> sid in Sids(one))
  {
    LockOfIn(one, sid);
    LockOfIn(two, sid);
    LockOfIs(one, sid);
  }

  lemma RecentHas(sessions: seq<Session>, sid: Sid, lock: Lock, max: nat)
    requires Distinct(sessions)
    ensures forall s :: s in Recent(sessions, sid, lock, max) ==> s == Session(sid, lock) || (s in sessions && s.sid != sid)
    ensures max >= 1 ==> Session(sid, lock) in Recent(sessions, sid, lock, max)
  {
    hide Used, Evicted, Distinct;
    UsedIsDistinct(sessions, sid, lock);
    UsedEnds(sessions, sid, lock);
    var all := Used(sessions, sid, lock);
    assert forall s :: s in all[Over(all, max)..] ==> s in all;
    assert max >= 1 ==> all[Over(all, max)..][|all| - 1 - Over(all, max)] == all[|all| - 1];
  }

  lemma UnstartedIsRisk(w: World, u: TurnId, sid: Sid)
    requires Unstarted(w, u, sid)
    ensures forall t: TurnId :: Stale(w, t, sid) ==> AtRisk(w, sid)
  {
    forall t: TurnId | Stale(w, t, sid) ensures AtRisk(w, sid) {
      assert AnotherComes(w, t, sid);
    }
  }

  lemma WaiterIsRisk(w: World, x: SenderId, sid: Sid)
    requires Waits(w, x, sid)
    ensures forall t: TurnId :: Stale(w, t, sid) && w.senders[x].stage.previous != t ==> AtRisk(w, sid)
  {
    forall t: TurnId | Stale(w, t, sid) && w.senders[x].stage.previous != t ensures AtRisk(w, sid) {
      assert AnotherComes(w, t, sid);
    }
  }

  /** A turn in another phase, on the lock it had if on any. */
  lemma PhaseIsCalm(w: World, t: TurnId, phase: Phase, sid: Sid)
    requires !AtRisk(w, sid) && t < |w.turns| && phase != Created
    requires phase.Queued? || phase.Inside? ==> w.turns[t].phase == Queued(phase.lock) && !w.turns[t].asked
    ensures !AtRisk(w.At(t, phase), sid)
  {
    hide LockOf, Sids, AtRisk;
    NothingNewIsCalm(w, w.At(t, phase), sid);
  }

  lemma ReturnIsCalm(w: World, s: SenderId, interrupted: bool, sid: Sid)
    requires !AtRisk(w, sid)
    ensures !AtRisk(w.Step(Return(s, interrupted)), sid)
  {
    hide LockOf, Sids, AtRisk;
    NothingNewIsCalm(w, w.Step(Return(s, interrupted)), sid);
  }

  lemma CallerLeavesIsCalm(w: World, s: SenderId, sid: Sid)
    requires !AtRisk(w, sid)
    ensures !AtRisk(w.Step(CallerLeaves(s)), sid)
  {
    hide LockOf, Sids, AtRisk;
    NothingNewIsCalm(w, w.Step(CallerLeaves(s)), sid);
  }

  lemma DeleteIsCalm(w: World, ev: Event, sid: Sid)
    requires Locks(w) && !AtRisk(w, sid) && Keeps(w, ev, sid) && (ev.Delete? || ev.AskDelete?)
    ensures !AtRisk(w.Step(ev), sid)
  {
    SessionsAfter(w, ev, sid);
    hide LockOf, Sids, AtRisk, Without, World.Free, Locks;
    NothingNewIsCalm(w, w.Step(ev), sid);
  }

  /** Steps that make no turn: at most they take something of the session away. */
  lemma QuietIsCalm(w: World, ev: Event, sid: Sid)
    requires Locks(w) && !AtRisk(w, sid) && Keeps(w, ev, sid) && InOrder(w, ev)
    requires !ev.Send? && !ev.Resume? && !ev.Begin?
    ensures !AtRisk(w.Step(ev), sid)
  {
    hide AtRisk, Locks, Keeps, World.Free;
    match ev
    case Enter(t) =>
      if t < |w.turns| && w.turns[t].phase.Queued? {
        PhaseIsCalm(w, t, Inside(w.turns[t].phase.lock), sid);
      }
    case Leave(t, cancelled) =>
      if t < |w.turns| {
        PhaseIsCalm(w, t, Unlocked, sid);
        PhaseIsCalm(w, t, Done(Cancelled), sid);
      }
    case Finish(t, cancelled) =>
      if t < |w.turns| {
        PhaseIsCalm(w, t, Done(Ended), sid);
        PhaseIsCalm(w, t, Done(Cancelled), sid);
      }
    case Return(s, interrupted) => ReturnIsCalm(w, s, interrupted, sid);
    case CallerLeaves(s) => CallerLeavesIsCalm(w, s, sid);
    case _ => DeleteIsCalm(w, ev, sid);
  }

  lemma SessionsAfter(w: World, ev: Event, sid: Sid)
    requires Locks(w) && Keeps(w, ev, sid) && (ev.Delete? || ev.AskDelete?)
    ensures LockOf(w.Step(ev).sessions, sid) == LockOf(w.sessions, sid) && (Knows(w.Step(ev), sid) <==> Knows(w, sid))
  {
    hide LockOf, Recent, Evicted, Without, World.Free, Distinct, LockOk;
    if ev.Delete? && ev.which < |w.deleters| {
      WithoutHas(w.sessions, w.deleters[ev.which].sid);
      SameLock(w.sessions, w.Step(ev).sessions, sid);
    }
  }

  lemma BeginIsCalm(w: World, t: TurnId, sid: Sid)
    requires Invariant(w) && w.max >= 1 && !AtRisk(w, sid) && Keeps(w, Begin(t), sid)
    ensures !AtRisk(w.Step(Begin(t)), sid)
  {
    if t < |w.turns| && w.turns[t].phase == Created {
      if w.turns[t].asked {
        hide LockOf, Sids, SenderOk, TurnOk, RunningOk, LockOk, AtRisk, Distinct;
        NothingNewIsCalm(w, w.Step(Begin(t)), sid);
      } else if w.turns[t].sid == sid {
        OwnBeginIsCalm(w, t);
      } else {
        OtherBeginIsCalm(w, t, sid);
      }
    }
  }

  lemma OtherBeginIsCalm(w: World, t: TurnId, sid: Sid)
    requires t < |w.turns| && w.turns[t].phase == Created && w.turns[t].sid != sid
    requires Locks(w) && !AtRisk(w, sid) && (Knows(w, sid) ==> Knows(w.Beginning(t), sid))
    ensures !AtRisk(w.Beginning(t), sid)
  {
    hide LockOf, Recent, Evicted, LockOk, AtRisk, Distinct;
    var other := w.turns[t].sid;
    var known := LockOf(w.sessions, other);
    var lock := if known.Some? then known.value else w.locks;
    RecentHas(w.sessions, other, lock, w.max);
    SameLock(w.sessions, w.Beginning(t).sessions, sid);
    hide Sids;
    NothingNewIsCalm(w, w.Beginning(t), sid);
  }

  lemma OwnBeginIsCalm(w: World, t: TurnId)
    requires t < |w.turns| && Unstarted(w, t, w.turns[t].sid)
    requires Locks(w) && w.max >= 1 && !AtRisk(w, w.turns[t].sid)
    ensures !AtRisk(w.Beginning(t), w.turns[t].sid)
  {
    hide LockOf, Recent, Evicted, Sids, LockOk, AtRisk;
    var sid := w.turns[t].sid;
    var known := LockOf(w.sessions, sid);
    var lock := if known.Some? then known.value else w.locks;
    var next := w.Beginning(t);
    RecentHas(w.sessions, sid, lock, w.max);
    RecentIsFine(w.sessions, sid, lock, w.max);
    LockOfIs(next.sessions, sid);
    UnstartedIsRisk(w, t, sid);
    forall u: TurnId ensures !Stale(next, u, sid) {
      assert !Stale(w, u, sid);
      assert u != t && Locked(next, u, sid) ==> Locked(w, u, sid);
    }
    StaleFree(next, sid);
  }

  lemma SendIsCalm(w: World, to: Sid, sid: Sid)
    requires Books(w) && !AtRisk(w, sid)
    ensures !AtRisk(w.Step(Send(to)), sid)
  {
    if to != sid || !w.Takes(sid) {
      hide LockOf, Sids, SenderOk, RunningOk, AtRisk;
      RunningIs(w, to);
      NothingNewIsCalm(w, w.Step(Send(to)), sid);
    } else {
      hide LockOf, Sids, SenderOk, RunningOk;
      RunningIs(w, to);
      forall t: TurnId | Stale(w.Sending(sid), t, sid) ensures !AnotherComes(w.Sending(sid), t, sid) {
        OwnSendIsCalm(w, t, sid);
      }
    }
  }

  lemma RunningIs(w: World, sid: Sid)
    requires Books(w)
    ensures sid in w.running ==> w.running[sid] < |w.turns| && w.turns[w.running[sid]].sid == sid
  {
    assert sid in w.running ==> RunningOk(w, sid);
  }

  lemma OwnSendIsCalm(w: World, t: TurnId, sid: Sid)
    requires Books(w) && !AtRisk(w, sid) && Stale(w, t, sid) && w.Takes(sid)
    ensures Locked(w.Sending(sid), t, sid) ==> !AnotherComes(w.Sending(sid), t, sid)
  {
    hide LockOf, Sids;
    assert TurnOk(w, t);
    assert !AnotherComes(w, t, sid);
    assert Knows(w, sid);
    assert w.running[sid] == t && t !in w.DoneTurns();
    var next := w.Sending(sid);
    assert forall u: TurnId :: Locked(next, u, sid) ==> Locked(w, u, sid);
    assert forall u: TurnId :: Unstarted(next, u, sid) ==> Unstarted(w, u, sid);
    assert forall x: SenderId :: Waits(next, x, sid) ==> x == |w.senders| || Waits(w, x, sid);
  }

  lemma ResumeIsCalm(w: World, s: SenderId, sid: Sid)
    requires Books(w) && !AtRisk(w, sid)
    ensures !AtRisk(w.Step(Resume(s)), sid)
  {
    hide LockOf, Sids, SenderOk, TurnOk, RunningOk;
    if CanResume(w, s) {
      var next := w.Launch(s);
      if w.senders[s].sid != sid {
        hide AtRisk;
        NothingNewIsCalm(w, next, sid);
      } else {
        WaiterIsRisk(w, s, sid);
        hide AtRisk;
        forall t: TurnId ensures !Stale(next, t, sid) {
          assert !Stale(w, t, sid);
        }
        StaleFree(next, sid);
      }
    }
  }

  lemma StepIsCalm(w: World, ev: Event, sid: Sid)
    requires Invariant(w) && w.max >= 1 && !AtRisk(w, sid) && Keeps(w, ev, sid) && InOrder(w, ev)
    ensures !AtRisk(w.Step(ev), sid)
  {
    hide AtRisk, Books, Locks, World.Step, Keeps;
    match ev
    case Send(to) => SendIsCalm(w, to, sid);
    case Resume(s) => ResumeIsCalm(w, s, sid);
    case Begin(t) => BeginIsCalm(w, t, sid);
    case _ => QuietIsCalm(w, ev, sid);
  }

  lemma {:induction false} UndroppedIsCalm(w: World, events: seq<Event>, sid: Sid)
    requires Invariant(w) && w.max >= 1 && !AtRisk(w, sid) && Undropped(w, events, sid)
    ensures Invariant(w.Run(events)) && !AtRisk(w.Run(events), sid)
    decreases |events|
  {
    hide Books, Locks, World.Step, AtRisk, InOrder, Keeps;
    if events != [] {
      StepKeepsBooks(w, events[0]);
      StepKeepsLocks(w, events[0]);
      StepKeepsMax(w, events[0]);
      StepIsCalm(w, events[0], sid);
      UndroppedIsCalm(w.Step(events[0]), events[1..], sid);
    }
  }

  lemma StepKeepsMax(w: World, ev: Event)
    ensures w.Step(ev).max == w.max
  {
    hide LockOf, Recent, Evicted, Sids, Without, World.Free, Cleared, Previous;
  }

  /** A run in the order of the event loop, each drop of the session leaving no risk behind. */
  ghost predicate SafelyDropped(w: World, events: seq<Event>, sid: Sid)
    decreases |events|
  {
    events != [] ==>
      && InOrder(w, events[0]) && (Keeps(w, events[0], sid) || !AtRisk(w.Step(events[0]), sid))
      && SafelyDropped(w.Step(events[0]), events[1..], sid)
  }

  lemma {:induction false} SafeDropsStayCalm(w: World, events: seq<Event>, sid: Sid)
    requires Invariant(w) && w.max >= 1 && !AtRisk(w, sid) && SafelyDropped(w, events, sid)
    ensures Invariant(w.Run(events)) && !AtRisk(w.Run(events), sid)
    decreases |events|
  {
    hide Books, Locks, World.Step, AtRisk, InOrder, Keeps;
    if events != [] {
      StepKeepsBooks(w, events[0]);
      StepKeepsLocks(w, events[0]);
      StepKeepsMax(w, events[0]);
      if Keeps(w, events[0], sid) {
        StepIsCalm(w, events[0], sid);
      }
      SafeDropsStayCalm(w.Step(events[0]), events[1..], sid);
    }
  }

  /** Main result: in every run whose drops of a session leave no risk, its turns work one at a time. */
  lemma SafeDropsKeepExclusion(max: nat, events: seq<Event>, t: TurnId, u: TurnId, sid: Sid)
    requires max >= 1 && SafelyDropped(Start(max), events, sid)
    requires Works(Start(max).Run(events), t, sid) && Works(Start(max).Run(events), u, sid)
    ensures t == u
  {
    StartIsFine(max);
    hide World.Run, Locks, Books;
    SafeDropsStayCalm(Start(max), events, sid);
    if t != u {
      ClashIsRisk(Start(max).Run(events), sid);
    }
  }

  // ------------------------------------------------------------------ where there is risk, a clash can follow

  /** A lock is new when its number was not given out. */
  ghost predicate Numbered(w: World) {
    && (forall s :: s in w.sessions ==> s.lock < w.locks)
    && (forall t: TurnId :: t < |w.turns| && (w.turns[t].phase.Queued? || w.turns[t].phase.Inside?) ==>
          w.turns[t].phase.lock < w.locks)
  }

  lemma StepKeepsNumbered(w: World, ev: Event)
    requires Locks(w) && Numbered(w)
    ensures Numbered(w.Step(ev))
  {
    hide LockOf, Recent, Evicted, Sids, World.Free, Cleared, Previous, Distinct, LockOk, Without;
    if ev.Begin? && ev.turn < |w.turns| {
      var sid := w.turns[ev.turn].sid;
      var known := LockOf(w.sessions, sid);
      LockOfIn(w.sessions, sid);
      RecentHas(w.sessions, sid, if known.Some? then known.value else w.locks, w.max);
    } else if ev.Delete? && ev.which < |w.deleters| {
      WithoutHas(w.sessions, w.deleters[ev.which].sid);
    }
  }

  lemma {:induction false} RunKeepsNumbered(w: World, events: seq<Event>)
    requires Invariant(w) && Numbered(w)
    ensures Invariant(w.Run(events)) && Numbered(w.Run(events))
    decreases |events|
  {
    hide Books, Locks, World.Step, Numbered;
    if events != [] {
      StepKeepsBooks(w, events[0]);
      StepKeepsLocks(w, events[0]);
      StepKeepsNumbered(w, events[0]);
      RunKeepsNumbered(w.Step(events[0]), events[1..]);
    }
  }

  ghost predicate Leads(w: World, sid: Sid, next: World) {
    exists events :: Undropped(w, events, sid) && w.Run(events) == next
  }

  lemma LeadsToItself(w: World, sid: Sid)
    ensures Leads(w, sid, w)
  {
    assert Undropped(w, [], sid) && w.Run([]) == w;
  }

  lemma LeadsOn(w: World, ev: Event, sid: Sid, next: World)
    requires InOrder(w, ev) && Keeps(w, ev, sid) && Leads(w.Step(ev), sid, next)
    ensures Leads(w, sid, next)
  {
    hide InOrder, Keeps, World.Step;
    var events :| Undropped(w.Step(ev), events, sid) && w.Step(ev).Run(events) == next;
    assert ([ev] + events)[0] == ev && ([ev] + events)[1..] == events;
    assert Undropped(w, [ev] + events, sid) && w.Run([ev] + events) == next;
  }

  lemma LeadsToClash(w: World, sid: Sid, next: World)
    requires Leads(w, sid, next) && Clash(next, sid)
    ensures CanClash(w, sid)
  {
  }

  lemma {:induction false} UndroppedOn(w: World, one: seq<Event>, two: seq<Event>, sid: Sid)
    requires Undropped(w, one, sid) && Undropped(w.Run(one), two, sid)
    ensures Undropped(w, one + two, sid) && w.Run(one + two) == w.Run(one).Run(two)
    decreases |one|
  {
    hide InOrder, Keeps, World.Step;
    if one == [] {
      assert one + two == two;
    } else {
      assert (one + two)[0] == one[0] && (one + two)[1..] == one[1..] + two;
      UndroppedOn(w.Step(one[0]), one[1..], two, sid);
    }
  }

  lemma ClashLater(w: World, sid: Sid, next: World)
    requires Leads(w, sid, next) && CanClash(next, sid)
    ensures CanClash(w, sid)
  {
    hide Undropped, World.Run, Clash;
    var one :| Undropped(w, one, sid) && w.Run(one) == next;
    var two :| Undropped(next, two, sid) && Clash(next.Run(two), sid);
    UndroppedOn(w, one, two, sid);
  }

  // ------------------------------------------------------------------ a turn gets its lock

  /** Only turns of the lock have moved, out of the way of turn t. */
  ghost predicate MadeWay(w: World, next: World, t: TurnId, lock: Lock) {
    && next == w.(turns := next.turns) && |next.turns| == |w.turns| && t < |w.turns|
    && (forall u: TurnId :: u < |w.turns| ==> Moved(w.turns[u], next.turns[u], lock))
    && next.turns[t].phase in {Queued(lock), Inside(lock)}
  }

  predicate Moved(before: Turn, after: Turn, lock: Lock) {
    after == before || (
      && before.phase in {Queued(lock), Inside(lock)} && after == before.(phase := after.phase)
      && after.phase in {Inside(lock), Unlocked})
  }

  function Ahead(w: World, t: TurnId, lock: Lock): set<TurnId> {
    set u: TurnId | u < t && Queues(w, u, lock)
  }

  lemma Least(s: set<nat>) returns (m: nat)
    requires s != {}
    ensures m in s && forall u :: u in s ==> m <= u
  {
    m :| m in s;
    if u :| u in s && u < m {
      var rest := s - {m};
      assert u in rest && forall v :: v in s ==> v == m || v in rest;
      m := Least(rest);
    }
  }

  lemma MadeWayOn(w: World, mid: World, next: World, t: TurnId, lock: Lock)
    requires MadeWay(w, mid, t, lock) && MadeWay(mid, next, t, lock)
    ensures MadeWay(w, next, t, lock)
  {
    forall u: TurnId | u < |w.turns| ensures Moved(w.turns[u], next.turns[u], lock) {
      assert Moved(w.turns[u], mid.turns[u], lock) && Moved(mid.turns[u], next.turns[u], lock);
    }
  }

  lemma HolderLeaves(w: World, t: TurnId, h: TurnId, lock: Lock)
    requires Locks(w) && t < |w.turns| && w.turns[t].phase == Queued(lock)
    requires h < |w.turns| && w.turns[h].phase == Inside(lock)
    ensures var mid := w.Step(Leave(h, false));
            && MadeWay(w, mid, t, lock) && mid.turns[t] == w.turns[t] && Locks(mid)
            && mid.Free(lock) && Ahead(mid, t, lock) == Ahead(w, t, lock)
  {
    assert w.turns[h].phase != Created;
    PhaseKeepsLocks(w, h, Unlocked);
  }

  lemma FirstEnters(w: World, t: TurnId, u: TurnId, lock: Lock)
    requires Locks(w) && t < |w.turns| && w.turns[t].phase == Queued(lock) && w.Free(lock)
    requires u in Ahead(w, t, lock) && forall v :: v in Ahead(w, t, lock) ==> u <= v
    ensures var mid := w.Step(Enter(u));
            && MadeWay(w, mid, t, lock) && mid.turns[t] == w.turns[t] && Locks(mid)
            && InOrder(w, Enter(u)) && Ahead(mid, t, lock) == Ahead(w, t, lock) - {u}
  {
    PhaseKeepsLocks(w, u, Inside(lock));
    forall v: TurnId | v < u ensures !Queues(w, v, lock) {
      assert v !in Ahead(w, t, lock);
    }
  }

  /** A turn that is not told to cancel gets its lock once those before it have had it. */
  lemma GetsIn(w: World, t: TurnId, lock: Lock, sid: Sid) returns (next: World)
    requires Locks(w) && t < |w.turns| && Locked(w, t, w.turns[t].sid) && w.turns[t].phase.lock == lock
    ensures Leads(w, sid, next) && MadeWay(w, next, t, lock) && next.turns[t].phase == Inside(lock) && Locks(next)
    decreases |Ahead(w, t, lock)|, if w.Free(lock) then 0 else 1
  {
    hide Locks, Undropped, LockOf, Sids;
    if w.turns[t].phase == Inside(lock) {
      next := w;
      LeadsToItself(w, sid);
    } else if !w.Free(lock) {
      var h: TurnId :| h < |w.turns| && w.turns[h].phase == Inside(lock);
      var mid := w.Step(Leave(h, false));
      HolderLeaves(w, t, h, lock);
      next := GetsIn(mid, t, lock, sid);
      MadeWayOn(w, mid, next, t, lock);
      LeadsOn(w, Leave(h, false), sid, next);
    } else if Ahead(w, t, lock) == {} {
      next := w.Step(Enter(t));
      StepKeepsLocks(w, Enter(t));
      forall u: TurnId | u < t ensures !Queues(w, u, lock) {
        assert u !in Ahead(w, t, lock);
      }
      LeadsToItself(next, sid);
      LeadsOn(w, Enter(t), sid, next);
    } else {
      var u := Least(Ahead(w, t, lock));
      var mid := w.Step(Enter(u));
      FirstEnters(w, t, u, lock);
      next := GetsIn(mid, t, lock, sid);
      MadeWayOn(w, mid, next, t, lock);
      LeadsOn(w, Enter(u), sid, next);
    }
  }

  // ------------------------------------------------------------------ a second turn begins

  function Waitlist(w: World): set<TurnId> {
    set u: TurnId | u < |w.turns| && w.turns[u].phase == Created
  }

  /** The session is not known, and its turn t works. */
  ghost predicate WorksForgotten(w: World, t: TurnId, sid: Sid) {
    w.max >= 1 && Locks(w) && Numbered(w) && !Knows(w, sid) && Works(w, t, sid)
  }

  /** What the turns that begin one after another leave as it was. */
  ghost predicate Begun(w: World, next: World, t: TurnId, sid: Sid) {
    && WorksForgotten(next, t, sid) && next.senders == w.senders && |next.turns| == |w.turns|
    && forall v: TurnId :: v < |w.turns| && w.turns[v].phase != Created ==> next.turns[v] == w.turns[v]
  }

  /** The session's turn begins: it makes a lock, which nobody holds. */
  lemma BeginsBeside(w: World, t: TurnId, m: TurnId, sid: Sid)
    requires WorksForgotten(w, t, sid) && Unstarted(w, m, sid)
    requires forall u: TurnId :: u < m ==> w.turns[u].phase != Created
    ensures CanClash(w, sid)
  {
    hide LockOf, Recent, Evicted, Distinct, LockOk, Undropped;
    LockOfIn(w.sessions, sid);
    var mid := w.Step(Begin(m));
    assert mid == w.Beginning(m) && mid.turns[m].phase == Queued(w.locks);
    var next := mid.Step(Enter(m));
    assert mid.Free(w.locks);
    assert Works(next, t, sid) && Works(next, m, sid);
    LeadsToItself(next, sid);
    assert forall u: TurnId :: u < m ==> !Queues(mid, u, w.locks);
    LeadsOn(mid, Enter(m), sid, next);
    LeadsOn(w, Begin(m), sid, next);
    LeadsToClash(w, sid, next);
  }

  lemma BeginLeavesUnknown(w: World, m: TurnId, sid: Sid)
    requires Locks(w) && !Knows(w, sid) && m < |w.turns| && w.turns[m].phase == Created
    requires w.turns[m].asked || w.turns[m].sid != sid
    ensures !Knows(w.Step(Begin(m)), sid)
  {
    hide LockOf, Recent, Evicted, Distinct, LockOk;
    var known := LockOf(w.sessions, w.turns[m].sid);
    RecentHas(w.sessions, w.turns[m].sid, if known.Some? then known.value else w.locks, w.max);
  }

  /** The turn of another session begins, or one that ends where it begins. */
  lemma BeginsElsewhere(w: World, t: TurnId, m: TurnId, sid: Sid)
    requires WorksForgotten(w, t, sid) && m < |w.turns| && w.turns[m].phase == Created
    requires w.turns[m].asked || w.turns[m].sid != sid
    ensures var next := w.Step(Begin(m));
            && Begun(w, next, t, sid) && Waitlist(next) == Waitlist(w) - {m}
            && (forall v: TurnId :: v < |w.turns| && v != m ==> next.turns[v] == w.turns[v])
            && (w.turns[m].asked ==> next.turns[m] == w.turns[m].(phase := Done(Cancelled)))
  {
    BeginLeavesUnknown(w, m, sid);
    hide LockOf, Recent, Evicted, Distinct, LockOk, Locks, Numbered;
    StepKeepsLocks(w, Begin(m));
    StepKeepsNumbered(w, Begin(m));
  }

  /** The tasks made so far begin, up to one of the session, unless another of the session comes first. */
  lemma {:induction false} TasksBegin(w: World, t: TurnId, u: TurnId, sid: Sid) returns (next: World)
    requires WorksForgotten(w, t, sid) && u < |w.turns| && w.turns[u].sid == sid && w.turns[u].phase == Created
    ensures CanClash(w, sid) || (
              && w.turns[u].asked && Leads(w, sid, next) && Begun(w, next, t, sid)
              && next.turns[u] == w.turns[u].(phase := Done(Cancelled)))
    decreases |Waitlist(w)|
  {
    hide Undropped, LockOf, Sids, CanClash, Numbered, Locks;
    assert u in Waitlist(w);
    var m := Least(Waitlist(w));
    next := w.Step(Begin(m));
    forall v: TurnId | v < m ensures w.turns[v].phase != Created {
      assert v !in Waitlist(w);
    }
    if Unstarted(w, m, sid) {
      BeginsBeside(w, t, m, sid);
    } else {
      BeginsElsewhere(w, t, m, sid);
      var mid := next;
      LeadsToItself(mid, sid);
      LeadsOn(w, Begin(m), sid, mid);
      if m != u {
        next := TasksBegin(mid, t, u, sid);
        if CanClash(mid, sid) {
          ClashLater(w, sid, mid);
        } else {
          LeadsOn(w, Begin(m), sid, next);
        }
      }
    }
  }

  // ------------------------------------------------------------------ the turn a send waits for ends

  /** A turn that was told to cancel ends; a step, or the begin of all the tasks before it. */
  lemma AskedEnds(w: World, t: TurnId, p: TurnId, sid: Sid) returns (next: World)
    requires WorksForgotten(w, t, sid) && p < |w.turns| && p != t && w.turns[p].sid == sid && w.turns[p].asked
    ensures CanClash(w, sid) || (
              && Leads(w, sid, next) && WorksForgotten(next, t, sid) && next.senders == w.senders
              && p < |next.turns| && next.turns[p].phase.Done?)
  {
    hide Undropped, LockOf, Sids, CanClash, Numbered, Locks;
    next := w;
    LeadsToItself(w, sid);
    if w.turns[p].phase == Created {
      next := TasksBegin(w, t, p, sid);
    } else if !w.turns[p].phase.Done? {
      var ev := if w.turns[p].phase.Inside? then Leave(p, true) else Finish(p, w.turns[p].phase.Queued?);
      next := w.Step(ev);
      StepKeepsLocks(w, ev);
      StepKeepsNumbered(w, ev);
      LeadsToItself(next, sid);
      LeadsOn(w, ev, sid, next);
    }
  }

  /** The first of those who wait for a turn. */
  lemma FirstWaiter(w: World, x: SenderId) returns (y: SenderId)
    requires Books(w) && x < |w.senders| && Waits(w, x, w.senders[x].sid)
    ensures Waits(w, y, w.senders[x].sid) && w.senders[y].stage == w.senders[x].stage
    ensures forall z: SenderId :: z < y ==> w.senders[z].stage != w.senders[y].stage
  {
    y := x;
    if z: SenderId :| z < x && w.senders[z].stage == w.senders[x].stage {
      assert SenderOk(w, x) && SenderOk(w, z);
      y := FirstWaiter(w, z);
    }
  }

  /** The send that waited makes its turn, which begins beside the one at work. */
  lemma WaiterBegins(w: World, t: TurnId, x: SenderId, sid: Sid)
    requires WorksForgotten(w, t, sid) && Waits(w, x, sid) && CanResume(w, x) && InOrder(w, Resume(x))
    ensures CanClash(w, sid)
  {
    hide Undropped, LockOf, Sids, CanClash, Numbered, Locks;
    var mid := w.Step(Resume(x));
    StepKeepsLocks(w, Resume(x));
    StepKeepsNumbered(w, Resume(x));
    var next := TasksBegin(mid, t, |w.turns|, sid);
    LeadsToItself(mid, sid);
    LeadsOn(w, Resume(x), sid, mid);
    ClashLater(w, sid, mid);
  }

  lemma WaiterFollows(w: World, t: TurnId, x: SenderId, sid: Sid)
    requires WorksForgotten(w, t, sid) && Books(w) && Waits(w, x, sid) && w.senders[x].stage.previous != t
    ensures CanClash(w, sid)
  {
    hide Undropped, LockOf, Sids, CanClash, Numbered, Locks;
    var y := FirstWaiter(w, x);
    var p := w.senders[x].stage.previous;
    assert SenderOk(w, x) && TurnOk(w, p);
    var next := AskedEnds(w, t, p, sid);
    if !CanClash(w, sid) {
      assert InOrder(next, Resume(y));
      WaiterBegins(next, t, y, sid);
      ClashLater(w, sid, next);
    }
  }

  lemma OtherLockFollows(w: World, t: TurnId, u: TurnId, sid: Sid)
    requires WorksForgotten(w, t, sid) && Locked(w, u, sid) && w.turns[u].phase.lock != w.turns[t].phase.lock
    ensures CanClash(w, sid)
  {
    hide Undropped, LockOf, Sids, CanClash, Numbered, Locks;
    var next := GetsIn(w, u, w.turns[u].phase.lock, sid);
    assert Moved(w.turns[t], next.turns[t], w.turns[u].phase.lock);
    assert Works(next, t, sid) && Works(next, u, sid);
    LeadsToClash(w, sid, next);
  }

  lemma WayIsNumbered(w: World, next: World, t: TurnId, lock: Lock)
    requires Numbered(w) && MadeWay(w, next, t, lock)
    ensures Numbered(next)
  {
  }

  lemma RiskLeadsToClash(w: World, t: TurnId, sid: Sid)
    requires w.max >= 1 && Invariant(w) && Numbered(w) && !Knows(w, sid) && Stale(w, t, sid) && AnotherComes(w, t, sid)
    ensures CanClash(w, sid)
  {
    hide Undropped, LockOf, Sids, CanClash, Numbered, Books, Locks;
    var lock := w.turns[t].phase.lock;
    var next := GetsIn(w, t, lock, sid);
    BooksFollow(w, next);
    WayIsNumbered(w, next, t, lock);
    assert WorksForgotten(next, t, sid);
    if u: TurnId :| Locked(w, u, sid) && w.turns[u].phase.lock != lock {
      assert Moved(w.turns[u], next.turns[u], lock);
      OtherLockFollows(next, t, u, sid);
    } else if u: TurnId :| Unstarted(w, u, sid) {
      assert Moved(w.turns[u], next.turns[u], lock);
      var _ := TasksBegin(next, t, u, sid);
    } else {
      var x: SenderId :| Waits(w, x, sid) && w.senders[x].stage.previous != t;
      WaiterFollows(next, t, x, sid);
    }
    ClashLater(w, sid, next);
  }

  lemma StartIsNumbered(max: nat)
    ensures Numbered(Start(max))
  {
  }

  /**
   Main result: after a drop, some run in the order of the event loop that does not drop the session again
   lets two of its turns work at once if and only if a turn still holds, or waits for, the lost lock while
   another is to come: one on yet another lock, one that has not begun, or a send that waits for another turn.
   */
  lemma DropBreaksExclusionIff(max: nat, past: seq<Event>, sid: Sid)
    requires max >= 1 && !Knows(Start(max).Run(past), sid)
    ensures var w := Start(max).Run(past); CanClash(w, sid) <==> AtRisk(w, sid)
  {
    StartIsFine(max);
    StartIsNumbered(max);
    hide World.Run, Books, Locks, Numbered, Undropped, AnotherComes, LockOf, Clash, Knows;
    RunKeepsNumbered(Start(max), past);
    RunKeepsMax(Start(max), past);
    var w := Start(max).Run(past);
    if t: TurnId :| Stale(w, t, sid) && AnotherComes(w, t, sid) {
      RiskLeadsToClash(w, t, sid);
    } else if CanClash(w, sid) {
      var events :| Undropped(w, events, sid) && Clash(w.Run(events), sid);
      UndroppedIsCalm(w, events, sid);
      ClashIsRisk(w.Run(events), sid);
    }
  }

  // ------------------------------------------------------------------ one such run

  ghost predicate InOrderRun(w: World, events: seq<Event>)
    decreases |events|
  {
    events != [] ==> InOrder(w, events[0]) && InOrderRun(w.Step(events[0]), events[1..])
  }

  /** A world that keeps one session. */
  function One(sessions: seq<Session>, running: map<Sid, TurnId>, superseded: set<TurnId>, locks: nat,
               turns: seq<Turn>, senders: seq<Sender>, dropped: set<Sid>): World {
    World(1, sessions, running, superseded, locks, turns, senders, [], dropped)
  }

  function Task(sid: Sid, sender: SenderId, phase: Phase): Turn {
    Turn(sid, sender, false, phase, {})
  }

  /** A turn of session 0 that the waiting senders replaced. */
  function Replaced(sender: SenderId, phase: Phase, senders: set<SenderId>): Turn {
    Turn(0, sender, true, phase, senders)
  }

  function Caller(sid: Sid, stage: Stage): Sender {
    Sender(sid, stage, false)
  }

  /**
   Senders 1 and 2 wait for turn 0, and make turns 1 and 2 when it is over. Turn 1 works and turn 2 waits
   for the lock when sender 3 replaces turn 2 and session 7 starts, which takes the place of session 0.
   Then sender 3 makes turn 4, with a new lock.
   */
  const CROWDED := [
    Send(0), Begin(0), Enter(0), Send(0), Send(0), Leave(0, true), Return(0, false), Resume(1), Resume(2),
    Begin(1), Enter(1), Begin(2), Send(0), Send(7), Finish(2, true),
    Begin(3), Enter(3), Return(2, false), Resume(3), Begin(4), Enter(4)]

  /** The worlds of that run until turn 2 is made. */
  function Early(k: nat): World
    requires k <= 8
  {
    var mine := if k <= 1 then [] else [Session(0, 0)];
    var locks := if k <= 1 then 0 else 1;
    var first := if k <= 6 then Caller(0, Following(0)) else Caller(0, Returned(0, TurnSuperseded));
    var wait := Caller(0, Waiting(0));
    if k == 0 then Start(1)
    else if k <= 3 then
      One(mine, map[0 := 0], {}, locks,
          [Task(0, 0, if k == 1 then Created else if k == 2 then Queued(0) else Inside(0))], [first], {})
    else if k == 4 then One(mine, map[0 := 0], {0}, 1, [Replaced(0, Inside(0), {1})], [first, wait], {})
    else if k == 5 then One(mine, map[0 := 0], {0}, 1, [Replaced(0, Inside(0), {1, 2})], [first, wait, wait], {})
    else
      var over := Replaced(0, Done(Cancelled), {1, 2});
      if k == 6 then One(mine, map[0 := 0], {0}, 1, [over], [first, wait, wait], {})
      else if k == 7 then One(mine, map[], {}, 1, [over], [first, wait, wait], {})
      else One(mine, map[0 := 1], {}, 1, [over, Task(0, 1, Created)], [first, Caller(0, Following(1)), wait], {})
  }

  /** The worlds that follow, with turn 1 and sender 1 left at their places. */
  function Crowd(k: nat): World
    requires 9 <= k <= 21
  {
    var sessions := if k <= 15 then [Session(0, 0)] else if k <= 19 then [Session(7, 1)] else [Session(0, 2)];
    var locks := if k <= 15 then 1 else if k <= 19 then 2 else 3;
    var dropped := if k <= 15 then {} else if k <= 19 then {0} else {0, 7};
    var superseded := if 13 <= k <= 17 then {2} else {};
    var running :=
      if k <= 13 then map[0 := 2] else if k <= 17 then map[0 := 2, 7 := 3]
      else if k == 18 then map[7 := 3] else map[7 := 3, 0 := 4];
    var one := Task(0, 1, if k == 9 then Created else if k == 10 then Queued(0) else Inside(0));
    var two :=
      if k <= 12 then Task(0, 2, if k <= 11 then Created else Queued(0))
      else Replaced(2, if k <= 14 then Queued(0) else Done(Cancelled), {3});
    var three := Task(7, 4, if k <= 15 then Created else if k == 16 then Queued(1) else Inside(1));
    var four := Task(0, 3, if k == 19 then Created else if k == 20 then Queued(2) else Inside(2));
    var over := Replaced(0, Done(Cancelled), {1, 2});
    var first := Caller(0, Returned(0, TurnSuperseded));
    var follows := Caller(0, Following(1));
    var second := Caller(0, if k <= 17 then Following(2) else Returned(2, TurnSuperseded));
    var third := Caller(0, if k <= 18 then Waiting(2) else Following(4));
    var fourth := Caller(7, Following(3));
    var turns :=
      if k <= 13 then [over, one, two] else if k <= 18 then [over, one, two, three] else [over, one, two, three, four];
    var senders :=
      if k <= 12 then [first, follows, second] else if k == 13 then [first, follows, second, third]
      else [first, follows, second, third, fourth];
    One(sessions, running, superseded, locks, turns, senders, dropped)
  }

  function Moment(k: nat): World
    requires k <= 21
  {
    if k <= 8 then Early(k) else Crowd(k)
  }

  /** The k-th event of the run is open in the k-th world, and leads to the next. */
  ghost predicate Goes(k: nat, ev: Event)
    requires k < 21
  {
    InOrder(Moment(k), ev) && Moment(k).Step(ev) == Moment(k + 1)
  }

  lemma TouchNew(sid: Sid, lock: Lock)
    ensures LockOf([], sid) == None && Recent([], sid, lock, 1) == [Session(sid, lock)] && Sids(Evicted([], sid, lock, 1)) == {}
  {
    assert Without([], sid) == [];
    assert Used([], sid, lock) == [Session(sid, lock)];
    assert [Session(sid, lock)][..0] == [] && [Session(sid, lock)][0..] == [Session(sid, lock)];
  }

  lemma TouchKnown(sid: Sid, lock: Lock)
    ensures var mine := [Session(sid, lock)];
            LockOf(mine, sid) == Some(lock) && Recent(mine, sid, lock, 1) == mine && Sids(Evicted(mine, sid, lock, 1)) == {}
  {
    var mine := [Session(sid, lock)];
    assert mine[1..] == [] && Without(mine[1..], sid) == [] && Without(mine, sid) == [];
    assert Used(mine, sid, lock) == mine;
    assert mine[..0] == [] && mine[0..] == mine;
  }

  lemma TouchOther(sid: Sid, lock: Lock, other: Sid, held: Lock)
    requires sid != other
    ensures var theirs := [Session(other, held)];
            && LockOf(theirs, sid) == None && Recent(theirs, sid, lock, 1) == [Session(sid, lock)]
            && Sids(Evicted(theirs, sid, lock, 1)) == {other}
  {
    var theirs := [Session(other, held)];
    assert theirs[1..] == [] && Without(theirs[1..], sid) == [];
    assert Used(theirs, sid, lock) == [Session(other, held), Session(sid, lock)];
    assert Evicted(theirs, sid, lock, 1) == theirs && theirs[0] in theirs;
  }

  lemma SendReplacesRunning(w: World, t: TurnId)
    requires 0 in w.running && w.running[0] == t && t < |w.turns| && !w.turns[t].phase.Done?
    requires w.sessions == [Session(0, 0)]
    ensures var me := w.turns[t];
            w.Step(Send(0)) == w.(
              superseded := w.superseded + {t},
              turns := w.turns[t := me.(asked := true, replacedBy := me.replacedBy + {|w.senders|})],
              senders := w.senders + [Sender(0, Waiting(t), false)])
  {
    assert t !in w.DoneTurns();
    assert Session(0, 0) in w.sessions;
  }

  lemma BeginsKnown(w: World, t: TurnId)
    requires t < |w.turns| && w.turns[t] == Task(0, w.turns[t].sender, Created)
    requires w.max == 1 && w.sessions == [Session(0, 0)]
    ensures w.Step(Begin(t)) == w.At(t, Queued(0))
  {
    TouchKnown(0, 0);
    hide LockOf, Recent, Evicted, Sids;
    assert w.dropped + {} == w.dropped;
  }

  lemma Goes0()
    ensures Goes(0, Send(0))
  {
  }

  lemma Goes1()
    ensures Goes(1, Begin(0))
  {
    TouchNew(0, 0);
    hide LockOf, Recent, Evicted, Sids;
    assert Moment(1).dropped + {} == {};
  }

  lemma Goes2()
    ensures Goes(2, Enter(0))
  {
  }

  lemma Goes3()
    ensures Goes(3, Send(0))
  {
    SendReplacesRunning(Moment(3), 0);
    assert {} + {0} == {0} && {} + {1} == {1};
    hide World.Step;
  }

  lemma Goes4()
    ensures Goes(4, Send(0))
  {
    SendReplacesRunning(Moment(4), 0);
    assert {0} + {0} == {0} && {1} + {2} == {1, 2};
    hide World.Step;
  }

  lemma Goes5()
    ensures Goes(5, Leave(0, true))
  {
  }

  lemma Goes6()
    ensures Goes(6, Return(0, false))
  {
  }

  lemma Goes7()
    ensures Goes(7, Resume(1))
  {
  }

  lemma Goes8()
    ensures Goes(8, Resume(2))
  {
  }

  lemma Goes9()
    ensures Goes(9, Begin(1))
  {
    BeginsKnown(Moment(9), 1);
    hide World.Step;
  }

  lemma Goes10()
    ensures Goes(10, Enter(1))
  {
  }

  lemma Goes11()
    ensures Goes(11, Begin(2))
  {
    BeginsKnown(Moment(11), 2);
    hide World.Step;
  }

  lemma Goes12()
    ensures Goes(12, Send(0))
  {
    SendReplacesRunning(Moment(12), 2);
    assert {} + {2} == {2} && {} + {3} == {3};
    hide World.Step;
  }

  lemma Goes13()
    ensures Goes(13, Send(7))
  {
  }

  lemma Goes14()
    ensures Goes(14, Finish(2, true))
  {
  }

  lemma Goes15()
    ensures Goes(15, Begin(3))
  {
    TouchOther(7, 1, 0, 0);
    hide LockOf, Recent, Evicted, Sids;
    assert Moment(15).dropped + {0} == {0};
  }

  lemma Goes16()
    ensures Goes(16, Enter(3))
  {
  }

  lemma Goes17()
    ensures Goes(17, Return(2, false))
  {
  }

  lemma Goes18()
    ensures Goes(18, Resume(3))
  {
  }

  lemma Goes19()
    ensures Goes(19, Begin(4))
  {
    TouchOther(0, 2, 7, 1);
    hide LockOf, Recent, Evicted, Sids;
    assert Moment(19).dropped + {7} == {0, 7};
  }

  lemma Goes20()
    ensures Goes(20, Enter(4))
  {
  }

  lemma EachGoes(k: nat)
    requires k < 21
    ensures Goes(k, CROWDED[k])
  {
    hide Goes;
    Goes0(); Goes1(); Goes2(); Goes3(); Goes4(); Goes5(); Goes6(); Goes7(); Goes8(); Goes9(); Goes10();
    Goes11(); Goes12(); Goes13(); Goes14(); Goes15(); Goes16(); Goes17(); Goes18(); Goes19(); Goes20();
  }

  lemma {:induction false} RunGoes(k: nat)
    requires k <= 21
    ensures InOrderRun(Moment(k), CROWDED[k..]) && Moment(k).Run(CROWDED[k..]) == Moment(21)
    decreases 21 - k
  {
    hide InOrder, World.Step, Moment;
    if k == 21 {
      assert CROWDED[21..] == [];
    } else {
      EachGoes(k);
      RunGoes(k + 1);
      assert CROWDED[k..][0] == CROWDED[k] && CROWDED[k..][1..] == CROWDED[k + 1..];
    }
  }

  /** Main result: turns 1 and 4 of session 0 work at once, every task having begun in its order. */
  lemma EvictionBreaksExclusion()
    ensures InOrderRun(Start(1), CROWDED)
    ensures Works(Start(1).Run(CROWDED), 1, 0) && Works(Start(1).Run(CROWDED), 4, 0)
  {
    hide World.Run, InOrderRun;
    RunGoes(0);
    assert CROWDED[0..] == CROWDED;
  }
}
