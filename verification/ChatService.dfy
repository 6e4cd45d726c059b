/**
 Turns of a chat (chat/service.py): who runs, who waits, who is replaced. Everything between two
 awaits is one step; the scheduler takes the steps that are open in any order. Sessions, locks,
 turns (tasks) and senders (calls of `send`) are numbered as they come.
 */
module ChatService {
  import opened Common

  type Sid = nat
  type Lock = nat
  type TurnId = nat
  type SenderId = nat

  // ---------------------------------------------------------------- the service's own books

  /** In lists of these the least recently used session comes first. */
  datatype Session = Session(sid: Sid, lock: Lock)

  function LockOf(sessions: seq<Session>, sid: Sid): Option<Lock> {
    if sessions == [] then None
    else if sessions[0].sid == sid then Some(sessions[0].lock)
    else LockOf(sessions[1..], sid)
  }

  function Without(sessions: seq<Session>, sid: Sid): seq<Session> {
    if sessions == [] then []
    else (if sessions[0].sid == sid then [] else [sessions[0]]) + Without(sessions[1..], sid)
  }

  /** The sessions with the one used last at the end. */
  function Used(sessions: seq<Session>, sid: Sid, lock: Lock): seq<Session> {
    Without(sessions, sid) + [Session(sid, lock)]
  }

  function Over(sessions: seq<Session>, max: nat): (n: nat)
    ensures n <= |sessions|
  {
    if |sessions| <= max then 0 else |sessions| - max
  }

  /** What `_touch` keeps. */
  function Recent(sessions: seq<Session>, sid: Sid, lock: Lock, max: nat): seq<Session> {
    var all := Used(sessions, sid, lock);
    all[Over(all, max)..]
  }

  /** And what it drops: the oldest. */
  function Evicted(sessions: seq<Session>, sid: Sid, lock: Lock, max: nat): seq<Session> {
    var all := Used(sessions, sid, lock);
    all[..Over(all, max)]
  }

  ghost predicate Distinct(sessions: seq<Session>) {
    forall i, j :: 0 <= i < j < |sessions| ==> sessions[i].sid != sessions[j].sid
  }

  lemma {:induction false} WithoutHas(sessions: seq<Session>, sid: Sid)
    ensures forall s :: s in Without(sessions, sid) <==> s in sessions && s.sid != sid
    ensures Distinct(sessions) ==> Distinct(Without(sessions, sid))
    ensures |Without(sessions, sid)| <= |sessions|
  {
    if sessions != [] {
      WithoutHas(sessions[1..], sid);
    }
  }

  lemma {:induction false} LockOfIs(sessions: seq<Session>, sid: Sid)
    requires Distinct(sessions)
    ensures forall lock: Lock :: LockOf(sessions, sid) == Some(lock) <==> Session(sid, lock) in sessions
  {
    if sessions != [] {
      LockOfIs(sessions[1..], sid);
    }
  }

  lemma UsedIsDistinct(sessions: seq<Session>, sid: Sid, lock: Lock)
    requires Distinct(sessions)
    ensures Distinct(Used(sessions, sid, lock))
    ensures forall s :: s in Used(sessions, sid, lock) <==> s == Session(sid, lock) || (s in sessions && s.sid != sid)
  {
    hide Without;
    WithoutHas(sessions, sid);
  }

  class Service {
    const max: nat
    var sessions: seq<Session>
    var running: map<Sid, TurnId>
    var superseded: set<TurnId>
    var locks: nat // locks made so far

    ghost predicate Valid()
      reads this
    {
      Distinct(sessions) && |sessions| <= max
    }

    constructor (max: nat)
      ensures Valid() && this.max == max
      ensures sessions == [] && running == map[] && superseded == {} && locks == 0
    {
      this.max, sessions, running, superseded, locks := max, [], map[], {}, 0;
    }

    /** The lock of a session, which becomes the one used last; sessions beyond the bound are dropped, oldest first. */
    method Touch(sid: Sid) returns (lock: Lock, evicted: seq<Session>)
      requires Valid()
      modifies this`sessions, this`locks
      ensures Valid()
      ensures lock == (match old(LockOf(sessions, sid)) case Some(l) => l case None => old(locks))
      ensures locks == old(locks) + (if old(LockOf(sessions, sid)).None? then 1 else 0)
      ensures sessions == Recent(old(sessions), sid, lock, max)
      ensures evicted == Evicted(old(sessions), sid, lock, max)
    {
      hide LockOf, Without, Distinct;
      var known := LockOf(sessions, sid);
      if known.None? {
        lock, locks := locks, locks + 1;
      } else {
        lock := known.value;
      }
      TouchDropsTheOldest(sessions, sid, lock, max);
      ghost var all := Used(sessions, sid, lock);
      sessions := Without(sessions, sid) + [Session(sid, lock)];
      evicted := [];
      while |sessions| > max
        invariant |evicted| <= Over(all, max) && evicted == all[..|evicted|] && sessions == all[|evicted|..]
        modifies this`sessions
        decreases |sessions|
      {
        evicted := evicted + [sessions[0]];
        sessions := sessions[1..];
      }
      assert |evicted| == Over(all, max);
    }

    /** The start of a send: a turn still running for the session is marked as replaced. */
    method BeginSend(sid: Sid, done: set<TurnId>) returns (previous: Option<TurnId>)
      modifies this`superseded
      ensures previous == Previous(running, sid, done)
      ensures superseded == old(superseded) + (if previous.Some? then {previous.value} else {})
    {
      previous := None;
      if sid in running && running[sid] !in done {
        previous := Some(running[sid]);
        superseded := superseded + {running[sid]};
      }
    }

    method Launch(sid: Sid, turn: TurnId)
      modifies this`running
      ensures running == old(running)[sid := turn]
    {
      running := running[sid := turn];
    }

    /** The end of a send, whatever came of its turn. */
    method EndSend(sid: Sid, turn: TurnId)
      modifies this`running, this`superseded
      ensures superseded == old(superseded) - {turn}
      ensures running == Cleared(old(running), sid, turn)
    {
      superseded := superseded - {turn};
      if sid in running && running[sid] == turn {
        running := running - {sid};
      }
    }

    method Forget(sid: Sid)
      requires Valid()
      modifies this`sessions
      ensures Valid() && sessions == Without(old(sessions), sid)
    {
      WithoutHas(sessions, sid);
      sessions := Without(sessions, sid);
    }
  }

  /** The turn a new send replaces: the one running for its session, unless that is over. */
  function Previous(running: map<Sid, TurnId>, sid: Sid, done: set<TurnId>): Option<TurnId> {
    if sid in running && running[sid] !in done then Some(running[sid]) else None
  }

  function Cleared(running: map<Sid, TurnId>, sid: Sid, turn: TurnId): map<Sid, TurnId> {
    if sid in running && running[sid] == turn then running - {sid} else running
  }

  /** What `_touch` keeps: only the least recently used sessions go, and never more than it must. */
  lemma TouchDropsTheOldest(sessions: seq<Session>, sid: Sid, lock: Lock, max: nat)
    requires Distinct(sessions)
    ensures var kept, dropped := Recent(sessions, sid, lock, max), Evicted(sessions, sid, lock, max);
            && |kept| <= max && Distinct(kept) && dropped + kept == Used(sessions, sid, lock)
            && (dropped != [] ==> |kept| == max)
            && (max > 0 ==> kept[|kept| - 1] == Session(sid, lock) && forall s <- dropped :: s.sid != sid)
  {
    hide Used, Distinct;
    UsedIsDistinct(sessions, sid, lock);
    UsedEnds(sessions, sid, lock);
    SplitIsDistinct(Used(sessions, sid, lock), Over(Used(sessions, sid, lock), max));
  }

  /** Of distinct sessions, the dropped ones are none of those kept. */
  lemma SplitIsDistinct(all: seq<Session>, n: nat)
    requires Distinct(all) && n <= |all|
    ensures Distinct(all[n..]) && all[..n] + all[n..] == all
    ensures n < |all| ==> all[n..][|all| - n - 1] == all[|all| - 1] && forall s <- all[..n] :: s.sid != all[|all| - 1].sid
  {
  }

  lemma UsedEnds(sessions: seq<Session>, sid: Sid, lock: Lock)
    ensures var all := Used(sessions, sid, lock); all != [] && all[|all| - 1] == Session(sid, lock)
  {
  }
}
