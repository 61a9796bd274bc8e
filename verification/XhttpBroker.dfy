/**
 The XHTTP sessions of one inbound sharing one byte budget: pushes, reads, resumes, authentication, closing and
 expiry, whose effects on the queues come after the broker's lock is released and so in any order.
 */
module XhttpBroker {
  import opened Wire
  import opened XhttpQueue

  const MAX_SESSIONS := 8192
  const MAX_UNAUTH := 256

  datatype Session = Session(uplink: nat, unauth: bool)

  /**
   All uplink queues ever made, by creation; `leaving` are queues that an authentication has yet to take off
   the budget, `ending` queues that a close or an expiry has yet to close and discard.
   */
  datatype State = State(
    queues: seq<Queue>,
    budget: Budget,
    sessions: map<string, Session>,
    unauth: int,
    leaving: set<nat>,
    ending: set<nat>)

  datatype Step =
    | OpenSession(id: string, maxPending: nat, byteLimit: nat)
    | PushTo(q: nat, s: nat, payload: bytes)
    | AppendTo(q: nat, payload: bytes)
    | ReadFrom(q: nat)
    | ResumeAt(q: nat, s: nat)
    | Authenticate(id: string)
    | LeaveBudget(q: nat)
    | EndSession(id: string)
    | CloseQueue(q: nat)
    | DiscardQueue(q: nat)

  function Start(limit: nat): State { State([], Budget(0, limit), map[], 0, {}, {}) }

  predicate Admits(s: State) { |s.sessions| < MAX_SESSIONS && s.unauth < MAX_UNAUTH }

  function NewUplink(maxPending: nat, byteLimit: nat): Queue { NewQueue(maxPending).(attached := true, byteLimit := byteLimit) }

  function With(s: State, q: nat, r: Queue, b: Budget): State
    requires q < |s.queues|
  {
    s.(queues := s.queues[q := r], budget := b)
  }

  ghost predicate Next(s: State, step: Step, t: State) {
    match step
    case OpenSession(id, maxPending, byteLimit) =>
      && id !in s.sessions && Admits(s)
      && t == s.(queues := s.queues + [NewUplink(maxPending, byteLimit)],
                 sessions := s.sessions[id := Session(|s.queues|, true)], unauth := s.unauth + 1)
    case PushTo(q, n, payload) =>
      q < |s.queues| && var (r, b, _) := Push(s.queues[q], s.budget, n, payload); t == With(s, q, r, b)
    case AppendTo(q, payload) =>
      q < |s.queues| && var (r, b, _) := Append(s.queues[q], s.budget, payload); t == With(s, q, r, b)
    case ReadFrom(q) =>
      q < |s.queues| && var (r, b, _) := Read(s.queues[q], s.budget); t == With(s, q, r, b)
    case ResumeAt(q, n) =>
      q < |s.queues| && var (r, b, _) := Resume(s.queues[q], s.budget, n); t == With(s, q, r, b)
    case Authenticate(id) =>
      if id !in s.sessions || !s.sessions[id].unauth then t == s
      else
        var it := s.sessions[id];
        t == s.(sessions := s.sessions[id := it.(unauth := false)], unauth := s.unauth - 1, leaving := s.leaving + {it.uplink})
    case LeaveBudget(q) =>
      && q in s.leaving && q < |s.queues|
      && var (r, b) := Leave(s.queues[q], s.budget); t == With(s, q, r, b).(leaving := s.leaving - {q})
    case EndSession(id) =>
      if id !in s.sessions then t == s
      else
        t == s.(sessions := s.sessions - {id}, unauth := s.unauth - (if s.sessions[id].unauth then 1 else 0),
                ending := s.ending + {s.sessions[id].uplink})
    case CloseQueue(q) =>
      q in s.ending && q < |s.queues| && t == With(s, q, s.queues[q].(closed := true), s.budget)
    case DiscardQueue(q) =>
      && q in s.ending && q < |s.queues| && s.queues[q].closed
      && var (r, b) := Discard(s.queues[q], s.budget); t == With(s, q, r, b).(ending := s.ending - {q})
  }

  /** What all attached queues hold together. */
  function Shares(qs: seq<Queue>): int {
    if qs == [] then 0 else Share(qs[0]) + Shares(qs[1..])
  }

  function Flagged(sessions: map<string, Session>): set<string> { set id | id in sessions && sessions[id].unauth }

  ghost predicate QueuesSound(qs: seq<Queue>) { forall q :: 0 <= q < |qs| ==> Sound(qs[q]) }

  ghost predicate Exact(s: State) {
    && QueuesSound(s.queues)
    && s.budget.used == Shares(s.queues) && s.budget.used <= s.budget.limit
    && s.unauth == |Flagged(s.sessions)| && s.unauth <= MAX_UNAUTH
  }

  /** A queue on the budget belongs to an unauthenticated session, or is about to be taken off. */
  ghost predicate Accounted(s: State) {
    && (forall id :: id in s.sessions ==> s.sessions[id].uplink < |s.queues|)
    && (forall q :: 0 <= q < |s.queues| && s.queues[q].attached ==>
          q in s.leaving || q in s.ending || exists id :: Awaits(s.sessions, id, q))
  }

  predicate Awaits(sessions: map<string, Session>, id: string, q: nat) {
    id in sessions && sessions[id].unauth && sessions[id].uplink == q
  }

  lemma {:induction false} SharesUpdate(qs: seq<Queue>, q: nat, r: Queue)
    requires q < |qs|
    ensures Shares(qs[q := r]) == Shares(qs) - Share(qs[q]) + Share(r)
  {
    var rs := qs[q := r];
    if q == 0 {
      assert rs[1..] == qs[1..];
    } else {
      assert rs[1..] == qs[1..][q - 1 := r];
      SharesUpdate(qs[1..], q - 1, r);
    }
  }

  lemma {:induction false} SharesSnoc(qs: seq<Queue>, r: Queue)
    ensures Shares(qs + [r]) == Shares(qs) + Share(r)
  {
    if qs == [] {
      assert qs + [r] == [r] && [r][1..] == qs;
    } else {
      assert (qs + [r])[1..] == qs[1..] + [r];
      SharesSnoc(qs[1..], r);
    }
  }

  lemma {:induction false} QueueStepExact(s: State, q: nat, r: Queue, b: Budget, t: State)
    requires Exact(s) && q < |s.queues| && Sound(r) && b.limit == s.budget.limit && b.used <= b.limit
    requires b.used - s.budget.used == Share(r) - Share(s.queues[q])
    requires t.queues == s.queues[q := r] && t.budget == b && t.sessions == s.sessions && t.unauth == s.unauth
    ensures Exact(t)
  {
    SharesUpdate(s.queues, q, r);
    hide Sound, Share, Shares;
  }

  predicate OnQueue(step: Step) { !step.OpenSession? && !step.Authenticate? && !step.EndSession? }

  /** Every step on a queue changes the budget's use by exactly what it changes in the queue. */
  lemma {:induction false} QueueSteps(s: State, step: Step, t: State)
    requires Next(s, step, t) && OnQueue(step) && QueuesSound(s.queues) && s.budget.used <= s.budget.limit
    ensures var q := step.q;
            && q < |s.queues| == |t.queues| && t.queues == s.queues[q := t.queues[q]] && Sound(t.queues[q])
            && t.budget.limit == s.budget.limit && t.budget.used <= t.budget.limit
            && t.budget.used - s.budget.used == Share(t.queues[q]) - Share(s.queues[q])
            && t.sessions == s.sessions && t.unauth == s.unauth
            && (if t.queues[q].attached then s.queues[q].attached && t.leaving == s.leaving && t.ending == s.ending
                else t.leaving >= s.leaving - {q} && t.ending >= s.ending - {q})
  {
    hide Push, Append, Read, Resume, Leave, Discard;
    var x := s.queues[step.q];
    assert Sound(x);
    match step
    case PushTo(_, n, payload) => PushKeeps(x, s.budget, n, payload);
    case AppendTo(_, payload) => AppendKeeps(x, s.budget, payload);
    case ReadFrom(_) => ReadKeeps(x, s.budget);
    case ResumeAt(_, n) => ResumeKeeps(x, s.budget, n);
    case LeaveBudget(_) => LeaveKeeps(x, s.budget);
    case DiscardQueue(_) => DiscardKeeps(x, s.budget);
    case CloseQueue(_) =>
  }

  lemma {:induction false} SessionsExact(s: State, step: Step, t: State)
    requires Next(s, step, t) && Exact(s) && (step.Authenticate? || step.EndSession?)
    ensures Exact(t)
  {
    hide Sound, Shares;
    if step.id in s.sessions {
      assert step.id in Flagged(s.sessions) <==> s.sessions[step.id].unauth;
      if step.EndSession? || s.sessions[step.id].unauth {
        assert Flagged(t.sessions) == Flagged(s.sessions) - {step.id};
      }
    }
  }

  lemma {:induction false} StepKeepsExact(s: State, step: Step, t: State)
    requires Next(s, step, t) && Exact(s)
    ensures Exact(t)
  {
    if step.OpenSession? {
      OpenExact(s, step.id, step.maxPending, step.byteLimit);
    } else if OnQueue(step) {
      QueueSteps(s, step, t);
      hide Next, Sound, Share, Shares;
      QueueStepExact(s, step.q, t.queues[step.q], t.budget, t);
    } else {
      SessionsExact(s, step, t);
    }
  }

  lemma {:induction false} OpenExact(s: State, id: string, maxPending: nat, byteLimit: nat)
    requires Exact(s) && id !in s.sessions && Admits(s)
    ensures Exact(s.(queues := s.queues + [NewUplink(maxPending, byteLimit)],
                     sessions := s.sessions[id := Session(|s.queues|, true)], unauth := s.unauth + 1))
  {
    var r := NewUplink(maxPending, byteLimit);
    assert Sound(r) && Share(r) == 0;
    SharesSnoc(s.queues, r);
    hide Sound, Share, Shares;
    assert Flagged(s.sessions[id := Session(|s.queues|, true)]) == Flagged(s.sessions) + {id};
  }

  lemma {:induction false} SessionsAccounted(s: State, step: Step, t: State, q: nat)
    requires Next(s, step, t) && Accounted(s) && !OnQueue(step) && q < |t.queues| && t.queues[q].attached
    ensures q in t.leaving || q in t.ending || exists id :: Awaits(t.sessions, id, q)
  {
    if step.OpenSession? {
      assert q == |s.queues| ==> Awaits(t.sessions, step.id, q);
    }
    if id :| q < |s.queues| && Awaits(s.sessions, id, q) {
      assert Awaits(t.sessions, id, q) || q in t.leaving || q in t.ending;
    }
  }

  lemma {:induction false} StepKeepsAccounted(s: State, step: Step, t: State)
    requires Next(s, step, t) && Exact(s) && Accounted(s)
    ensures Accounted(t)
  {
    hide Sound, Share, Shares;
    if OnQueue(step) {
      QueueSteps(s, step, t);
      hide Next;
    } else {
      forall q: nat | q < |t.queues| && t.queues[q].attached
        ensures q in t.leaving || q in t.ending || exists id :: Awaits(t.sessions, id, q)
      {
        SessionsAccounted(s, step, t, q);
      }
    }
  }

  ghost predicate Run(states: seq<State>, steps: seq<Step>, limit: nat) {
    && |states| == |steps| + 1 && states[0] == Start(limit)
    && forall i :: 0 <= i < |steps| ==> Next(states[i], steps[i], states[i + 1])
  }

  /**
   In every run the budget's use is exactly what the attached queues hold, never over its limit, and the
   unauthenticated count is exactly the sessions so flagged.
   */
  lemma {:induction false} BudgetIsExact(states: seq<State>, steps: seq<Step>, limit: nat, n: nat)
    requires Run(states, steps, limit) && n < |states|
    ensures Exact(states[n]) && Accounted(states[n])
  {
    if n == 0 {
      assert Flagged(map[]) == {};
    } else {
      assert Next(states[n - 1], steps[n - 1], states[n]);
      hide Next, Exact, Accounted;
      BudgetIsExact(states, steps, limit, n - 1);
      StepKeepsExact(states[n - 1], steps[n - 1], states[n]);
      StepKeepsAccounted(states[n - 1], steps[n - 1], states[n]);
    }
  }

  /** A session can be opened whenever there are fewer than 8192, and fewer than 256 that have not authenticated. */
  lemma {:induction false} CanOpen(s: State, id: string, maxPending: nat, byteLimit: nat) returns (t: State)
    requires Exact(s) && id !in s.sessions && |s.sessions| < 8192 && |Flagged(s.sessions)| < 256
    ensures Next(s, OpenSession(id, maxPending, byteLimit), t) && id in t.sessions && t.sessions[id].unauth
    ensures t.sessions[id].uplink == |s.queues| && |t.queues| == |s.queues| + 1
    ensures t.queues[|s.queues|] == Queue(0, map[], maxPending, false, 0, 0, true, byteLimit)
  {
    t := s.(queues := s.queues + [NewUplink(maxPending, byteLimit)],
            sessions := s.sessions[id := Session(|s.queues|, true)], unauth := s.unauth + 1);
  }

  /** Authenticating takes the session's queue off the budget, and gives back what it holds. */
  lemma {:induction false} AuthenticatedIsFree(s: State, id: string) returns (t: seq<State>)
    requires id in s.sessions && s.sessions[id].unauth && s.sessions[id].uplink < |s.queues|
    ensures var q := s.sessions[id].uplink;
            && |t| == 3 && t[0] == s && Next(t[0], Authenticate(id), t[1]) && Next(t[1], LeaveBudget(q), t[2])
            && |t[2].queues| == |s.queues| && !t[2].queues[q].attached && t[2].queues[q].pending == s.queues[q].pending
            && t[2].unauth == s.unauth - 1 && id in t[2].sessions && !t[2].sessions[id].unauth
            && t[2].budget.used == s.budget.used - (if s.queues[q].attached then s.queues[q].held else 0)
  {
    var it := s.sessions[id];
    var t1 := s.(sessions := s.sessions[id := it.(unauth := false)], unauth := s.unauth - 1, leaving := s.leaving + {it.uplink});
    var (r, b) := Leave(s.queues[it.uplink], s.budget);
    var t2 := With(t1, it.uplink, r, b).(leaving := t1.leaving - {it.uplink});
    t := [s, t1, t2];
  }

  /** Ending a session takes it off the map and leaves its queue to be closed and emptied ... */
  lemma {:induction false} EndedIsEnding(s: State, id: string, t: State)
    requires Next(s, EndSession(id), t) && id in s.sessions
    ensures id !in t.sessions && s.sessions[id].uplink in t.ending && t.unauth == s.unauth - if s.sessions[id].unauth then 1 else 0
  {
  }

  /** ... which drops what waits there and gives it back. */
  lemma {:induction false} EndingIsEmptied(s: State, q: nat) returns (t: seq<State>)
    requires q in s.ending && q < |s.queues| && Sound(s.queues[q])
    ensures |t| == 3 && t[0] == s && Next(t[0], CloseQueue(q), t[1]) && Next(t[1], DiscardQueue(q), t[2])
    ensures t[2] == s.(queues := s.queues[q := s.queues[q].(pending := map[], held := 0, attached := false, closed := true)],
                       budget := s.budget.(used := s.budget.used - if s.queues[q].attached then s.queues[q].held else 0),
                       ending := s.ending - {q})
  {
    DiscardExactly(s.queues[q].(closed := true), s.budget);
    hide Sound, Discard;
    var t1 := With(s, q, s.queues[q].(closed := true), s.budget);
    var (r, b) := Discard(t1.queues[q], t1.budget);
    t := [s, t1, With(t1, q, r, b).(ending := s.ending - {q})];
  }

  lemma {:induction false} NoneAttached(qs: seq<Queue>)
    requires forall q :: 0 <= q < |qs| ==> !qs[q].attached
    ensures Shares(qs) == 0
  {
    if qs != [] {
      NoneAttached(qs[1..]);
    }
  }

  /** Once every session has ended and its clean-up is done, nothing is left on the books. */
  lemma {:induction false} AllReturned(states: seq<State>, steps: seq<Step>, limit: nat, n: nat)
    requires Run(states, steps, limit) && n < |states|
    requires states[n].sessions == map[] && states[n].leaving == {} && states[n].ending == {}
    ensures states[n].budget.used == 0 && states[n].unauth == 0
  {
    BudgetIsExact(states, steps, limit, n);
    var s := states[n];
    hide Run, Sound;
    NoneAttached(s.queues);
    assert Flagged(s.sessions) == {};
  }

  // ------------------------------------------------------------------ the broker itself

  /** Taking a session out of the map takes it out of the flagged ones. */
  lemma {:induction false} Ended(sessions: map<string, Session>, id: string)
    requires id in sessions
    ensures |Flagged(sessions - {id})| == |Flagged(sessions)| - (if sessions[id].unauth then 1 else 0)
    ensures |sessions - {id}| == |sessions| - 1
  {
    assert Flagged(sessions - {id}) == Flagged(sessions) - {id};
    assert (sessions - {id}).Keys == sessions.Keys - {id};
    assert |sessions| == |sessions.Keys| && |sessions - {id}| == |(sessions - {id}).Keys|;
  }

  lemma {:induction false} Changed(sessions: map<string, Session>, id: string, x: Session)
    ensures |Flagged(sessions[id := x])| == |Flagged(sessions - {id})| + if x.unauth then 1 else 0
    ensures |sessions[id := x]| == |sessions - {id}| + 1
  {
    var more, less := sessions[id := x], sessions - {id};
    assert Flagged(more) == if x.unauth then Flagged(less) + {id} else Flagged(less);
    assert more.Keys == less.Keys + {id};
    assert |more| == |more.Keys| && |less| == |less.Keys|;
  }

  class Broker {
    var sessions: map<string, Session>
    var lastSeen: map<string, int>
    var unauth: int
    const idleTimeout: int

    ghost predicate Valid()
      reads this
    {
      && lastSeen.Keys == sessions.Keys && unauth == |Flagged(sessions)|
      && |sessions| <= MAX_SESSIONS && unauth <= MAX_UNAUTH
    }

    constructor (idleTimeout: int)
      ensures Valid() && sessions == map[] && this.idleTimeout == idleTimeout
    {
      sessions, lastSeen, unauth, this.idleTimeout := map[], map[], 0, idleTimeout;
      new;
      assert Flagged(sessions) == {};
    }

    /** Finds the session or opens one with a new queue, within both limits. */
    method OpenDuplex(id: string, uplink: nat, now: int) returns (ok: bool)
      requires Valid()
      modifies this
      ensures Valid()
      ensures ok == (id in old(sessions) || (|old(sessions)| < 8192 && old(unauth) < 256))
      ensures sessions == if id in old(sessions) || !ok then old(sessions) else old(sessions)[id := Session(uplink, true)]
      ensures ok ==> lastSeen[id] == now
    {
      if id in sessions {
        lastSeen := lastSeen[id := now];
        return true;
      }
      if |sessions| >= MAX_SESSIONS || unauth >= MAX_UNAUTH {
        return false;
      }
      Changed(sessions, id, Session(uplink, true));
      assert sessions - {id} == sessions;
      sessions, lastSeen := sessions[id := Session(uplink, true)], lastSeen[id := now];
      unauth := unauth + 1;
      return true;
    }

    /** Returns the queue to take off the budget, the first time only. */
    method Authenticated(id: string) returns (leaving: Option<nat>)
      requires Valid()
      modifies this
      ensures Valid() && sessions.Keys == old(sessions).Keys
      ensures leaving == if id in old(sessions) && old(sessions)[id].unauth then Some(old(sessions)[id].uplink) else None
      ensures forall x :: x in sessions ==> sessions[x] == if x == id then old(sessions)[x].(unauth := false) else old(sessions)[x]
    {
      if id !in sessions || !sessions[id].unauth {
        return None;
      }
      Ended(sessions, id);
      Changed(sessions, id, sessions[id].(unauth := false));
      leaving := Some(sessions[id].uplink);
      sessions, unauth := sessions[id := sessions[id].(unauth := false)], unauth - 1;
    }

    /** Returns the queue to close and discard. */
    method CloseSession(id: string) returns (ending: Option<nat>)
      requires Valid()
      modifies this
      ensures Valid() && sessions == old(sessions) - {id} && lastSeen == old(lastSeen) - {id}
      ensures ending == if id in old(sessions) then Some(old(sessions)[id].uplink) else None
    {
      if id !in sessions {
        assert sessions - {id} == sessions && lastSeen - {id} == lastSeen;
        return None;
      }
      Ended(sessions, id);
      ending := Some(sessions[id].uplink);
      if sessions[id].unauth {
        unauth := unauth - 1;
      }
      sessions, lastSeen := sessions - {id}, lastSeen - {id};
    }

    predicate Idle(id: string, now: int)
      reads this
      requires id in lastSeen
    {
      now - lastSeen[id] >= idleTimeout
    }

    /** Ends exactly the idle sessions and returns their queues. */
    method Expire(now: int) returns (expired: set<nat>)
      requires Valid()
      modifies this
      ensures Valid()
      ensures forall id :: id in sessions <==> id in old(sessions) && !old(Idle(id, now))
      ensures forall id :: id in sessions ==> sessions[id] == old(sessions)[id]
      ensures expired == set id | id in old(sessions) && old(Idle(id, now)) :: old(sessions)[id].uplink
    {
      expired := {};
      var rest := sessions.Keys;
      while rest != {}
        invariant Valid() && rest <= sessions.Keys && sessions.Keys <= old(sessions).Keys
        invariant forall id :: id in sessions ==> sessions[id] == old(sessions)[id] && lastSeen[id] == old(lastSeen)[id]
        invariant forall id :: id in old(sessions) && id !in rest ==> (id in sessions <==> !old(Idle(id, now)))
        invariant expired == set id | id in old(sessions) && id !in rest && old(Idle(id, now)) :: old(sessions)[id].uplink
        decreases rest
      {
        var id := Pick(rest);
        if now - lastSeen[id] >= idleTimeout {
          var ending := CloseSession(id);
          expired := expired + {ending.value};
        }
        rest := rest - {id};
      }
    }
  }
}
