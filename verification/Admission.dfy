/**
 Authenticating a connection against a user being deleted: connections read an epoch, look their user up and
 register; one administrator deletes users from the table, reads the clock, then revokes. Every step of each
 may fall between any steps of the others.
 */
module Admission {
  import opened Wire
  import opened UserSessions

  /** How far a connection has come; `since` is when it read its epoch, `lag` how long it then took to register. */
  datatype Phase =
    | Begun(epoch: nat, since: int)
    | Found(epoch: nat, since: int, id: int)
    | Registered(session: nat, id: int, lag: int)
    | Refused

  datatype Admin =
    | Idle
    | Deleted(ids: seq<int>)
    | Clocked(ids: seq<int>, now: int)

  /** `stale` are the connections whose user was deleted after they had looked the user up. */
  datatype State = State(
    table: Table,
    users: map<string, int>,
    time: int,
    conns: map<nat, Phase>,
    admin: Admin,
    stale: set<nat>)

  datatype Step =
    | Tick(time: int)
    | Begin(c: nat)
    | Lookup(c: nat, credential: string)
    | Register(c: nat)
    | Finish(c: nat)
    | AddUser(credential: string, id: int)
    | Delete(credentials: seq<string>)
    | ReadClock
    | Revoke

  function Start(): State { State(Empty(), map[], 0, map[], Idle, {}) }

  function Removed(users: map<string, int>, credentials: seq<string>): seq<int> {
    if credentials == [] then []
    else if credentials[0] in users then [users[credentials[0]]] + Removed(users - {credentials[0]}, credentials[1..])
    else Removed(users, credentials[1..])
  }

  /** The connections that have looked up one of these users. */
  function Holding(conns: map<nat, Phase>, ids: seq<int>): set<nat> {
    set c | c in conns && (conns[c].Found? || conns[c].Registered?) && conns[c].id in ids
  }

  ghost predicate Next(s: State, step: Step, t: State) {
    match step
    case Tick(time) => time >= s.time && t == s.(time := time)
    case Begin(c) =>
      c !in s.conns && t == s.(conns := s.conns[c := Begun(s.table.seqNo, s.time)])
    case Lookup(c, credential) =>
      && c in s.conns && s.conns[c].Begun?
      && t == s.(conns := s.conns[c := if credential in s.users
                                       then Found(s.conns[c].epoch, s.conns[c].since, s.users[credential])
                                       else Refused])
    case Register(c) =>
      && c in s.conns && s.conns[c].Found? && Sound(s.table)
      && var r := Open(s.table, s.conns[c].id, s.conns[c].epoch);
         t == if r.None? then s.(conns := s.conns[c := Refused])
              else s.(table := r.value, conns := s.conns[c := Registered(|s.table.sessions|, s.conns[c].id, s.time - s.conns[c].since)])
    case Finish(c) =>
      && c in s.conns && s.conns[c].Registered? && Sound(s.table) && s.conns[c].session < |s.table.sessions|
      && t == s.(table := Close(s.table, s.conns[c].session))
    case AddUser(credential, id) => t == s.(users := s.users[credential := id])
    case Delete(credentials) =>
      && s.admin.Idle?
      && var ids := Removed(s.users, credentials);
         t == s.(users := s.users - (set x | x in credentials), admin := Deleted(ids),
                 stale := s.stale + Holding(s.conns, ids))
    case ReadClock =>
      s.admin.Deleted? && t == s.(admin := Clocked(s.admin.ids, s.time))
    case Revoke =>
      && s.admin.Clocked?
      && var ids, now := s.admin.ids, s.admin.now;
         t == s.(admin := Idle, table := if ids == [] then s.table else Prune(RevokeAll(s.table, ids, now), now))
  }

  /** The administrator has deleted this user and not revoked them yet. */
  predicate Pending(s: State, id: int) { !s.admin.Idle? && id in s.admin.ids }

  /** A connection that must not get in: a revocation is coming, or has left its mark, or it took too long. */
  predicate Due(s: State, epoch: nat, since: int, id: int) {
    || (Pending(s, id) && (s.admin.Clocked? ==> s.admin.now >= since))
    || (RevokedSince(s.table, id, epoch) && s.table.revoked[id].at >= since)
    || s.time - since > REVOKED_KEEP
  }

  ghost predicate Good(s: State) {
    && Inv(s.table, multiset{})
    && (s.admin.Clocked? ==> s.admin.now <= s.time)
    && DatedBy(s.table, if s.admin.Clocked? then s.admin.now else s.time)
    && (forall c :: c in s.conns ==> PhaseGood(s, s.conns[c]))
    && (forall c :: c in s.stale ==> c in s.conns && StaleGood(s, s.conns[c]))
  }

  /** No marker is dated later. */
  ghost predicate DatedBy(t: Table, now: int) { forall id :: id in t.revoked ==> t.revoked[id].at <= now }

  /** An epoch is a counter value of the past. */
  ghost predicate PhaseGood(s: State, p: Phase) {
    match p
    case Begun(epoch, since) => epoch <= s.table.seqNo && since <= s.time
    case Found(epoch, since, _) => epoch <= s.table.seqNo && since <= s.time
    case Registered(n, id, _) => n < |s.table.sessions| && s.table.sessions[n].key == id
    case Refused => true
  }

  ghost predicate StaleGood(s: State, p: Phase) {
    match p
    case Begun(_, _) => false
    case Found(epoch, since, id) => Due(s, epoch, since, id)
    case Registered(n, id, lag) => Pending(s, id) || !Member(s.table.conns, id, n) || lag > REVOKED_KEEP
    case Refused => true
  }

  lemma {:induction false} QuietStepKeeps(s: State, step: Step, t: State)
    requires Next(s, step, t) && Good(s)
    requires step.Tick? || step.Begin? || step.Lookup? || step.AddUser? || step.ReadClock?
    ensures Good(t)
  {
    hide Inv, Member, Sound;
  }

  lemma {:induction false} DeleteKeeps(s: State, step: Step, t: State)
    requires Next(s, step, t) && Good(s) && step.Delete?
    ensures Good(t)
  {
    hide Inv, Member, Removed;
  }

  /** Nobody can look up a deleted credential, until it is added again. */
  lemma {:induction false} DeletedIsNotFound(s: State, credentials: seq<string>, t: State, c: string)
    requires Next(s, Delete(credentials), t)
    ensures c in t.users <==> c in s.users && c !in credentials
    ensures forall id :: id in t.admin.ids <==> exists x :: x in credentials && x in s.users && s.users[x] == id
  {
    forall id
      ensures id in Removed(s.users, credentials) <==> exists x :: x in credentials && x in s.users && s.users[x] == id
    {
      RemovedExactly(s.users, credentials, id);
    }
    hide Removed, Holding;
  }

  lemma {:induction false} RemovedExactly(users: map<string, int>, credentials: seq<string>, id: int)
    ensures id in Removed(users, credentials) <==> exists x :: x in credentials && x in users && users[x] == id
    decreases |credentials|
  {
    if credentials != [] {
      var c := credentials[0];
      RemovedExactly(users - {c}, credentials[1..], id);
      RemovedExactly(users, credentials[1..], id);
      assert credentials == [c] + credentials[1..];
    }
  }

  lemma {:induction false} OpenAdds(t: Table, id: int, epoch: nat)
    requires Inv(t, multiset{}) && Open(t, id, epoch).Some?
    ensures var u := Open(t, id, epoch).value;
            && Inv(u, multiset{}) && u.seqNo == t.seqNo && u.revoked == t.revoked
            && u.sessions == t.sessions + [Session(id, u.sessions[|t.sessions|].counter, true)]
            && (forall k, x :: Member(u.conns, k, x) <==> Member(t.conns, k, x) || (k == id && x == |t.sessions|))
  {
    OpenKeeps(t, id, epoch, multiset{});
    hide With;
  }

  /** What has happened to the other connections when one registers. */
  lemma {:induction false} RegisterKeepsPhase(s: State, t: State, id: int, p: Phase)
    requires t.admin == s.admin && t.time == s.time && t.table.seqNo == s.table.seqNo && t.table.revoked == s.table.revoked
    requires |s.table.sessions| < |t.table.sessions| && t.table.sessions[..|s.table.sessions|] == s.table.sessions
    requires forall k, x :: Member(t.table.conns, k, x) <==> Member(s.table.conns, k, x) || (k == id && x == |s.table.sessions|)
    ensures PhaseGood(s, p) ==> PhaseGood(t, p) && (StaleGood(s, p) ==> StaleGood(t, p))
  {
    hide Member;
  }

  /** What has happened to the one that registers. */
  lemma {:induction false} RegisterOwn(s: State, t: State, c: nat)
    requires Good(s) && Next(s, Register(c), t) && Open(s.table, s.conns[c].id, s.conns[c].epoch).Some?
    ensures PhaseGood(t, t.conns[c]) && (c in s.stale ==> StaleGood(t, t.conns[c]))
  {
    var p := s.conns[c];
    OpenAdds(s.table, p.id, p.epoch);
    assert c in s.stale ==> StaleGood(s, p) && !RevokedSince(s.table, p.id, p.epoch);
    assert t.table.sessions[|s.table.sessions|].key == p.id;
    hide Inv, Member, Open, Sound;
  }

  lemma {:induction false} RegisterKeeps(s: State, step: Step, t: State)
    requires Next(s, step, t) && Good(s) && step.Register?
    ensures Good(t)
  {
    var c := step.c;
    var p := s.conns[c];
    if Open(s.table, p.id, p.epoch).Some? {
      hide Inv, Member, Sound, PhaseGood, StaleGood;
      RegisterOwn(s, t, c);
      OpenAdds(s.table, p.id, p.epoch);
      hide Open;
      forall d | d in s.conns && d != c
        ensures PhaseGood(t, t.conns[d]) && (d in s.stale ==> StaleGood(t, t.conns[d]))
      {
        RegisterKeepsPhase(s, t, p.id, s.conns[d]);
      }
    } else {
      assert t == s.(conns := s.conns[c := Refused]);
      hide Inv, Member, Open, Sound;
    }
  }

  lemma {:induction false} CloseRemoves(t: Table, n: nat)
    requires Inv(t, multiset{}) && n < |t.sessions|
    ensures var u := Close(t, n);
            && Inv(u, multiset{}) && u.seqNo == t.seqNo && u.revoked == t.revoked && |u.sessions| == |t.sessions|
            && (forall x :: 0 <= x < |t.sessions| ==> u.sessions[x].key == t.sessions[x].key)
            && (forall k, x :: Member(u.conns, k, x) ==> Member(t.conns, k, x))
  {
    CloseKeeps(t, n, multiset{});
    hide Without;
  }

  lemma {:induction false} FinishKeeps(s: State, step: Step, t: State)
    requires Next(s, step, t) && Good(s) && step.Finish?
    ensures Good(t)
  {
    hide Inv, Member, Close, Sound, PhaseGood, StaleGood;
    CloseRemoves(s.table, s.conns[step.c].session);
    forall c | c in s.conns
      ensures PhaseGood(t, t.conns[c]) && (c in s.stale ==> StaleGood(t, t.conns[c]))
    {
      FinishKeepsPhase(s, t, s.conns[c]);
    }
  }

  lemma {:induction false} FinishKeepsPhase(s: State, t: State, p: Phase)
    requires t.admin == s.admin && t.time == s.time && t.table.seqNo == s.table.seqNo && t.table.revoked == s.table.revoked
    requires |t.table.sessions| == |s.table.sessions|
    requires forall x :: 0 <= x < |s.table.sessions| ==> t.table.sessions[x].key == s.table.sessions[x].key
    requires forall k, x :: Member(t.table.conns, k, x) ==> Member(s.table.conns, k, x)
    ensures PhaseGood(s, p) ==> PhaseGood(t, p) && (StaleGood(s, p) ==> StaleGood(t, p))
  {
    hide Member;
  }

  /** Revoking leaves a mark on every id, and pruning only takes marks that are too old to matter. */
  lemma {:induction false} RevokeLeaves(t: Table, ids: seq<int>, now: int, id: int, epoch: nat)
    requires epoch <= t.seqNo
    ensures var u := Prune(RevokeAll(t, ids, now), now);
            && u.seqNo >= t.seqNo && u.sessions == t.sessions
            && (forall x :: Member(u.conns, id, x) <==> Member(t.conns, id, x) && id !in ids)
            && (id in ids ==> RevokedSince(u, id, epoch) && u.revoked[id].at == now)
            && (id !in ids && RevokedSince(t, id, epoch) ==>
                  now - t.revoked[id].at > REVOKED_KEEP || (RevokedSince(u, id, epoch) && u.revoked[id] == t.revoked[id]))
  {
    RevokeAllMarks(t, ids, now, id);
    hide RevokeAll;
  }

  lemma {:induction false} RevokeKeepsPhase(s: State, t: State, p: Phase)
    requires s.admin.Clocked? && s.admin.ids != [] && s.admin.now <= s.time && PhaseGood(s, p)
    requires DatedBy(s.table, s.admin.now)
    requires t == s.(admin := Idle, table := Prune(RevokeAll(s.table, s.admin.ids, s.admin.now), s.admin.now))
    ensures PhaseGood(t, p) && (StaleGood(s, p) ==> StaleGood(t, p))
  {
    var epoch, id := if p.Found? then p.epoch else 0, if p.Found? || p.Registered? then p.id else 0;
    RevokeLeaves(s.table, s.admin.ids, s.admin.now, id, epoch);
    hide RevokeAll, Prune, Member;
  }

  lemma {:induction false} RevokeDates(t: Table, ids: seq<int>, now: int)
    requires DatedBy(t, now)
    ensures DatedBy(Prune(RevokeAll(t, ids, now), now), now)
    decreases |ids|
  {
    if ids != [] {
      RevokeDates(RevokeOne(t, ids[0], now), ids[1..], now);
    }
  }

  lemma {:induction false} RevokeKeepsGood(s: State, step: Step, t: State)
    requires Next(s, step, t) && Good(s) && step.Revoke?
    ensures Good(t)
  {
    var ids, now := s.admin.ids, s.admin.now;
    if ids != [] {
      RevokeAllKeeps(s.table, ids, now, multiset{});
      RevokeDates(s.table, ids, now);
      hide Inv, RevokeAll, Prune, Member, PhaseGood, StaleGood;
      forall c | c in s.conns
        ensures PhaseGood(t, t.conns[c]) && (c in s.stale ==> StaleGood(t, t.conns[c]))
      {
        RevokeKeepsPhase(s, t, s.conns[c]);
      }
    } else {
      hide Inv, RevokeAll, Prune, Member;
    }
  }

  lemma {:induction false} StepKeeps(s: State, step: Step, t: State)
    requires Next(s, step, t) && Good(s)
    ensures Good(t)
  {
    hide Next, Good;
    match step
    case Delete(_) => DeleteKeeps(s, step, t);
    case Register(_) => RegisterKeeps(s, step, t);
    case Finish(_) => FinishKeeps(s, step, t);
    case Revoke => RevokeKeepsGood(s, step, t);
    case _ => QuietStepKeeps(s, step, t);
  }

  ghost predicate Run(states: seq<State>, steps: seq<Step>) {
    && |states| == |steps| + 1 && states[0] == Start()
    && forall i :: 0 <= i < |steps| ==> Next(states[i], steps[i], states[i + 1])
  }

  lemma {:induction false} RunKeeps(states: seq<State>, steps: seq<Step>, n: nat)
    requires Run(states, steps) && n < |states|
    ensures Good(states[n])
  {
    if n == 0 {
      assert UserSessions.Registered(map[], []) == {};
      assert Good(Start());
    } else {
      assert Next(states[n - 1], steps[n - 1], states[n]);
      hide Next, Good;
      RunKeeps(states, steps, n - 1);
      StepKeeps(states[n - 1], steps[n - 1], states[n]);
    }
  }

  /**
   Once a deletion has finished, no connection that had looked the deleted user up is registered, and one
   that has yet to register will be refused, if it took no longer to register than markers are kept.
   */
  lemma {:induction false} NoneSlipsThrough(states: seq<State>, steps: seq<Step>, n: nat, c: nat)
    requires Run(states, steps) && n < |states| && states[n].admin.Idle? && c in states[n].stale
    ensures var s := states[n];
            && c in s.conns && Sound(s.table)
            && match s.conns[c]
               case Refused => true
               case Registered(session, id, lag) => lag <= 120 ==> !Member(s.table.conns, id, session)
               case Found(epoch, since, id) => s.time - since <= 120 ==> Open(s.table, id, epoch).None?
               case Begun(_, _) => false
  {
    RunKeeps(states, steps, n);
    hide Run;
    assert StaleGood(states[n], states[n].conns[c]);
  }

  // ------------------------------------------------------------------ finishing is for good

  lemma {:induction false} ClosedStays(s: State, step: Step, t: State, n: nat)
    requires Next(s, step, t) && Good(s) && n < |s.table.sessions| && !s.table.sessions[n].open
    ensures n < |t.table.sessions| && !t.table.sessions[n].open
  {
    hide PhaseGood, StaleGood, With, Without, Removed;
    if step.Revoke? {
      RevokeAllMarks(s.table, s.admin.ids, s.admin.now, 0);
    } else if step.Register? && Open(s.table, s.conns[step.c].id, s.conns[step.c].epoch).Some? {
      OpenAdds(s.table, s.conns[step.c].id, s.conns[step.c].epoch);
    }
    hide RevokeAll, Open;
  }

  lemma {:induction false} ClosedFrom(states: seq<State>, steps: seq<Step>, i: nat, j: nat, n: nat)
    requires Run(states, steps) && i <= j <= |steps| && n < |states[i].table.sessions| && !states[i].table.sessions[n].open
    ensures n < |states[j].table.sessions| && !states[j].table.sessions[n].open
    decreases j - i
  {
    hide Next, Good;
    if i < j {
      ClosedFrom(states, steps, i, j - 1, n);
      RunKeeps(states, steps, j - 1);
      assert Next(states[j - 1], steps[j - 1], states[j - 1 + 1]);
      ClosedStays(states[j - 1], steps[j - 1], states[j], n);
    }
  }

  /** In every run, once a connection has finished, its session is never registered again, for anyone. */
  lemma {:induction false} FinishedForGood(states: seq<State>, steps: seq<Step>, i: nat, j: nat, c: nat, id: int)
    requires Run(states, steps) && i < j <= |steps| && steps[i] == Finish(c)
    ensures c in states[i].conns && states[i].conns[c].Registered?
    ensures !Member(states[j].table.conns, id, states[i].conns[c].session)
  {
    var s := states[i];
    assert Next(s, steps[i], states[i + 1]);
    RunKeeps(states, steps, i);
    var n := s.conns[c].session;
    CloseExactly(s.table, n, 0, 0);
    hide Next;
    ClosedFrom(states, steps, i + 1, j, n);
    RunKeeps(states, steps, j);
    hide Run;
    assert Listed(states[j].table.conns, states[j].table.sessions);
  }

  // ------------------------------------------------------------------ exactly who is refused

  /** The step revokes the user. */
  predicate Marks(s: State, step: Step, id: int) { step.Revoke? && s.admin.Clocked? && id in s.admin.ids }

  /** The step revokes others, leaves too many markers behind, and this user's is older than markers are kept. */
  predicate Prunes(s: State, step: Step, id: int) {
    && step.Revoke? && s.admin.Clocked? && s.admin.ids != [] && id !in s.admin.ids
    && id in s.table.revoked && s.admin.now - s.table.revoked[id].at > 120
    && |RevokeAll(s.table, s.admin.ids, s.admin.now).revoked| > 1024
  }

  /** No marker has a number that has not been given yet. */
  ghost predicate Numbered(t: Table) { forall id :: id in t.revoked ==> t.revoked[id].seqNo <= t.seqNo }

  lemma {:induction false} RevokeNumbers(t: Table, ids: seq<int>, now: int)
    requires Numbered(t)
    ensures Numbered(Prune(RevokeAll(t, ids, now), now))
    decreases |ids|
  {
    if ids != [] {
      RevokeNumbers(RevokeOne(t, ids[0], now), ids[1..], now);
    }
  }

  lemma {:induction false} NumberedNext(s: State, step: Step, t: State)
    requires Next(s, step, t) && Numbered(s.table)
    ensures Numbered(t.table)
  {
    hide RevokeAll, Prune, Removed;
    if step.Revoke? {
      RevokeNumbers(s.table, s.admin.ids, s.admin.now);
    }
  }

  lemma {:induction false} MarkerNext(s: State, step: Step, t: State, id: int, epoch: nat)
    requires Next(s, step, t) && epoch <= s.table.seqNo
    ensures t.table.seqNo >= s.table.seqNo
    ensures RevokedSince(t.table, id, epoch) <==>
            Marks(s, step, id) || (RevokedSince(s.table, id, epoch) && !Prunes(s, step, id))
  {
    if step.Revoke? {
      MarkerRevoke(s, t, id, epoch);
    } else {
      assert t.table.revoked == s.table.revoked && t.table.seqNo == s.table.seqNo by {
        hide Prunes, RevokeAll, Removed, With, Without, Marks;
      }
      hide Next;
    }
  }

  lemma {:induction false} MarkerRevoke(s: State, t: State, id: int, epoch: nat)
    requires Next(s, Revoke, t) && epoch <= s.table.seqNo
    ensures t.table.seqNo >= s.table.seqNo
    ensures RevokedSince(t.table, id, epoch) <==>
            Marks(s, Revoke, id) || (RevokedSince(s.table, id, epoch) && !Prunes(s, Revoke, id))
  {
    hide RevokeAll;
    RevokeAllMarks(s.table, s.admin.ids, s.admin.now, id);
  }

  ghost predicate Unpruned(states: seq<State>, steps: seq<Step>, i: int, n: int, id: int)
    requires 0 <= i <= n <= |steps| < |states|
  {
    forall j :: i < j < n ==> !Prunes(states[j], steps[j], id)
  }

  /** A revocation of the user since then whose marker has not been pruned. */
  ghost predicate Marked(states: seq<State>, steps: seq<Step>, b: nat, n: nat, id: int)
    requires b <= n <= |steps| < |states|
  {
    exists i :: b <= i < n && Marks(states[i], steps[i], id) && Unpruned(states, steps, i, n, id)
  }

  lemma {:induction false} MarkedNext(states: seq<State>, steps: seq<Step>, b: nat, n: nat, id: int)
    requires b <= n < |steps| < |states|
    ensures Marked(states, steps, b, n + 1, id) <==>
            Marks(states[n], steps[n], id) || (Marked(states, steps, b, n, id) && !Prunes(states[n], steps[n], id))
  {
    hide Marks, Prunes;
    if Marked(states, steps, b, n + 1, id) {
      var i :| b <= i < n + 1 && Marks(states[i], steps[i], id) && Unpruned(states, steps, i, n + 1, id);
      if i < n {
        assert Unpruned(states, steps, i, n, id) && !Prunes(states[n], steps[n], id);
      }
    }
    if Marks(states[n], steps[n], id) {
      assert Unpruned(states, steps, n, n + 1, id);
    } else if Marked(states, steps, b, n, id) && !Prunes(states[n], steps[n], id) {
      var i :| b <= i < n && Marks(states[i], steps[i], id) && Unpruned(states, steps, i, n, id);
      assert Unpruned(states, steps, i, n + 1, id);
    }
  }

  lemma {:induction false} NoneMarked(states: seq<State>, steps: seq<Step>, b: nat, id: int)
    requires b <= |steps| < |states| && Numbered(states[b].table)
    ensures !RevokedSince(states[b].table, id, states[b].table.seqNo) && !Marked(states, steps, b, b, id)
  {
  }

  lemma {:induction false} RevokedIsMarked(states: seq<State>, steps: seq<Step>, b: nat, n: nat, id: int)
    requires Run(states, steps) && b <= n <= |steps| && Numbered(states[b].table)
    ensures states[n].table.seqNo >= states[b].table.seqNo
    ensures RevokedSince(states[n].table, id, states[b].table.seqNo) <==> Marked(states, steps, b, n, id)
    decreases n - b
  {
    hide Marks, Prunes, Unpruned, Next, Marked, RevokedSince, Numbered;
    if n == b {
      NoneMarked(states, steps, b, id);
    } else {
      RevokedIsMarked(states, steps, b, n - 1, id);
      assert Next(states[n - 1], steps[n - 1], states[n - 1 + 1]);
      MarkerNext(states[n - 1], steps[n - 1], states[n], id, states[b].table.seqNo);
      MarkedNext(states, steps, b, n - 1, id);
    }
  }

  lemma {:induction false} AllNumbered(states: seq<State>, steps: seq<Step>, n: nat)
    requires Run(states, steps) && n <= |steps|
    ensures Numbered(states[n].table)
  {
    if n > 0 {
      AllNumbered(states, steps, n - 1);
      assert Next(states[n - 1], steps[n - 1], states[n - 1 + 1]);
      hide Next, Numbered;
      NumberedNext(states[n - 1], steps[n - 1], states[n]);
    }
  }

  /** The epoch a connection has is the one it read when it began. */
  lemma {:induction false} EpochKept(states: seq<State>, steps: seq<Step>, b: nat, n: nat, c: nat)
    requires Run(states, steps) && b < n <= |steps| && steps[b] == Begin(c)
    ensures c in states[n].conns
    ensures states[n].conns[c].Begun? || states[n].conns[c].Found? ==> states[n].conns[c].epoch == states[b].table.seqNo
    decreases n
  {
    assert Next(states[n - 1], steps[n - 1], states[n - 1 + 1]);
    if n - 1 > b {
      EpochKept(states, steps, b, n - 1, c);
    }
    hide Run, Removed, Sound, Open, Close, RevokeAll, Prune;
  }

  /**
   In every run: a connection about to register is refused if and only if its user was revoked after it began and no
   later revocation of others found more than 1024 markers and that one older than 120 seconds.
   */
  lemma {:induction false} RefusedExactly(states: seq<State>, steps: seq<Step>, b: nat, n: nat, c: nat)
    requires Run(states, steps) && b < n <= |steps| && steps[b] == Begin(c)
    requires c in states[n].conns && states[n].conns[c].Found?
    ensures var s, p := states[n], states[n].conns[c];
            Sound(s.table) && (Open(s.table, p.id, p.epoch).None? <==> Marked(states, steps, b, n, p.id))
  {
    RunKeeps(states, steps, n);
    EpochKept(states, steps, b, n, c);
    AllNumbered(states, steps, b);
    RevokedIsMarked(states, steps, b, n, states[n].conns[c].id);
    hide Run, Marked, RevokedSince;
  }

  // ------------------------------------------------------------------ beyond the keeping time

  /** Some run ends here. */
  ghost predicate Reachable(s: State) {
    exists states, steps :: Run(states, steps) && s == states[|steps|]
  }

  lemma {:induction false} ReachMore(s: State, step: Step, t: State)
    requires Reachable(s) && Next(s, step, t)
    ensures Reachable(t)
  {
    hide Next;
    var states, steps :| Run(states, steps) && s == states[|steps|];
    var ss, ts := states + [t], steps + [step];
    forall i | 0 <= i < |ts|
      ensures Next(ss[i], ts[i], ss[i + 1])
    {
      if i < |steps| {
        assert Next(states[i], steps[i], states[i + 1]);
      }
    }
    assert Run(ss, ts);
  }

  lemma {:induction false} ReachesStart()
    ensures Reachable(Start())
  {
    assert Run([Start()], []);
  }

  /** As many different credentials as are asked for. */
  function Name(i: nat): string { seq(i, _ => 'x') }

  function Names(n: nat): seq<string> { if n == 0 then [] else [Name(n)] + Names(n - 1) }

  ghost predicate Named(users: map<string, int>, n: nat) {
    forall i: nat :: 1 <= i <= n ==> Name(i) in users && users[Name(i)] == i
  }

  lemma {:induction false} RemovedNames(users: map<string, int>, n: nat)
    requires Named(users, n)
    ensures forall i: int :: i in Removed(users, Names(n)) <==> 1 <= i <= n
  {
    if n > 0 {
      var rest := users - {Name(n)};
      forall i: nat | 1 <= i <= n - 1
        ensures Name(i) in rest && rest[Name(i)] == i
      {
        assert |Name(i)| < |Name(n)|;
      }
      RemovedNames(rest, n - 1);
      assert Removed(users, Names(n)) == [n] + Removed(rest, Names(n - 1));
    }
  }

  lemma {:induction false} UsersAdded(s: State, n: nat) returns (t: State)
    requires Reachable(s)
    ensures Reachable(t) && Named(t.users, n) && t == s.(users := t.users)
  {
    if n == 0 {
      return s;
    }
    hide Reachable;
    var u := UsersAdded(s, n - 1);
    t := u.(users := u.users[Name(n) := n]);
    ReachMore(u, AddUser(Name(n), n), t);
    forall i: nat | 1 <= i < n
      ensures Name(i) in t.users && t.users[Name(i)] == i
    {
      assert |Name(i)| < |Name(n)|;
    }
  }

  lemma {:induction false} ManyMarkers(revoked: map<int, Revocation>, n: nat)
    requires forall i :: 0 <= i <= n ==> i in revoked
    ensures |revoked| > n
  {
    if n == 0 {
      assert |revoked.Keys| == |revoked.Keys - {0}| + 1;
    } else {
      var rest := revoked - {n};
      ManyMarkers(rest, n - 1);
      assert rest.Keys == revoked.Keys - {n} && |rest.Keys| == |rest| && |revoked.Keys| == |revoked|;
    }
  }

  /** A connection has looked its user up; the user is deleted and revoked; a keeping time passes. */
  lemma {:induction false} OneIsStale() returns (s: State)
    ensures Reachable(s) && s.conns == map[0 := Found(0, 0, 0)] && s.stale == {0} && s.admin.Idle? && s.time == REVOKED_KEEP + 1
    ensures s.table == Empty().(seqNo := 1, revoked := map[0 := Revocation(1, 0)])
  {
    hide Reachable;
    ReachesStart();
    var s1 := Start().(conns := map[0 := Begun(0, 0)]);
    ReachMore(Start(), Begin(0), s1);
    var s2 := s1.(users := map["" := 0]);
    ReachMore(s1, AddUser("", 0), s2);
    var s3 := s2.(conns := map[0 := Found(0, 0, 0)]);
    ReachMore(s2, Lookup(0, ""), s3);
    hide Next;
    s := StaleRevoked(s3);
  }

  lemma {:induction false} StaleRevoked(s: State) returns (t: State)
    requires Reachable(s) && s == Start().(users := map["" := 0], conns := map[0 := Found(0, 0, 0)])
    ensures Reachable(t) && t.conns == map[0 := Found(0, 0, 0)] && t.stale == {0} && t.admin.Idle? && t.time == REVOKED_KEEP + 1
    ensures t.table == Empty().(seqNo := 1, revoked := map[0 := Revocation(1, 0)])
  {
    hide Reachable;
    var s4 := s.(users := map[], admin := Deleted([0]), stale := {0});
    DeletesOne(s, s4);
    ReachMore(s, Delete([""]), s4);
    var s5 := s4.(admin := Clocked([0], 0));
    ReachMore(s4, ReadClock, s5);
    var s6 := s5.(admin := Idle, table := Empty().(seqNo := 1, revoked := map[0 := Revocation(1, 0)]));
    RevokesOne(s5, s6);
    ReachMore(s5, Revoke, s6);
    t := s6.(time := REVOKED_KEEP + 1);
    ReachMore(s6, Tick(REVOKED_KEEP + 1), t);
  }

  lemma {:induction false} DeletesOne(s: State, t: State)
    requires s.users == map["" := 0] && s.admin.Idle? && s.conns == map[0 := Found(0, 0, 0)] && s.stale == {}
    requires t == s.(users := map[], admin := Deleted([0]), stale := {0})
    ensures Next(s, Delete([""]), t)
  {
    assert [""][1..] == [] && [""][0] == "";
    assert Removed(s.users, [""]) == [0] + Removed(s.users - {""}, []) == [0];
    assert Holding(s.conns, [0]) == {0};
    assert s.users - (set x | x in [""]) == map[];
  }

  lemma {:induction false} RevokesOne(s: State, t: State)
    requires s.admin == Clocked([0], 0) && s.table == Empty()
    requires t == s.(admin := Idle, table := Empty().(seqNo := 1, revoked := map[0 := Revocation(1, 0)]))
    ensures Next(s, Revoke, t)
  {
    assert [0][1..] == [];
    assert RevokeAll(s.table, [0], 0) == RevokeOne(s.table, 0, 0);
    assert s.table.conns - {0} == map[];
    assert |t.table.revoked| == 1;
  }

  /** Revoking a thousand others then forgets the old marker. */
  lemma {:induction false} MarkerForgotten(t: Table, ids: seq<int>, now: int)
    requires 0 in t.revoked && now - t.revoked[0].at > REVOKED_KEEP && forall i: int :: i in ids <==> 1 <= i <= MARKERS
    ensures 0 !in Prune(RevokeAll(t, ids, now), now).revoked
  {
    var u := RevokeAll(t, ids, now);
    forall i | 0 <= i <= MARKERS
      ensures i in u.revoked && (i == 0 ==> u.revoked[i] == t.revoked[0])
    {
      RevokeAllMarks(t, ids, now, i);
    }
    ManyMarkers(u.revoked, MARKERS);
    hide RevokeAll;
  }

  /**
   The condition is needed: a connection slower than the keeping time is registered after its user was deleted, once
   so many others have been revoked that old markers are pruned.
   */
  lemma {:induction false} SlipsThroughLate() returns (s: State, session: nat)
    ensures Reachable(s) && s.admin.Idle? && 0 in s.stale && 0 in s.conns
    ensures s.conns[0] == Registered(session, 0, REVOKED_KEEP + 1) && Member(s.table.conns, 0, session)
  {
    hide Reachable, Next, RevokeAll, Prune, Open, Member, Names, Removed, Inv;
    var s0 := OneIsStale();
    s0 := UsersAdded(s0, MARKERS);
    RemovedNames(s0.users, MARKERS);
    var s1, s2, s3 := OthersRevoked(s0, Removed(s0.users, Names(MARKERS)));
    ReachMore(s0, Delete(Names(MARKERS)), s1);
    ReachMore(s1, ReadClock, s2);
    ReachMore(s2, Revoke, s3);
    ReachableIsGood(s3);
    s, session := LateRegisters(s3);
    ReachMore(s3, Register(0), s);
  }

  lemma {:induction false} ReachableIsGood(s: State)
    requires Reachable(s)
    ensures Good(s)
  {
    hide Good, Next;
    var states, steps :| Run(states, steps) && s == states[|steps|];
    RunKeeps(states, steps, |steps|);
  }

  lemma {:induction false} OthersRevoked(s0: State, ids: seq<int>) returns (s1: State, s2: State, s3: State)
    requires s0.conns == map[0 := Found(0, 0, 0)] && s0.stale == {0} && s0.admin.Idle? && s0.time == REVOKED_KEEP + 1
    requires 0 in s0.table.revoked && s0.table.revoked[0].at == 0
    requires ids == Removed(s0.users, Names(MARKERS)) && forall i: int :: i in ids <==> 1 <= i <= MARKERS
    ensures Next(s0, Delete(Names(MARKERS)), s1) && Next(s1, ReadClock, s2) && Next(s2, Revoke, s3)
    ensures s3.admin.Idle? && 0 !in s3.table.revoked && (s3.conns, s3.stale, s3.time) == (s0.conns, s0.stale, s0.time)
  {
    hide RevokeAll, Prune, Names, Removed;
    assert Holding(s0.conns, ids) == {} by {
      assert 0 !in ids;
    }
    s1 := s0.(users := s0.users - (set x | x in Names(MARKERS)), admin := Deleted(ids));
    s2 := s1.(admin := Clocked(ids, s1.time));
    assert 1 in ids;
    s3 := s2.(admin := Idle, table := Prune(RevokeAll(s2.table, ids, s2.time), s2.time));
    MarkerForgotten(s2.table, ids, s2.time);
  }

  lemma {:induction false} LateRegisters(s: State) returns (t: State, session: nat)
    requires Good(s) && s.conns == map[0 := Found(0, 0, 0)] && s.stale == {0} && s.admin.Idle?
    requires 0 !in s.table.revoked && s.time == REVOKED_KEEP + 1
    ensures Next(s, Register(0), t)
    ensures t.admin.Idle? && t.stale == {0} && t.conns == map[0 := Registered(session, 0, REVOKED_KEEP + 1)]
    ensures Member(t.table.conns, 0, session)
  {
    hide Inv, Member, PhaseGood, StaleGood;
    session := |s.table.sessions|;
    assert Sound(s.table) && Open(s.table, 0, 0).Some? by {
      InvGives(s.table, multiset{});
    }
    OpenAdds(s.table, 0, 0);
    hide Open, Sound;
    t := s.(table := Open(s.table, 0, 0).value, conns := map[0 := Registered(session, 0, REVOKED_KEEP + 1)]);
  }

  /** A stale connection that did register is closed by the revocation: it is among the victims. */
  lemma {:induction false} RegisteredAreVictims(states: seq<State>, steps: seq<Step>, n: nat, c: nat)
    requires Run(states, steps) && n < |steps| && steps[n].Revoke? && c in states[n].stale
    ensures var s := states[n];
            && s.admin.Clocked? && c in s.conns
            && (s.conns[c].Registered? && s.conns[c].lag <= REVOKED_KEEP && Member(s.table.conns, s.conns[c].id, s.conns[c].session) ==>
                  s.conns[c].session in Victims(s.table.conns, s.admin.ids))
  {
    RunKeeps(states, steps, n);
    assert Next(states[n], steps[n], states[n + 1]);
    var s := states[n];
    assert StaleGood(s, s.conns[c]);
    if s.conns[c].Registered? {
      VictimsAreTheirs(s.table.conns, s.admin.ids, s.conns[c].session);
    }
  }

  /** The number of live connections is the number registered, whatever was revoked, closed or both. */
  lemma {:induction false} LiveIsRegistered(states: seq<State>, steps: seq<Step>, n: nat)
    requires Run(states, steps) && n < |states|
    ensures states[n].table.live == |UserSessions.Registered(states[n].table.conns, states[n].table.sessions)|
  {
    RunKeeps(states, steps, n);
  }
}
