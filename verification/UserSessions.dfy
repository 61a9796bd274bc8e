/**
 The per-user table of authenticated connections and traffic counters of one adapter: registration guarded
 by an epoch, revocation that closes every connection of a user, and counters kept while anyone holds them.
 */
module UserSessions {
  import opened Wire

  /** Markers are pruned above this many, once older than this many seconds. */
  const MARKERS := 1024
  const REVOKED_KEEP := 120

  datatype Revocation = Revocation(seqNo: nat, at: int)

  datatype Counter = Counter(user: int, up: nat, down: nat, refs: int)

  /** A registered connection; `open` until its owner has called close. */
  datatype Session = Session(key: int, counter: nat, open: bool)

  /** Sessions and counters are named by their index in the order of creation. */
  datatype Table = Table(
    seqNo: nat,
    conns: map<int, set<int>>,
    traffic: map<int, nat>,
    revoked: map<int, Revocation>,
    live: int,
    sessions: seq<Session>,
    counters: seq<Counter>)

  function Empty(): Table { Table(0, map[], map[], map[], 0, [], []) }

  datatype Traffic = Traffic(id: int, up: nat, down: nat)

  // ------------------------------------------------------------------ operations as functions of the table

  /** The user's counter, made if there is none. */
  function CounterOf(t: Table, id: int): (Table, nat) {
    if id in t.traffic then (t, t.traffic[id])
    else (t.(traffic := t.traffic[id := |t.counters|], counters := t.counters + [Counter(id, 0, 0, 0)]), |t.counters|)
  }

  function Refs(t: Table, c: nat, n: int): Table
    requires c < |t.counters|
  {
    t.(counters := t.counters[c := t.counters[c].(refs := t.counters[c].refs + n)])
  }

  predicate RevokedSince(t: Table, id: int, epoch: nat) { id in t.revoked && t.revoked[id].seqNo > epoch }

  function ConnsOf(conns: map<int, set<int>>, id: int): set<int> { if id in conns then conns[id] else {} }

  /** Registers a connection, unless its user was revoked after the epoch. */
  function Open(t: Table, id: int, epoch: nat): Option<Table>
    requires Sound(t)
  {
    if RevokedSince(t, id, epoch) then None
    else
      var (u, c) := CounterOf(t, id);
      Some(Enlist(Refs(u, c, 1), id, c))
  }

  function Enlist(t: Table, id: int, c: nat): Table {
    t.(sessions := t.sessions + [Session(id, c, true)], live := t.live + 1,
       conns := With(t.conns, id, |t.sessions|))
  }

  /** The connection is registered for the user. */
  predicate Member(conns: map<int, set<int>>, id: int, s: int) { s in ConnsOf(conns, id) }

  function With(conns: map<int, set<int>>, id: int, s: nat): (r: map<int, set<int>>)
    ensures forall k, x :: Member(r, k, x) <==> Member(conns, k, x) || (k == id && x == s)
  {
    conns[id := ConnsOf(conns, id) + {s}]
  }

  /** A user with no connection left is forgotten. */
  function Without(conns: map<int, set<int>>, id: int, s: nat): (r: map<int, set<int>>)
    ensures forall k, x :: Member(r, k, x) <==> Member(conns, k, x) && (k != id || x != s)
  {
    var left := ConnsOf(conns, id) - {s};
    if s !in ConnsOf(conns, id) then conns else if left == {} then conns - {id} else conns[id := left]
  }

  /** Unregisters a connection; the second and later calls do nothing. */
  function Close(t: Table, s: nat): Table
    requires Sound(t) && s < |t.sessions|
  {
    var it := t.sessions[s];
    if !it.open then t
    else
      Refs(Unlist(t, s), it.counter, -1).(sessions := t.sessions[s := it.(open := false)])
  }

  function Unlist(t: Table, s: nat): Table
    requires s < |t.sessions|
  {
    var id := t.sessions[s].key;
    if s !in ConnsOf(t.conns, id) then t else t.(live := t.live - 1, conns := Without(t.conns, id, s))
  }

  function Retain(t: Table, id: int): (Table, nat)
    requires Sound(t)
  {
    var (u, c) := CounterOf(t, id);
    (Refs(u, c, 1), c)
  }

  /** Counts traffic on a counter someone has got hold of. */
  function Count(t: Table, c: nat, up: nat, down: nat): Table
    requires c < |t.counters|
  {
    var it := t.counters[c];
    t.(counters := t.counters[c := it.(up := it.up + up, down := it.down + down)])
  }

  /** Marks one user revoked and forgets their connections. */
  function RevokeOne(t: Table, id: int, now: int): Table {
    t.(seqNo := t.seqNo + 1, revoked := t.revoked[id := Revocation(t.seqNo + 1, now)],
       live := t.live - |ConnsOf(t.conns, id)|, conns := t.conns - {id})
  }

  function RevokeAll(t: Table, ids: seq<int>, now: int): Table
    decreases |ids|
  {
    if ids == [] then t else RevokeAll(RevokeOne(t, ids[0], now), ids[1..], now)
  }

  /** The connections registered for these users. */
  function Victims(conns: map<int, set<int>>, ids: seq<int>): set<int>
    decreases |ids|
  {
    if ids == [] then {} else ConnsOf(conns, ids[0]) + Victims(conns - {ids[0]}, ids[1..])
  }

  /** Drops old markers once there are many. */
  function Prune(t: Table, now: int): Table {
    if |t.revoked| <= MARKERS then t
    else t.(revoked := map id | id in t.revoked && now - t.revoked[id].at <= REVOKED_KEEP :: t.revoked[id])
  }

  /** Takes one user's counts, and the counter itself if nobody holds it. */
  function Take(t: Table, id: int): Table
    requires Sound(t) && id in t.traffic
  {
    var c := t.traffic[id];
    var u := t.(counters := t.counters[c := t.counters[c].(up := 0, down := 0)]);
    if t.counters[c].refs == 0 then u.(traffic := u.traffic - {id}) else u
  }

  // ------------------------------------------------------------------ what every operation keeps

  ghost predicate Tracked(traffic: map<int, nat>, counters: seq<Counter>) {
    forall id :: id in traffic ==> traffic[id] < |counters| && counters[traffic[id]].user == id
  }

  ghost predicate Owned(sessions: seq<Session>, counters: seq<Counter>) {
    forall s :: 0 <= s < |sessions| ==> sessions[s].counter < |counters| && counters[sessions[s].counter].user == sessions[s].key
  }

  ghost predicate Listed(conns: map<int, set<int>>, sessions: seq<Session>) {
    forall id, s :: Member(conns, id, s) ==> 0 <= s < |sessions| && sessions[s].key == id && sessions[s].open
  }

  ghost predicate Sound(t: Table) {
    Tracked(t.traffic, t.counters) && Owned(t.sessions, t.counters) && Listed(t.conns, t.sessions)
  }

  /** All registered connections. */
  ghost function Registered(conns: map<int, set<int>>, sessions: seq<Session>): set<int> {
    set s | 0 <= s < |sessions| && IsRegistered(conns, sessions, s)
  }

  predicate IsRegistered(conns: map<int, set<int>>, sessions: seq<Session>, s: int)
    requires 0 <= s < |sessions|
  {
    Member(conns, sessions[s].key, s)
  }

  /** The unclosed connections that count on a counter. */
  ghost function Holders(sessions: seq<Session>, c: nat): set<int> {
    set s | 0 <= s < |sessions| && sessions[s].open && sessions[s].counter == c
  }

  /** Each counter's reference count is its holders: connections, and the outstanding retains. */
  ghost predicate Referenced(counters: seq<Counter>, sessions: seq<Session>, retained: multiset<int>) {
    && (forall c :: 0 <= c < |counters| ==> counters[c].refs == |Holders(sessions, c)| + retained[c])
    && (forall c :: c in retained ==> 0 <= c < |counters|)
  }

  /** A counter that someone holds is the one the next snapshot will find. */
  ghost predicate Findable(traffic: map<int, nat>, counters: seq<Counter>) {
    forall c :: 0 <= c < |counters| && counters[c].refs > 0 ==> counters[c].user in traffic && traffic[counters[c].user] == c
  }

  ghost predicate Inv(t: Table, retained: multiset<int>) {
    && Sound(t) && t.live == |Registered(t.conns, t.sessions)|
    && Referenced(t.counters, t.sessions, retained)
    && Findable(t.traffic, t.counters)
  }

  // The counters' users never change.

  predicate SameUsers(a: seq<Counter>, b: seq<Counter>) {
    |a| <= |b| && forall c :: 0 <= c < |a| ==> a[c].user == b[c].user
  }

  lemma {:induction false} UsersSuffice(traffic: map<int, nat>, sessions: seq<Session>, a: seq<Counter>, b: seq<Counter>)
    requires SameUsers(a, b) && Tracked(traffic, a) && Owned(sessions, a)
    ensures Tracked(traffic, b) && Owned(sessions, b)
  {
  }

  lemma {:induction false} CounterOfKeeps(t: Table, id: int, retained: multiset<int>)
    requires Inv(t, retained)
    ensures var (u, c) := CounterOf(t, id);
            Inv(u, retained) && id in u.traffic && u.traffic[id] == c && c < |u.counters| && u.counters[c].user == id
  {
    var (u, c) := CounterOf(t, id);
    if id !in t.traffic {
      UsersSuffice(t.traffic, t.sessions, t.counters, u.counters);
      assert Holders(t.sessions, c) == {};
      hide Owned, Listed, Registered, Holders;
      assert forall d :: 0 <= d < |t.counters| ==> u.counters[d] == t.counters[d];
    }
  }

  lemma {:induction false} RetainKeeps(t: Table, id: int, retained: multiset<int>)
    requires Inv(t, retained)
    ensures var (u, c) := Retain(t, id);
            Inv(u, retained + multiset{c}) && id in u.traffic && u.traffic[id] == c && c < |u.counters| && u.counters[c].user == id
  {
    CounterOfKeeps(t, id, retained);
    var (v, c) := CounterOf(t, id);
    hide CounterOf;
    var u := Refs(v, c, 1);
    UsersSuffice(v.traffic, v.sessions, v.counters, u.counters);
    hide Owned, Listed, Registered, Holders, Tracked;
  }

  lemma {:induction false} ReleaseKeeps(t: Table, c: nat, retained: multiset<int>)
    requires Inv(t, retained) && c in retained
    ensures c < |t.counters| && Inv(Refs(t, c, -1), retained - multiset{c})
  {
    var u := Refs(t, c, -1);
    UsersSuffice(t.traffic, t.sessions, t.counters, u.counters);
    hide Owned, Listed, Registered, Holders, Tracked;
  }

  /** A new registered connection turns one retain into a holder. */
  lemma {:induction false} EnlistListed(conns: map<int, set<int>>, sessions: seq<Session>, id: int, c: nat)
    requires Listed(conns, sessions)
    ensures Listed(With(conns, id, |sessions|), sessions + [Session(id, c, true)])
  {
    hide Member, With;
  }

  lemma {:induction false} EnlistRegistered(conns: map<int, set<int>>, sessions: seq<Session>, id: int, c: nat)
    ensures |Registered(With(conns, id, |sessions|), sessions + [Session(id, c, true)])| == |Registered(conns, sessions)| + 1
  {
    var n, conns', sessions' := |sessions|, With(conns, id, |sessions|), sessions + [Session(id, c, true)];
    hide Member, With;
    forall x | 0 <= x < n
      ensures IsRegistered(conns', sessions', x) <==> IsRegistered(conns, sessions, x)
    {
    }
    assert sessions'[n] == Session(id, c, true) && IsRegistered(conns', sessions', n);
    hide IsRegistered;
    assert Registered(conns', sessions') == Registered(conns, sessions) + {n};
  }

  lemma {:induction false} EnlistHolders(sessions: seq<Session>, id: int, c: nat, d: nat)
    ensures |Holders(sessions + [Session(id, c, true)], d)| == |Holders(sessions, d)| + if d == c then 1 else 0
  {
    var n, sessions' := |sessions|, sessions + [Session(id, c, true)];
    assert forall s :: 0 <= s < n ==> sessions'[s] == sessions[s];
    assert sessions'[n] == Session(id, c, true);
    assert Holders(sessions', d) == if d == c then Holders(sessions, d) + {n} else Holders(sessions, d);
  }

  lemma {:induction false} OpenKeeps(t: Table, id: int, epoch: nat, retained: multiset<int>)
    requires Inv(t, retained) && Open(t, id, epoch).Some?
    ensures Inv(Open(t, id, epoch).value, retained)
  {
    hide Listed, Registered, Holders, Tracked, ConnsOf, Member, With, CounterOf, Refs;
    RetainKeeps(t, id, retained);
    var (v, c) := Retain(t, id);
    var u := Enlist(v, id, c);
    EnlistListed(v.conns, v.sessions, id, c);
    EnlistRegistered(v.conns, v.sessions, id, c);
    assert Open(t, id, epoch) == Some(u);
    assert Owned(u.sessions, u.counters);
    forall d: nat | d < |v.counters|
      ensures u.counters[d].refs == |Holders(u.sessions, d)| + retained[d]
    {
      EnlistHolders(v.sessions, id, c, d);
    }
    assert forall d :: d in retained ==> d in retained + multiset{c};
    assert Referenced(u.counters, u.sessions, retained);
  }

  lemma {:induction false} UnlistListed(conns: map<int, set<int>>, sessions: seq<Session>, s: nat)
    requires Listed(conns, sessions) && s < |sessions|
    ensures Listed(Without(conns, sessions[s].key, s), sessions[s := sessions[s].(open := false)])
  {
    hide Member, Without;
  }

  lemma SetLess(a: set<int>, x: int)
    ensures |a - {x}| == |a| - if x in a then 1 else 0
  {
  }

  lemma {:induction false} UnlistRegistered(conns: map<int, set<int>>, sessions: seq<Session>, s: nat)
    requires s < |sessions|
    ensures var id, conns', sessions' := sessions[s].key, Without(conns, sessions[s].key, s), sessions[s := sessions[s].(open := false)];
            |Registered(conns', sessions')| == |Registered(conns, sessions)| - if Member(conns, id, s) then 1 else 0
  {
    var id, conns', sessions' := sessions[s].key, Without(conns, sessions[s].key, s), sessions[s := sessions[s].(open := false)];
    hide Member, Without;
    forall x | 0 <= x < |sessions|
      ensures IsRegistered(conns', sessions', x) <==> IsRegistered(conns, sessions, x) && x != s
    {
    }
    assert IsRegistered(conns, sessions, s) <==> Member(conns, id, s);
    hide IsRegistered;
    assert Registered(conns', sessions') == Registered(conns, sessions) - {s};
    SetLess(Registered(conns, sessions), s);
  }

  lemma {:induction false} UnlistHolders(sessions: seq<Session>, s: nat, d: nat)
    requires s < |sessions| && sessions[s].open
    ensures |Holders(sessions[s := sessions[s].(open := false)], d)| == |Holders(sessions, d)| - if d == sessions[s].counter then 1 else 0
  {
    var sessions' := sessions[s := sessions[s].(open := false)];
    assert Holders(sessions', d) == if d == sessions[s].counter then Holders(sessions, d) - {s} else Holders(sessions, d);
  }

  lemma {:induction false} CloseKeeps(t: Table, s: nat, retained: multiset<int>)
    requires Inv(t, retained) && s < |t.sessions|
    ensures Inv(Close(t, s), retained)
  {
    if t.sessions[s].open {
      UnlistListed(t.conns, t.sessions, s);
      UnlistRegistered(t.conns, t.sessions, s);
      var u := Close(t, s);
      UsersSuffice(t.traffic, u.sessions, t.counters, u.counters);
      forall d: nat | d < |t.counters|
        ensures u.counters[d].refs == |Holders(u.sessions, d)| + retained[d]
      {
        UnlistHolders(t.sessions, s, d);
      }
      hide Listed, Registered, Holders, Tracked, Owned;
    }
  }

  /**
   Closing takes exactly this connection off the table, whatever else is registered, gives back exactly one reference
   of its counter, and does so once.
   */
  lemma {:induction false} CloseExactly(t: Table, s: nat, id: int, x: int)
    requires Sound(t) && s < |t.sessions|
    ensures var u, it := Close(t, s), t.sessions[s];
            && (Member(u.conns, id, x) <==> Member(t.conns, id, x) && x != s)
            && u.live == t.live - (if Member(t.conns, it.key, s) then 1 else 0)
            && u.sessions == t.sessions[s := it.(open := false)]
            && u.counters == (if it.open then t.counters[it.counter := t.counters[it.counter].(refs := t.counters[it.counter].refs - 1)]
                              else t.counters)
            && (u.traffic, u.revoked, u.seqNo) == (t.traffic, t.revoked, t.seqNo)
  {
    hide Without;
    assert Member(t.conns, id, s) ==> t.sessions[s].key == id && t.sessions[s].open;
    assert Member(t.conns, t.sessions[s].key, s) ==> t.sessions[s].open;
  }

  /** This connection is registered for nobody any more, and all others are as before. */
  ghost predicate Loses(conns: map<int, set<int>>, after: map<int, set<int>>, s: int) {
    forall id, x :: Member(after, id, x) <==> Member(conns, id, x) && x != s
  }

  lemma {:induction false} CloseLoses(t: Table, s: nat)
    requires Sound(t) && s < |t.sessions|
    ensures Loses(t.conns, Close(t, s).conns, s)
    ensures Close(t, s).live == t.live - if Member(t.conns, t.sessions[s].key, s) then 1 else 0
    ensures !t.sessions[s].open ==> t.sessions[s := t.sessions[s].(open := false)] == t.sessions
  {
    forall id, x
      ensures Member(Close(t, s).conns, id, x) <==> Member(t.conns, id, x) && x != s
    {
      CloseExactly(t, s, id, x);
    }
    CloseExactly(t, s, 0, 0);
  }

  lemma {:induction false} RevokeSets(conns: map<int, set<int>>, sessions: seq<Session>, id: int)
    requires Listed(conns, sessions)
    ensures Listed(conns - {id}, sessions)
    ensures |Registered(conns - {id}, sessions)| == |Registered(conns, sessions)| - |ConnsOf(conns, id)|
  {
    assert forall k, x :: Member(conns - {id}, k, x) <==> Member(conns, k, x) && k != id;
    assert forall s :: s in ConnsOf(conns, id) <==> Member(conns, id, s);
    assert ConnsOf(conns, id) <= Registered(conns, sessions);
    assert Registered(conns - {id}, sessions) == Registered(conns, sessions) - ConnsOf(conns, id);
  }

  lemma {:induction false} RevokeKeeps(t: Table, id: int, now: int, retained: multiset<int>)
    requires Inv(t, retained)
    ensures Inv(RevokeOne(t, id, now), retained)
  {
    RevokeSets(t.conns, t.sessions, id);
    hide Listed, Registered, Holders, Tracked, ConnsOf, Owned, Referenced, Findable;
  }

  lemma {:induction false} TakeKeeps(t: Table, id: int, retained: multiset<int>)
    requires Inv(t, retained) && id in t.traffic
    ensures Inv(Take(t, id), retained)
  {
    var u := Take(t, id);
    UsersSuffice(t.traffic, t.sessions, t.counters, u.counters);
    hide Listed, Registered, Holders, Owned;
  }

  lemma {:induction false} CountKeeps(t: Table, c: nat, up: nat, down: nat, retained: multiset<int>)
    requires Inv(t, retained) && c < |t.counters|
    ensures Inv(Count(t, c, up, down), retained)
  {
    var u := Count(t, c, up, down);
    UsersSuffice(t.traffic, t.sessions, t.counters, u.counters);
    hide Listed, Registered, Holders, Owned, Tracked;
  }

  // ------------------------------------------------------------------ what is counted and what is taken

  datatype Direction = Up | Down

  function Amount(c: Counter, d: Direction): nat { if d.Up? then c.up else c.down }

  /** What the next snapshot will report for a user. */
  function Value(t: Table, id: int, d: Direction): nat {
    if id in t.traffic && t.traffic[id] < |t.counters| then Amount(t.counters[t.traffic[id]], d) else 0
  }

  function Reported(out: seq<Traffic>, id: int, d: Direction): nat {
    if out == [] then 0
    else (if out[0].id != id then 0 else if d.Up? then out[0].up else out[0].down) + Reported(out[1..], id, d)
  }

  lemma {:induction false} ReportedSnoc(out: seq<Traffic>, r: Traffic, id: int, d: Direction)
    ensures Reported(out + [r], id, d) == Reported(out, id, d) + if r.id != id then 0 else if d.Up? then r.up else r.down
  {
    if out == [] {
      assert out + [r] == [r] && [r][1..] == out;
    } else {
      assert (out + [r])[1..] == out[1..] + [r];
      ReportedSnoc(out[1..], r, id, d);
    }
  }

  /** Registering, closing, retaining, releasing and revoking move no traffic. */
  lemma {:induction false} ValuesKept(t: Table, user: int, epoch: nat, s: nat, now: int, id: int, d: Direction)
    requires Sound(t)
    ensures Value(Retain(t, user).0, id, d) == Value(t, id, d)
    ensures Open(t, user, epoch).Some? ==> Value(Open(t, user, epoch).value, id, d) == Value(t, id, d)
    ensures s < |t.sessions| ==> Value(Close(t, s), id, d) == Value(t, id, d)
    ensures Value(RevokeOne(t, user, now), id, d) == Value(t, id, d)
  {
    hide With, Without;
  }

  /** Bytes counted on a counter that someone holds reach the next snapshot. */
  lemma {:induction false} HeldCountArrives(t: Table, c: nat, up: nat, down: nat, retained: multiset<int>, id: int, d: Direction)
    requires Inv(t, retained) && c < |t.counters|
    requires c in retained || exists s :: 0 <= s < |t.sessions| && t.sessions[s].open && t.sessions[s].counter == c
    ensures Value(Count(t, c, up, down), id, d) ==
            Value(t, id, d) + if id != t.counters[c].user then 0 else if d.Up? then up else down
  {
    if c !in retained {
      var s :| 0 <= s < |t.sessions| && t.sessions[s].open && t.sessions[s].counter == c;
      assert s in Holders(t.sessions, c);
    }
    assert t.counters[c].refs > 0;
  }

  /** The counter is the one the next snapshot of the user will find. */
  predicate Found(t: Table, id: int, c: nat) { id in t.traffic && t.traffic[id] == c }

  lemma {:induction false} FoundCountArrives(t: Table, c: nat, up: nat, down: nat, d: Direction)
    requires Sound(t) && c < |t.counters| && (if d.Up? then up else down) > 0
    ensures var id := t.counters[c].user;
            Value(Count(t, c, up, down), id, d) == Value(t, id, d) + (if d.Up? then up else down) <==> Found(t, id, c)
  {
  }

  /** What can happen to the table between two steps of a relay; a snapshot is its takings in any order. */
  datatype Act =
    | LooksUp(id: int)
    | Opens(id: int, epoch: nat)
    | Closes(s: nat)
    | Retains(id: int)
    | Releases(c: nat)
    | Counts(c: nat, up: nat, down: nat)
    | Revokes(ids: seq<int>, now: int)
    | Takes(id: int)

  /** The table and the outstanding retains before and after one operation. */
  ghost predicate Next(t: Table, r: multiset<int>, a: Act, u: Table, q: multiset<int>) {
    Sound(t) &&
    match a
    case LooksUp(id) => (u, q) == (CounterOf(t, id).0, r)
    case Opens(id, epoch) => Open(t, id, epoch) == Some(u) && q == r
    case Closes(s) => s < |t.sessions| && (u, q) == (Close(t, s), r)
    case Retains(id) => var (v, c) := Retain(t, id); (u, q) == (v, r + multiset{c})
    case Releases(c) => c in r && c < |t.counters| && (u, q) == (Refs(t, c, -1), r - multiset{c})
    case Counts(c, up, down) => c < |t.counters| && (u, q) == (Count(t, c, up, down), r)
    case Revokes(ids, now) => (u, q) == (Prune(RevokeAll(t, ids, now), now), r)
    case Takes(id) => id in t.traffic && (u, q) == (Take(t, id), r)
  }

  /** A snapshot takes the user's counter out of the table: nobody holds it. */
  predicate Discards(t: Table, a: Act, id: int) {
    a == Takes(id) && id in t.traffic && t.traffic[id] < |t.counters| && t.counters[t.traffic[id]].refs == 0
  }

  lemma {:induction false} ActKeeps(t: Table, r: multiset<int>, a: Act, u: Table, q: multiset<int>)
    requires Inv(t, r) && Next(t, r, a, u, q)
    ensures Inv(u, q)
  {
    match a
    case LooksUp(id) => CounterOfKeeps(t, id, r);
    case Opens(id, epoch) => OpenKeeps(t, id, epoch, r);
    case Closes(s) => CloseKeeps(t, s, r);
    case Retains(id) => RetainKeeps(t, id, r);
    case Releases(c) => ReleaseKeeps(t, c, r);
    case Counts(c, up, down) => CountKeeps(t, c, up, down, r);
    case Revokes(ids, now) => RevokeAllKeeps(t, ids, now, r);
    case Takes(id) => TakeKeeps(t, id, r);
  }

  /** The counter is still its user's, and found exactly if it was. */
  predicate Stays(t: Table, u: Table, c: nat) {
    && c < |t.counters| && c < |u.counters| && u.counters[c].user == t.counters[c].user
    && (Found(u, t.counters[c].user, c) <==> Found(t, t.counters[c].user, c))
  }

  lemma {:induction false} StaysLooked(t: Table, id: int, c: nat)
    requires Sound(t) && c < |t.counters|
    ensures Stays(t, CounterOf(t, id).0, c)
  {
  }

  lemma {:induction false} StaysRetained(t: Table, id: int, c: nat)
    requires Sound(t) && c < |t.counters|
    ensures Stays(t, Retain(t, id).0, c)
  {
    StaysLooked(t, id, c);
    var (v, k) := CounterOf(t, id);
    hide CounterOf;
  }

  lemma {:induction false} StaysTaken(t: Table, id: int, c: nat)
    requires Sound(t) && c < |t.counters| && id in t.traffic && !Discards(t, Takes(id), t.counters[c].user)
    ensures Stays(t, Take(t, id), c)
  {
  }

  lemma {:induction false} GoneTaken(t: Table, id: int, c: nat)
    requires Sound(t) && c < |t.counters| && id in t.traffic && Discards(t, Takes(id), t.counters[c].user)
    ensures var u := Take(t, id);
            c < |u.counters| && u.counters[c].user == t.counters[c].user && !Found(u, t.counters[c].user, c)
  {
  }

  /** Only a snapshot that discards the user's counter makes it another one, and for good. */
  lemma {:induction false} FoundNext(t: Table, r: multiset<int>, a: Act, u: Table, q: multiset<int>, c: nat)
    requires Sound(t) && Next(t, r, a, u, q) && c < |t.counters|
    ensures c < |u.counters| && u.counters[c].user == t.counters[c].user
    ensures var id := t.counters[c].user; Found(u, id, c) <==> Found(t, id, c) && !Discards(t, a, id)
  {
    hide With, Without, Sound, CounterOf, Found, Take;
    match a
    case LooksUp(id) => StaysLooked(t, id, c);
    case Opens(id, epoch) => StaysOpened(t, id, epoch, c);
    case Closes(s) => StaysClosed(t, s, c);
    case Retains(id) => StaysRetained(t, id, c);
    case Releases(k) => StaysCounted(t, u, c);
    case Counts(k, up, down) => StaysCounted(t, u, c);
    case Revokes(ids, now) =>
      RevokeAllMarks(t, ids, now, 0);
      StaysCounted(t, u, c);
    case Takes(id) =>
      if Discards(t, a, t.counters[c].user) {
        GoneTaken(t, id, c);
      } else {
        StaysTaken(t, id, c);
      }
  }

  lemma {:induction false} StaysCounted(t: Table, u: Table, c: nat)
    requires c < |t.counters| && c < |u.counters| && u.counters[c].user == t.counters[c].user && u.traffic == t.traffic
    ensures Stays(t, u, c)
  {
  }

  lemma {:induction false} StaysOpened(t: Table, id: int, epoch: nat, c: nat)
    requires Sound(t) && c < |t.counters| && Open(t, id, epoch).Some?
    ensures Stays(t, Open(t, id, epoch).value, c)
  {
    StaysRetained(t, id, c);
    hide CounterOf, With;
  }

  lemma {:induction false} StaysClosed(t: Table, s: nat, c: nat)
    requires Sound(t) && c < |t.counters| && s < |t.sessions|
    ensures Stays(t, Close(t, s), c)
  {
    hide Without;
  }

  /** Tables and outstanding retains of a run of operations, from any reachable table. */
  ghost predicate Acting(ts: seq<Table>, rs: seq<multiset<int>>, acts: seq<Act>) {
    && |ts| == |rs| == |acts| + 1 && Inv(ts[0], rs[0])
    && forall i :: 0 <= i < |acts| ==> Next(ts[i], rs[i], acts[i], ts[i + 1], rs[i + 1])
  }

  lemma {:induction false} ActingKeeps(ts: seq<Table>, rs: seq<multiset<int>>, acts: seq<Act>, n: nat)
    requires Acting(ts, rs, acts) && n <= |acts|
    ensures Inv(ts[n], rs[n])
  {
    if n > 0 {
      ActingKeeps(ts, rs, acts, n - 1);
      assert Next(ts[n - 1], rs[n - 1], acts[n - 1], ts[n - 1 + 1], rs[n - 1 + 1]);
      hide Inv, Next;
      ActKeeps(ts[n - 1], rs[n - 1], acts[n - 1], ts[n], rs[n]);
    }
  }

  lemma {:induction false} FoundAfter(ts: seq<Table>, rs: seq<multiset<int>>, acts: seq<Act>, id: int, c: nat, n: nat)
    requires Acting(ts, rs, acts) && n <= |acts| && forall i :: 0 <= i <= n ==> Sound(ts[i])
    requires c < |ts[0].counters| && ts[0].counters[c].user == id && Found(ts[0], id, c)
    ensures c < |ts[n].counters| && ts[n].counters[c].user == id
    ensures Found(ts[n], id, c) <==> forall i :: 0 <= i < n ==> !Discards(ts[i], acts[i], id)
  {
    hide Inv, Next, Found, Sound, Discards;
    if n > 0 {
      FoundAfter(ts, rs, acts, id, c, n - 1);
      assert Next(ts[n - 1], rs[n - 1], acts[n - 1], ts[n - 1 + 1], rs[n - 1 + 1]);
      FoundNext(ts[n - 1], rs[n - 1], acts[n - 1], ts[n], rs[n], c);
    }
  }

  /**
   `add` looks its counter up under the lock and counts after it. Whatever happens to the table in between, the
   bytes arrive if and only if no snapshot in between found the user's counter held by nobody.
   */
  lemma {:induction false} UnheldCountArrives(t: Table, r: multiset<int>, ts: seq<Table>, rs: seq<multiset<int>>,
                                              acts: seq<Act>, id: int, up: nat, down: nat, d: Direction)
    requires Inv(t, r) && Acting(ts, rs, acts) && (ts[0], rs[0]) == (CounterOf(t, id).0, r)
    requires (if d.Up? then up else down) > 0
    ensures forall i :: 0 <= i <= |acts| ==> Inv(ts[i], rs[i])
    ensures var c, last := CounterOf(t, id).1, ts[|acts|];
            && c < |last.counters|
            && (Value(Count(last, c, up, down), id, d) == Value(last, id, d) + (if d.Up? then up else down)
                <==> forall i :: 0 <= i < |acts| ==> !Discards(ts[i], acts[i], id))
  {
    var c := CounterOf(t, id).1;
    CounterOfKeeps(t, id, r);
    forall i | 0 <= i <= |acts|
      ensures Inv(ts[i], rs[i])
    {
      ActingKeeps(ts, rs, acts, i);
    }
    FoundAfter(ts, rs, acts, id, c, |acts|);
    FoundCountArrives(ts[|acts|], c, up, down, d);
  }

  /** A run in which one did: looked up, a snapshot takes the idle counter, then counted and lost. */
  lemma {:induction false} UnheldCountCanBeLost()
    ensures var (t, c) := CounterOf(Empty(), 7);
            && Sound(t) && 7 in t.traffic && t.traffic[7] == c
            && var u := Take(t, 7); c < |u.counters| && Value(Count(u, c, 5, 0), 7, Up) == 0
  {
    var (t, c) := CounterOf(Empty(), 7);
    assert t.counters == [Counter(7, 0, 0, 0)];
  }

  lemma {:induction false} TakeZeroes(t: Table, user: int, id: int, d: Direction)
    requires Sound(t) && user in t.traffic
    ensures Value(Take(t, user), id, d) == if id == user then 0 else Value(t, id, d)
  {
    hide Listed, Owned;
  }

  // ------------------------------------------------------------------ revoking several users

  lemma {:induction false} RevokeAllMarks(t: Table, ids: seq<int>, now: int, id: int)
    ensures var u := RevokeAll(t, ids, now);
            && u.seqNo == t.seqNo + |ids|
            && (id in ids ==> id in u.revoked && u.revoked[id].seqNo > t.seqNo && u.revoked[id].at == now && id !in u.conns)
            && (id !in ids ==> (id in u.revoked <==> id in t.revoked) && (id in u.conns <==> id in t.conns))
            && (id !in ids && id in t.conns ==> u.conns[id] == t.conns[id])
            && (id !in ids && id in t.revoked ==> u.revoked[id] == t.revoked[id])
            && u.sessions == t.sessions && u.counters == t.counters && u.traffic == t.traffic
    decreases |ids|
  {
    if ids != [] {
      var v := RevokeOne(t, ids[0], now);
      RevokeAllMarks(v, ids[1..], now, id);
    }
  }

  lemma {:induction false} RevokeAllKeeps(t: Table, ids: seq<int>, now: int, retained: multiset<int>)
    requires Inv(t, retained)
    ensures Inv(RevokeAll(t, ids, now), retained) && Inv(Prune(RevokeAll(t, ids, now), now), retained)
    decreases |ids|
  {
    if ids != [] {
      RevokeKeeps(t, ids[0], now, retained);
      RevokeAllKeeps(RevokeOne(t, ids[0], now), ids[1..], now, retained);
    }
  }

  /** Every connection of a revoked user is a victim, and nobody else's. */
  lemma {:induction false} VictimsAreTheirs(conns: map<int, set<int>>, ids: seq<int>, s: int)
    ensures s in Victims(conns, ids) <==> exists id :: id in ids && Member(conns, id, s)
    decreases |ids|
  {
    if ids != [] {
      var rest := conns - {ids[0]};
      VictimsAreTheirs(rest, ids[1..], s);
      assert forall id :: Member(rest, id, s) <==> Member(conns, id, s) && id != ids[0];
      assert forall id :: id in ids <==> id == ids[0] || id in ids[1..];
      assert s in ConnsOf(conns, ids[0]) <==> Member(conns, ids[0], s);
    }
  }

  // ------------------------------------------------------------------ the table itself

  lemma {:induction false} InvGives(t: Table, retained: multiset<int>)
    requires Inv(t, retained)
    ensures Sound(t) && (forall s :: 0 <= s < |t.sessions| ==> t.sessions[s].counter < |t.counters|)
    ensures forall c :: c in retained ==> 0 <= c < |t.counters|
  {
  }

  class SessionTable {
    var seqNo: nat
    var conns: map<int, set<int>>
    var traffic: map<int, nat>
    var revoked: map<int, Revocation>
    var live: int
    var sessions: seq<Session>
    var counters: seq<Counter>

    /** Counters retained and not yet released. */
    ghost var retained: multiset<int>

    ghost function View(): Table
      reads this
    {
      Table(seqNo, conns, traffic, revoked, live, sessions, counters)
    }

    ghost predicate Valid()
      reads this
    {
      Inv(View(), retained)
    }

    constructor ()
      ensures Valid() && View() == Empty() && retained == multiset{}
    {
      seqNo, conns, traffic, revoked, live, sessions, counters := 0, map[], map[], map[], 0, [], [];
      retained := multiset{};
      new;
      assert Registered(conns, sessions) == {};
    }

    method FindCounter(id: int) returns (c: nat)
      modifies this`traffic, this`counters
      ensures (View(), c) == CounterOf(old(View()), id)
    {
      if id !in traffic {
        traffic, counters := traffic[id := |counters|], counters + [Counter(id, 0, 0, 0)];
      }
      c := traffic[id];
    }

    /** Registers a connection with the epoch it read before its user was looked up. */
    method OpenSession(id: int, epoch: nat) returns (s: Option<nat>)
      requires Valid()
      modifies this
      ensures Valid() && retained == old(retained)
      ensures s.None? <==> RevokedSince(old(View()), id, epoch)
      ensures s.None? ==> View() == old(View())
      ensures s.Some? ==> Open(old(View()), id, epoch) == Some(View()) && s.value == |old(sessions)|
    {
      hide Inv, Sound, Member, With;
      InvGives(View(), retained);
      if id in revoked && revoked[id].seqNo > epoch {
        return None;
      }
      OpenKeeps(View(), id, epoch, retained);
      CounterOfKeeps(View(), id, retained);
      var c := FindCounter(id);
      counters := counters[c := counters[c].(refs := counters[c].refs + 1)];
      conns := With(conns, id, |sessions|);
      s := Some(|sessions|);
      sessions, live := sessions + [Session(id, c, true)], live + 1;
    }

    /** Unregisters a connection, once. */
    method CloseSession(s: nat)
      requires Valid() && s < |sessions|
      modifies this
      ensures Valid() && retained == old(retained) && View() == Close(old(View()), s)
      ensures Loses(old(conns), conns, s)
      ensures live == old(live) - if Member(old(conns), old(sessions)[s].key, s) then 1 else 0
      ensures sessions == old(sessions)[s := old(sessions)[s].(open := false)]
      ensures var c := old(sessions)[s].counter;
              && c < |old(counters)|
              && counters == if old(sessions)[s].open then old(counters)[c := old(counters)[c].(refs := old(counters)[c].refs - 1)]
                             else old(counters)
    {
      hide Inv, Sound, Member, Without, Loses;
      InvGives(View(), retained);
      CloseLoses(View(), s);
      var it := sessions[s];
      if !it.open {
        return;
      }
      CloseKeeps(View(), s, retained);
      if it.key in conns && s in conns[it.key] {
        conns, live := Without(conns, it.key, s), live - 1;
      }
      counters := counters[it.counter := counters[it.counter].(refs := counters[it.counter].refs - 1)];
      sessions := sessions[s := it.(open := false)];
    }

    method RetainCounter(id: int) returns (c: nat)
      requires Valid()
      modifies this
      ensures Valid() && (View(), c) == Retain(old(View()), id) && retained == old(retained) + multiset{c}
    {
      hide Inv, Sound;
      InvGives(View(), retained);
      RetainKeeps(View(), id, retained);
      CounterOfKeeps(View(), id, retained);
      c := FindCounter(id);
      counters := counters[c := counters[c].(refs := counters[c].refs + 1)];
      retained := retained + multiset{c};
    }

    method ReleaseCounter(c: nat)
      requires Valid() && c in retained
      modifies this
      ensures Valid() && View() == Refs(old(View()), c, -1) && retained == old(retained) - multiset{c}
    {
      hide Inv, Sound;
      InvGives(View(), retained);
      ReleaseKeeps(View(), c, retained);
      counters := counters[c := counters[c].(refs := counters[c].refs - 1)];
      retained := retained - multiset{c};
    }

    /** Takes one counter's counts. */
    method TakeCounter(id: int) returns (r: Traffic)
      requires Valid() && id in traffic
      modifies this`traffic, this`counters
      ensures Valid() && View() == Take(old(View()), id)
      ensures r == Traffic(id, Value(old(View()), id, Up), Value(old(View()), id, Down))
    {
      TakeKeeps(View(), id, retained);
      var c := traffic[id];
      r := Traffic(id, counters[c].up, counters[c].down);
      var idle := counters[c].refs == 0;
      hide Inv;
      counters := counters[c := counters[c].(up := 0, down := 0)];
      if idle {
        traffic := traffic - {id};
      }
    }

    /** Takes every user's counts: what was there is reported, and nothing is left. */
    method Snapshot() returns (out: seq<Traffic>)
      requires Valid()
      modifies this`traffic, this`counters
      ensures Valid() && Snapshots(old(View()), retained, out, View())
    {
      out := [];
      ghost var before := View();
      var rest := traffic.Keys;
      assert Taken(out, before, View(), rest);
      while rest != {}
        invariant Valid() && rest <= traffic.Keys && Taken(out, before, View(), rest)
        decreases rest
      {
        hide Inv, Taken, Take;
        var id :| id in rest;
        ghost var prior := View();
        var r := TakeCounter(id);
        TakenStep(out, before, prior, rest, id);
        if r.up != 0 || r.down != 0 {
          out := out + [r];
        }
        rest := rest - {id};
      }
    }

    /** One user of Revoke's loop. */
    method RevokeUser(id: int, now: int) returns (victims: set<int>)
      modifies this
      ensures View() == RevokeOne(old(View()), id, now) && retained == old(retained) && victims == ConnsOf(old(conns), id)
    {
      seqNo := seqNo + 1;
      revoked := revoked[id := Revocation(seqNo, now)];
      victims := {};
      if id in conns {
        victims, live := conns[id], live - |conns[id]|;
      }
      conns := conns - {id};
    }

    method RevokeUsers(ids: seq<int>, now: int) returns (victims: set<int>)
      modifies this
      ensures View() == RevokeAll(old(View()), ids, now) && retained == old(retained) && victims == Victims(old(conns), ids)
    {
      victims := {};
      ghost var before := View();
      assert ids[0..] == ids;
      assert victims + Victims(before.conns, ids) == Victims(before.conns, ids);
      hide RevokeOne, Victims, RevokeAll, ConnsOf;
      for i := 0 to |ids|
        invariant RevokeAll(View(), ids[i..], now) == RevokeAll(before, ids, now)
        invariant retained == old(retained)
        invariant victims + Victims(conns, ids[i..]) == Victims(before.conns, ids)
      {
        RevokeAllStep(View(), ids, i, now);
        ghost var rest := Victims(RevokeOne(View(), ids[i], now).conns, ids[i + 1..]);
        var more := RevokeUser(ids[i], now);
        assert victims + more + rest == victims + (more + rest);
        victims := victims + more;
      }
      AllRevoked(View(), ids, now);
    }

    /** Marks users revoked and returns the connections to close. */
    method Revoke(ids: seq<int>, now: int) returns (victims: set<int>)
      requires Valid()
      modifies this
      ensures Valid() && retained == old(retained)
      ensures victims == Victims(old(conns), ids)
      ensures View() == if ids == [] then old(View()) else Prune(RevokeAll(old(View()), ids, now), now)
    {
      hide Inv, RevokeAll;
      if ids == [] {
        return {};
      }
      RevokeAllKeeps(View(), ids, now, retained);
      victims := RevokeUsers(ids, now);
      if |revoked| > MARKERS {
        revoked := map id | id in revoked && now - revoked[id].at <= REVOKED_KEEP :: revoked[id];
      }
    }
  }

  lemma {:induction false} AllRevoked(t: Table, ids: seq<int>, now: int)
    ensures RevokeAll(t, ids[|ids|..], now) == t && Victims(t.conns, ids[|ids|..]) == {}
  {
  }

  lemma {:induction false} RevokeAllStep(t: Table, ids: seq<int>, i: nat, now: int)
    requires i < |ids|
    ensures RevokeAll(t, ids[i..], now) == RevokeAll(RevokeOne(t, ids[i], now), ids[i + 1..], now)
    ensures Victims(t.conns, ids[i..]) == ConnsOf(t.conns, ids[i]) + Victims(RevokeOne(t, ids[i], now).conns, ids[i + 1..])
  {
    assert ids[i..][1..] == ids[i + 1..];
  }

  /** A snapshot reports exactly what each user had, leaves nothing, and touches no connection. */
  ghost predicate Snapshots(t: Table, retained: multiset<int>, out: seq<Traffic>, u: Table) {
    && (Inv(t, retained) ==> Inv(u, retained))
    && (u.conns, u.sessions, u.live, u.seqNo, u.revoked) == (t.conns, t.sessions, t.live, t.seqNo, t.revoked)
    && forall id, d :: Reported(out, id, d) == Value(t, id, d) && Value(u, id, d) == 0
  }

  /** Reported so far plus still counted is what there was; only the rest still counts. */
  ghost predicate Taken(out: seq<Traffic>, before: Table, t: Table, rest: set<int>) {
    && (forall id, d :: Reported(out, id, d) + Value(t, id, d) == Value(before, id, d))
    && (forall id, d :: id !in rest ==> Value(t, id, d) == 0)
  }

  lemma {:induction false} TakenStep(out: seq<Traffic>, before: Table, t: Table, rest: set<int>, id: int)
    requires Taken(out, before, t, rest) && Sound(t) && id in rest && id in t.traffic
    ensures var r, u := Traffic(id, Value(t, id, Up), Value(t, id, Down)), Take(t, id);
            && Taken(out + [r], before, u, rest - {id})
            && (r.up == 0 && r.down == 0 ==> Taken(out, before, u, rest - {id}))
            && u.traffic.Keys >= t.traffic.Keys - {id}
  {
    var r, u := Traffic(id, Value(t, id, Up), Value(t, id, Down)), Take(t, id);
    forall x, d
      ensures Value(u, x, d) == if x == id then 0 else Value(t, x, d)
      ensures Reported(out + [r], x, d) == Reported(out, x, d) + if r.id != x then 0 else if d.Up? then r.up else r.down
    {
      TakeZeroes(t, id, x, d);
      ReportedSnoc(out, r, x, d);
    }
    assert u.traffic.Keys >= t.traffic.Keys - {id};
    hide Reported, Value, Take;
  }
}
