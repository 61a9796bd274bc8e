/**
 UDP over TCP: each target of a stream takes one slot of its user's quota. Slots are taken before the target is
 published and given back by whoever takes it off the table, so that concurrent removals give it back once.
 */
module UotBridge {
  import opened Wire
  import opened UdpResources

  /** A slot from acquiring it to giving it back. */
  datatype Phase = InProgress | Published(key: string) | Owed | Returned

  datatype Slot = Slot(user: int, stream: int, phase: Phase)

  datatype Target = Target(stream: int, key: string)

  /** `upstreams` are the published targets of all streams, each with its slot. */
  datatype State = State(quota: Quota, limit: nat, slots: seq<Slot>, upstreams: map<Target, nat>, closed: set<int>)

  datatype Step =
    | Acquire(user: int, stream: int)
    | ListenFails(n: nat)
    | Publish(n: nat, key: string)
    | Drop(target: Target, n: nat)
    | Close(stream: int)
    | GiveBack(n: nat)

  function Start(limit: nat): State { State(map[], limit, [], map[], {}) }

  function Move(s: State, n: nat, p: Phase): seq<Slot>
    requires n < |s.slots|
  {
    s.slots[n := s.slots[n].(phase := p)]
  }

  /** Closing a stream takes all its targets off the table; each of their slots is owed. */
  function Closing(x: Slot, stream: int): Slot {
    if x.stream == stream && x.phase.Published? then x.(phase := Owed) else x
  }

  function CloseAll(slots: seq<Slot>, stream: int): (r: seq<Slot>)
    ensures |r| == |slots| && forall i :: 0 <= i < |slots| ==> r[i] == Closing(slots[i], stream)
  {
    seq(|slots|, i requires 0 <= i < |slots| => Closing(slots[i], stream))
  }

  predicate Next(s: State, step: Step, t: State) {
    match step
    case Acquire(user, stream) =>
      t == if Used(s.quota, user) >= s.limit then s
           else s.(quota := Acquired(s.quota, user), slots := s.slots + [Slot(user, stream, InProgress)])
    case ListenFails(n) =>
      n < |s.slots| && s.slots[n].phase.InProgress? && t == s.(slots := Move(s, n, Owed))
    case Publish(n, key) =>
      && n < |s.slots| && s.slots[n].phase.InProgress?
      && var at := Target(s.slots[n].stream, key);
         t == if at.stream in s.closed || at in s.upstreams then s.(slots := Move(s, n, Owed))
              else s.(slots := Move(s, n, Published(key)), upstreams := s.upstreams[at := n])
    case Drop(target, n) =>
      t == if target in s.upstreams && s.upstreams[target] == n && n < |s.slots|
           then s.(slots := Move(s, n, Owed), upstreams := s.upstreams - {target}) else s
    case Close(stream) =>
      t == if stream in s.closed then s
           else s.(closed := s.closed + {stream}, slots := CloseAll(s.slots, stream),
                   upstreams := map at | at in s.upstreams && at.stream != stream :: s.upstreams[at])
    case GiveBack(n) =>
      && n < |s.slots| && s.slots[n].phase.Owed?
      && t == s.(slots := Move(s, n, Returned), quota := Released(s.quota, s.slots[n].user))
  }

  function Out(user: int): Slot -> bool { (x: Slot) => !x.phase.Returned? && x.user == user }

  /** A slot is published exactly if the table has its target with it. */
  predicate Listed(s: State, n: nat)
    requires n < |s.slots|
  {
    s.slots[n].phase.Published? ==>
      var at := Target(s.slots[n].stream, s.slots[n].phase.key); at in s.upstreams && s.upstreams[at] == n
  }

  ghost predicate Tabled(s: State) {
    && (forall n :: 0 <= n < |s.slots| ==> Listed(s, n))
    && (forall at :: at in s.upstreams ==> Backed(s, at, s.upstreams[at]))
  }

  predicate Backed(s: State, at: Target, n: nat) {
    at.stream !in s.closed && n < |s.slots| && s.slots[n].stream == at.stream && s.slots[n].phase == Published(at.key)
  }

  /** The quota is exactly the slots out: in progress, published or owed. */
  ghost predicate Exact(s: State, user: int) { Used(s.quota, user) == CountIf(s.slots, Out(user)) && Used(s.quota, user) <= s.limit }

  lemma {:induction false} CloseCounts(slots: seq<Slot>, stream: int, user: int)
    ensures CountIf(CloseAll(slots, stream), Out(user)) == CountIf(slots, Out(user))
  {
    if slots != [] {
      assert CloseAll(slots, stream)[1..] == CloseAll(slots[1..], stream);
      CloseCounts(slots[1..], stream, user);
    }
  }

  lemma {:induction false} StepExact(s: State, step: Step, t: State, user: int)
    requires Next(s, step, t) && Tabled(s) && Exact(s, user)
    ensures Exact(t, user)
  {
    match step
    case Acquire(u, stream) => CountSnoc(s.slots, Slot(u, stream, InProgress), Out(user));
    case Close(stream) => CloseCounts(s.slots, stream, user);
    case ListenFails(n) => CountUpdate(s.slots, n, t.slots[n], Out(user));
    case Publish(n, _) => CountUpdate(s.slots, n, t.slots[n], Out(user));
    case Drop(_, n) => if n < |s.slots| { CountUpdate(s.slots, n, s.slots[n].(phase := Owed), Out(user)); }
    case GiveBack(n) =>
      CountUpdate(s.slots, n, t.slots[n], Out(user));
      CountOwed(s.slots, n, user);
  }

  lemma {:induction false} CountOwed(slots: seq<Slot>, n: nat, user: int)
    requires n < |slots|
    ensures Out(user)(slots[n]) ==> CountIf(slots, Out(user)) >= 1
  {
    if Out(user)(slots[n]) {
      CountSome(slots, n, Out(user));
    }
  }

  lemma {:induction false} StepTabled(s: State, step: Step, t: State)
    requires Next(s, step, t) && Tabled(s)
    ensures Tabled(t)
  {
    forall n: nat | n < |t.slots|
      ensures Listed(t, n)
    {
      if n < |s.slots| {
        assert Listed(s, n);
      }
    }
    forall at | at in t.upstreams
      ensures Backed(t, at, t.upstreams[at])
    {
      if at in s.upstreams {
        assert Backed(s, at, s.upstreams[at]);
      }
    }
  }

  predicate Run(states: seq<State>, steps: seq<Step>, limit: nat) {
    && |states| == |steps| + 1 && states[0] == Start(limit)
    && forall i :: 0 <= i < |steps| ==> Next(states[i], steps[i], states[i + 1])
  }

  /** In every run a user's quota use is their targets plus the acquisitions and returns still under way. */
  lemma {:induction false} QuotaIsExact(states: seq<State>, steps: seq<Step>, limit: nat, n: nat, user: int)
    requires Run(states, steps, limit) && n < |states|
    ensures Tabled(states[n]) && Exact(states[n], user)
  {
    if n > 0 {
      assert Next(states[n - 1], steps[n - 1], states[n]);
      hide Next, Tabled, Exact;
      QuotaIsExact(states, steps, limit, n - 1, user);
      StepTabled(states[n - 1], steps[n - 1], states[n]);
      StepExact(states[n - 1], steps[n - 1], states[n], user);
    }
  }

  /** A slot's life goes one way: in progress, published, owed, returned. */
  function Rank(p: Phase): nat {
    match p
    case InProgress => 0
    case Published(_) => 1
    case Owed => 2
    case Returned => 3
  }

  lemma {:induction false} StepRanks(s: State, step: Step, t: State, n: nat)
    requires Next(s, step, t) && Tabled(s) && n < |s.slots|
    ensures n < |t.slots| && (t.slots[n].user, t.slots[n].stream) == (s.slots[n].user, s.slots[n].stream)
    ensures Rank(t.slots[n].phase) >= Rank(s.slots[n].phase)
    ensures step == GiveBack(n) ==> Rank(s.slots[n].phase) == 2 && Rank(t.slots[n].phase) == 3
  {
    if step.Drop? && step.target in s.upstreams {
      assert Backed(s, step.target, s.upstreams[step.target]);
    }
  }

  /** In every run, what is owed is never published again, and what is returned stays so. */
  lemma {:induction false} RanksGrow(states: seq<State>, steps: seq<Step>, limit: nat, i: nat, j: nat, n: nat)
    requires Run(states, steps, limit) && i <= j < |states| && n < |states[i].slots|
    ensures n < |states[j].slots| && (states[j].slots[n].user, states[j].slots[n].stream) == (states[i].slots[n].user, states[i].slots[n].stream)
    ensures Rank(states[j].slots[n].phase) >= Rank(states[i].slots[n].phase)
    decreases j - i
  {
    if i < j {
      RanksGrow(states, steps, limit, i, j - 1, n);
      QuotaIsExact(states, steps, limit, j - 1, 0);
      assert Next(states[j - 1], steps[j - 1], states[j - 1 + 1]);
      hide Next, Run, Tabled, Exact;
      StepRanks(states[j - 1], steps[j - 1], states[j], n);
    }
  }

  /** In every run, whatever happens in between: a slot is given back at most once. */
  lemma {:induction false} ReturnedOnce(states: seq<State>, steps: seq<Step>, limit: nat, a: nat, b: nat, n: nat)
    requires Run(states, steps, limit) && a < b < |steps| && steps[a] == GiveBack(n)
    ensures steps[b] != GiveBack(n)
  {
    assert Next(states[a], steps[a], states[a + 1]) && Next(states[b], steps[b], states[b + 1]);
    QuotaIsExact(states, steps, limit, a, 0);
    StepRanks(states[a], steps[a], states[a + 1], n);
    RanksGrow(states, steps, limit, a + 1, b, n);
    hide Run, Tabled, Exact;
  }

  /** In every run: once a target was taken off the table, taking the same one off again changes nothing. */
  lemma {:induction false} DroppedOnce(states: seq<State>, steps: seq<Step>, limit: nat, a: nat, b: nat, at: Target, n: nat)
    requires Run(states, steps, limit) && a < b < |steps| && steps[a] == steps[b] == Drop(at, n)
    requires at in states[a].upstreams && states[a].upstreams[at] == n
    ensures states[b + 1] == states[b]
  {
    assert Next(states[a], steps[a], states[a + 1]) && Next(states[b], steps[b], states[b + 1]);
    QuotaIsExact(states, steps, limit, a, 0);
    QuotaIsExact(states, steps, limit, b, 0);
    assert Backed(states[a], at, n);
    RanksGrow(states, steps, limit, a + 1, b, n);
    if at in states[b].upstreams {
      assert Backed(states[b], at, states[b].upstreams[at]);
    }
  }

  /** Once their streams are closed and nothing is under way, the user has every slot back. */
  lemma {:induction false} AllReturned(states: seq<State>, steps: seq<Step>, limit: nat, n: nat, user: int)
    requires Run(states, steps, limit) && n < |states|
    requires var s := states[n];
             forall i :: 0 <= i < |s.slots| && s.slots[i].user == user ==>
               s.slots[i].stream in s.closed && !s.slots[i].phase.InProgress? && !s.slots[i].phase.Owed?
    ensures Used(states[n].quota, user) == 0
  {
    QuotaIsExact(states, steps, limit, n, user);
    var s := states[n];
    hide Run;
    forall i | 0 <= i < |s.slots|
      ensures !Out(user)(s.slots[i])
    {
      assert Listed(s, i);
    }
    CountNone(s.slots, Out(user));
  }

  /** A target taken off the table, alone or with its stream, leaves exactly its slot owed. */
  lemma {:induction false} TakenOffIsOwed(s: State, step: Step, t: State, at: Target)
    requires Next(s, step, t) && Tabled(s) && at in s.upstreams && at !in t.upstreams
    ensures step == Drop(at, s.upstreams[at]) || step == Close(at.stream)
    ensures s.upstreams[at] < |t.slots| && t.slots[s.upstreams[at]].phase == Owed
  {
    assert Backed(s, at, s.upstreams[at]);
  }

  /** Closing a stream leaves it no target, and dropping a target takes that one off. */
  lemma {:induction false} ClosedIsEmpty(s: State, step: Step, t: State, at: Target)
    requires Next(s, step, t) && Tabled(s)
    ensures step == Close(at.stream) ==> at !in t.upstreams && at.stream in t.closed
    ensures at in s.upstreams && step == Drop(at, s.upstreams[at]) ==> at !in t.upstreams
  {
    if at in s.upstreams {
      assert Backed(s, at, s.upstreams[at]);
    }
  }

  /** A target of an open stream can be published whenever its user is below the limit and the target is not there yet. */
  lemma {:induction false} CanPublish(s: State, user: int, at: Target) returns (t: seq<State>)
    requires Used(s.quota, user) < s.limit && at.stream !in s.closed && at !in s.upstreams
    ensures var n := |s.slots|;
            && |t| == 3 && t[0] == s && Next(t[0], Acquire(user, at.stream), t[1]) && Next(t[1], Publish(n, at.key), t[2])
            && t[2].upstreams == s.upstreams[at := n] && Used(t[2].quota, user) == Used(s.quota, user) + 1
            && t[2].slots == s.slots + [Slot(user, at.stream, Published(at.key))]
  {
    var n := |s.slots|;
    var t1 := s.(quota := Acquired(s.quota, user), slots := s.slots + [Slot(user, at.stream, InProgress)]);
    var t2 := t1.(slots := Move(t1, n, Published(at.key)), upstreams := s.upstreams[at := n]);
    t := [s, t1, t2];
  }

  // ------------------------------------------------------------------ one stream by itself

  class RoutedPacketConn {
    const user: int
    const quota: UdpSessionQuota
    var upstreams: map<string, nat>
    var handles: nat
    var closed: bool

    /** Every target has a slot, and handles are not reused. */
    ghost predicate Valid()
      reads this, quota
    {
      && |upstreams| <= Used(quota.byUser, user) && (closed ==> upstreams == map[])
      && forall key :: key in upstreams ==> upstreams[key] < handles
    }

    /** The slots taken by others, which this stream never gives back or takes. */
    ghost function Others(u: int): int
      reads this, quota
    {
      Used(quota.byUser, u) - if u == user then |upstreams| else 0
    }

    constructor (user: int, quota: UdpSessionQuota)
      ensures Valid() && upstreams == map[] && !closed && this.quota == quota && this.user == user
    {
      this.user, this.quota, upstreams, handles, closed := user, quota, map[], 0, false;
    }

    /** The target's upstream, existing or new; a slot is kept only for a new one that is published. */
    method EnsureUpstream(key: string, listens: bool) returns (handle: Option<nat>)
      requires Valid()
      modifies this, quota
      ensures Valid() && closed == old(closed)
      ensures forall u :: Others(u) == old(Others(u))
      ensures key in old(upstreams) ==> handle == Some(old(upstreams)[key]) && upstreams == old(upstreams)
      ensures key !in old(upstreams) && handle.Some? ==> !closed && listens && upstreams == old(upstreams)[key := handle.value]
      ensures handle.None? ==> upstreams == old(upstreams)
      ensures handle.Some? <==>
                key in old(upstreams) || (Used(old(quota.byUser), user) < quota.Limit() && listens && !old(closed))
    {
      if key in upstreams {
        return Some(upstreams[key]);
      }
      var ok := quota.Acquire(user);
      if !ok {
        return None;
      }
      if !listens || closed {
        quota.Release(user);
        return None;
      }
      MapAdds(upstreams, key, handles);
      upstreams, handles := upstreams[key := handles], handles + 1;
      return Some(upstreams[key]);
    }

    /** Takes a target off the table if it is still this one and still idle; only then is a slot given back. */
    method DropIdle(key: string, handle: nat, idle: bool) returns (dropped: bool)
      requires Valid()
      modifies this, quota
      ensures Valid() && closed == old(closed) && dropped == idle
      ensures upstreams == if idle && key in old(upstreams) && old(upstreams)[key] == handle then old(upstreams) - {key} else old(upstreams)
      ensures forall u :: Others(u) == old(Others(u))
    {
      if !idle {
        return false;
      }
      if key in upstreams && upstreams[key] == handle {
        MapTakes(upstreams, key);
        upstreams := upstreams - {key};
        quota.Release(user);
      }
      return true;
    }

    /** Closing gives back one slot for each target, once. */
    method CloseStream()
      requires Valid()
      modifies this, quota
      ensures Valid() && closed && upstreams == map[]
      ensures forall u :: Others(u) == old(Others(u))
    {
      if closed {
        return;
      }
      var n := |upstreams|;
      closed, upstreams := true, map[];
      for i := 0 to n
        invariant closed && upstreams == map[]
        invariant forall u :: Used(quota.byUser, u) == old(Used(quota.byUser, u)) - if u == user then i else 0
      {
        quota.Release(user);
      }
    }
  }

  lemma {:induction false} MapAdds(m: map<string, nat>, k: string, v: nat)
    requires k !in m
    ensures |m[k := v]| == |m| + 1
  {
    assert m[k := v].Keys == m.Keys + {k};
    assert |m| == |m.Keys| && |m[k := v]| == |m[k := v].Keys|;
  }

  lemma {:induction false} MapTakes(m: map<string, nat>, k: string)
    requires k in m
    ensures |m - {k}| == |m| - 1
  {
    assert (m - {k}).Keys == m.Keys - {k};
    assert |m| == |m.Keys| && |m - {k}| == |(m - {k}).Keys|;
  }
}
