/**
 The process-wide table of claimed ports. An apply checks, claims its new ports, takes the old inbound down,
 starts the new one and then lets go of whatever the surviving inbound does not use; applies and deletions of
 different tags interleave freely.
 */
module PortClaims {
  import opened Wire

  datatype L4 = Tcp | Udp

  datatype PortKey = PortKey(port: nat, l4: L4)

  type Ports = map<PortKey, string>

  // ------------------------------------------------------------------ the table's operations

  predicate Taken(ports: Ports, k: PortKey, tag: string) { k in ports && ports[k] != tag }

  predicate Conflicts(ports: Ports, keys: seq<PortKey>, tag: string) {
    exists i :: 0 <= i < |keys| && Taken(ports, keys[i], tag)
  }

  function Claim(ports: Ports, keys: seq<PortKey>, tag: string): Ports { ports + map k | k in keys :: tag }

  predicate Freed(ports: Ports, k: PortKey, tag: string, release: seq<PortKey>, keep: seq<PortKey>) {
    k in release && k !in keep && k in ports && ports[k] == tag
  }

  /** Frees the tag's own keys that are to be released and not kept, and no other. */
  function Release(ports: Ports, tag: string, release: seq<PortKey>, keep: seq<PortKey>): Ports {
    map k | k in ports && !Freed(ports, k, tag, release, keep) :: ports[k]
  }

  datatype PortInUse = PortInUse(port: nat, tcp: bool, udp: bool, owner: string)

  predicate HeldOn(ports: Ports, keys: seq<PortKey>, owner: string, l4: L4) {
    exists i :: 0 <= i < |keys| && keys[i].l4 == l4 && keys[i] in ports && ports[keys[i]] == owner
  }

  /** The first key someone else holds, and all transports that holder has among the keys. */
  method Conflict(ports: Ports, keys: seq<PortKey>, tag: string) returns (conflict: Option<PortInUse>)
    ensures conflict.Some? <==> Conflicts(ports, keys, tag)
    ensures conflict.Some? ==>
              && conflict.value.owner != tag
              && (exists i :: 0 <= i < |keys| && keys[i].port == conflict.value.port && Taken(ports, keys[i], tag)
                    && ports[keys[i]] == conflict.value.owner && forall j :: 0 <= j < i ==> !Taken(ports, keys[j], tag))
              && (conflict.value.tcp <==> HeldOn(ports, keys, conflict.value.owner, Tcp))
              && (conflict.value.udp <==> HeldOn(ports, keys, conflict.value.owner, Udp))
  {
    var i := 0;
    while i < |keys| && !Taken(ports, keys[i], tag)
      invariant i <= |keys| && forall j :: 0 <= j < i ==> !Taken(ports, keys[j], tag)
    {
      i := i + 1;
    }
    if i == |keys| {
      return None;
    }
    var owner, tcp, udp := ports[keys[i]], false, false;
    for j := 0 to |keys|
      invariant tcp <==> HeldOn(ports, keys[..j], owner, Tcp)
      invariant udp <==> HeldOn(ports, keys[..j], owner, Udp)
    {
      HeldSnoc(ports, keys, j, owner);
      if keys[j] in ports && ports[keys[j]] == owner {
        tcp, udp := tcp || keys[j].l4.Tcp?, udp || keys[j].l4.Udp?;
      }
    }
    assert keys[..|keys|] == keys;
    conflict := Some(PortInUse(keys[i].port, tcp, udp, owner));
  }

  lemma {:induction false} HeldSnoc(ports: Ports, keys: seq<PortKey>, j: nat, owner: string)
    requires j < |keys|
    ensures forall l4 :: HeldOn(ports, keys[..j + 1], owner, l4) <==>
                         HeldOn(ports, keys[..j], owner, l4) || (keys[j].l4 == l4 && keys[j] in ports && ports[keys[j]] == owner)
  {
    var a, b := keys[..j], keys[..j + 1];
    assert b == a + [keys[j]];
    forall l4 | HeldOn(ports, a, owner, l4)
      ensures HeldOn(ports, b, owner, l4)
    {
      var i :| 0 <= i < |a| && a[i].l4 == l4 && a[i] in ports && ports[a[i]] == owner;
      assert b[i] == a[i];
    }
    assert b[j] == keys[j];
  }

  method ReleasePorts(ports: Ports, tag: string, release: seq<PortKey>, keep: seq<PortKey>) returns (left: Ports)
    ensures left == Release(ports, tag, release, keep)
  {
    left := ports;
    for i := 0 to |release|
      invariant left == Release(ports, tag, release[..i], keep)
    {
      assert forall k :: k in release[..i + 1] <==> k in release[..i] || k == release[i];
      if release[i] !in keep && release[i] in left && left[release[i]] == tag {
        left := left - {release[i]};
      }
    }
    assert release[..|release|] == release;
  }

  // ------------------------------------------------------------------ applies and deletions

  /** Where an apply has come to; `had` is the ports its tag had before, `previous` the inbound it took down. */
  datatype Apply =
    | Checked(keys: seq<PortKey>)
    | Claimed(keys: seq<PortKey>, had: Option<seq<PortKey>>)
    | Down(keys: seq<PortKey>, had: Option<seq<PortKey>>, previous: Option<seq<PortKey>>)

  /** `inbounds` gives the ports each published inbound listens on. */
  datatype State = State(
    ports: Ports,
    tagPorts: map<string, seq<PortKey>>,
    inbounds: map<string, seq<PortKey>>,
    applies: map<string, Apply>)

  datatype Step =
    | Begin(tag: string, keys: seq<PortKey>)
    | Abandon(tag: string)
    | ClaimPorts(tag: string)
    | TakeDown(tag: string)
    | Started(tag: string)
    | Failed(tag: string, restored: bool)
    | Delete(tag: string)

  function Get<K, V>(m: map<K, V>, k: K): Option<V> { if k in m then Some(m[k]) else None }

  function Keys(o: Option<seq<PortKey>>): seq<PortKey> { if o.Some? then o.value else [] }

  function Start(): State { State(map[], map[], map[], map[]) }

  predicate Next(s: State, step: Step, t: State) {
    var tag := step.tag;
    match step
    case Begin(_, keys) =>
      && tag !in s.applies
      && t == if Conflicts(s.ports, keys, tag) then s else s.(applies := s.applies[tag := Checked(keys)])
    case Abandon(_) =>
      tag in s.applies && s.applies[tag].Checked? && t == s.(applies := s.applies - {tag})
    case ClaimPorts(_) =>
      && tag in s.applies && s.applies[tag].Checked?
      && var keys := s.applies[tag].keys;
         t == if Conflicts(s.ports, keys, tag) then s.(applies := s.applies - {tag})
              else s.(ports := Claim(s.ports, keys, tag), applies := s.applies[tag := Claimed(keys, Get(s.tagPorts, tag))])
    case TakeDown(_) =>
      && tag in s.applies && s.applies[tag].Claimed?
      && t == s.(inbounds := s.inbounds - {tag},
                 applies := s.applies[tag := Down(s.applies[tag].keys, s.applies[tag].had, Get(s.inbounds, tag))])
    case Started(_) =>
      && tag in s.applies && s.applies[tag].Down?
      && var a := s.applies[tag];
         t == s.(inbounds := s.inbounds[tag := a.keys], tagPorts := s.tagPorts[tag := a.keys], applies := s.applies - {tag},
                 ports := if a.had.Some? then Release(s.ports, tag, a.had.value, a.keys) else s.ports)
    case Failed(_, restored) =>
      && tag in s.applies && s.applies[tag].Down?
      && var a := s.applies[tag];
         t == if a.previous.Some? && restored
              then s.(inbounds := s.inbounds[tag := a.previous.value], applies := s.applies - {tag},
                      ports := Release(s.ports, tag, a.keys, Keys(a.had)))
              else s.(tagPorts := s.tagPorts - {tag}, applies := s.applies - {tag},
                      ports := Release(Release(s.ports, tag, a.keys, []), tag, Keys(a.had), []))
    case Delete(_) =>
      && tag !in s.applies
      && t == s.(inbounds := s.inbounds - {tag}, tagPorts := s.tagPorts - {tag},
                 ports := if tag in s.tagPorts then Release(s.ports, tag, s.tagPorts[tag], []) else s.ports)
  }

  // ------------------------------------------------------------------ what every step keeps

  /** The key is among the ports of the tag's inbound or is being claimed for its next one. */
  predicate Holds(s: State, tag: string, k: PortKey) {
    || (tag in s.tagPorts && k in s.tagPorts[tag])
    || (tag in s.applies && !s.applies[tag].Checked? && k in s.applies[tag].keys)
  }

  /** The tag's ports are its inbound's, also while that is down for a replacement. */
  predicate Matches(s: State, tag: string) {
    if tag !in s.applies || s.applies[tag].Checked? then Get(s.tagPorts, tag) == Get(s.inbounds, tag)
    else
      && s.applies[tag].had == Get(s.tagPorts, tag)
      && match s.applies[tag]
         case Claimed(_, had) => had == Get(s.inbounds, tag)
         case Down(_, had, previous) => tag !in s.inbounds && previous == had
  }

  ghost predicate Exact(s: State) { forall k, tag :: Holds(s, tag, k) <==> k in s.ports && s.ports[k] == tag }

  ghost predicate Good(s: State) { Exact(s) && forall tag :: Matches(s, tag) }

  /** A step of one tag leaves the others' holdings alone. */
  lemma {:induction false} OthersKeep(s: State, step: Step, t: State, other: string, k: PortKey)
    requires Next(s, step, t) && other != step.tag
    ensures Holds(t, other, k) == Holds(s, other, k) && Matches(t, other) == Matches(s, other)
  {
    hide Claim, Release, Conflicts, Keys;
  }

  lemma {:induction false} OwnKeeps(s: State, step: Step, t: State, k: PortKey)
    requires Next(s, step, t) && Good(s)
    ensures Holds(t, step.tag, k) <==> k in t.ports && t.ports[k] == step.tag
    ensures Matches(t, step.tag)
    ensures k in s.ports && s.ports[k] != step.tag ==> k in t.ports && t.ports[k] == s.ports[k]
    ensures k in t.ports && t.ports[k] != step.tag ==> k in s.ports && t.ports[k] == s.ports[k]
  {
    var tag := step.tag;
    assert Holds(s, tag, k) <==> k in s.ports && s.ports[k] == tag;
    assert Matches(s, tag);
    if step.ClaimPorts? && !Conflicts(s.ports, s.applies[tag].keys, tag) {
      assert k in s.applies[tag].keys ==> !Taken(s.ports, k, tag);
    }
  }

  lemma {:induction false} StepKeeps(s: State, step: Step, t: State)
    requires Next(s, step, t) && Good(s)
    ensures Good(t)
  {
    hide Next, Matches;
    forall k, tag
      ensures Holds(t, tag, k) <==> k in t.ports && t.ports[k] == tag
    {
      OwnKeeps(s, step, t, k);
      if tag != step.tag {
        OthersKeep(s, step, t, tag, k);
        assert Holds(s, tag, k) <==> k in s.ports && s.ports[k] == tag;
      }
    }
    forall tag
      ensures Matches(t, tag)
    {
      OwnKeeps(s, step, t, PortKey(0, Tcp));
      if tag != step.tag {
        OthersKeep(s, step, t, tag, PortKey(0, Tcp));
      }
    }
  }

  predicate Run(states: seq<State>, steps: seq<Step>) {
    && |states| == |steps| + 1 && states[0] == Start()
    && forall i :: 0 <= i < |steps| ==> Next(states[i], steps[i], states[i + 1])
  }

  /** In every run, a port is claimed by exactly the tag whose inbound or whose apply under way has it. */
  lemma {:induction false} ClaimsAreExact(states: seq<State>, steps: seq<Step>, n: nat)
    requires Run(states, steps) && n < |states|
    ensures Good(states[n])
  {
    if n > 0 {
      assert Next(states[n - 1], steps[n - 1], states[n]);
      hide Next, Good;
      ClaimsAreExact(states, steps, n - 1);
      StepKeeps(states[n - 1], steps[n - 1], states[n]);
    }
  }

  /** Two published inbounds never share a port and transport. */
  lemma {:induction false} InboundsAreDisjoint(states: seq<State>, steps: seq<Step>, n: nat, a: string, b: string, k: PortKey)
    requires Run(states, steps) && n < |states| && a != b
    requires a in states[n].inbounds && b in states[n].inbounds && k in states[n].inbounds[a]
    ensures k !in states[n].inbounds[b]
  {
    ClaimsAreExact(states, steps, n);
    var s := states[n];
    hide Run;
    assert Matches(s, a) && Matches(s, b);
    assert Holds(s, a, k);
    assert Holds(s, b, k) <==> k in s.ports && s.ports[k] == b;
  }

  /** When an apply ends, however it ends, its tag holds the ports of its published inbound and nothing else. */
  lemma {:induction false} ApplyEndsExact(states: seq<State>, steps: seq<Step>, n: nat, tag: string, k: PortKey)
    requires Run(states, steps) && n < |states| && tag !in states[n].applies
    ensures var s := states[n];
            k in s.ports && s.ports[k] == tag <==> tag in s.inbounds && k in s.inbounds[tag]
  {
    ClaimsAreExact(states, steps, n);
    var s := states[n];
    hide Run;
    assert Matches(s, tag);
    assert Holds(s, tag, k) <==> k in s.ports && s.ports[k] == tag;
  }

  /** The step gives the tag another inbound or none. */
  predicate Replaces(s: State, step: Step, tag: string) {
    && step.tag == tag
    && (step.Started? || step.Delete?
        || (step.Failed? && !(step.restored && tag in s.applies && s.applies[tag].Down? && s.applies[tag].previous.Some?)))
  }

  lemma {:induction false} TagPortsKept(states: seq<State>, steps: seq<Step>, i: nat, j: nat, tag: string)
    requires Run(states, steps) && i <= j < |states|
    requires forall m :: i <= m < j ==> !Replaces(states[m], steps[m], tag)
    ensures Get(states[j].tagPorts, tag) == Get(states[i].tagPorts, tag)
    decreases j - i
  {
    if i < j {
      TagPortsKept(states, steps, i, j - 1, tag);
      assert Next(states[j - 1], steps[j - 1], states[j - 1 + 1]) && !Replaces(states[j - 1], steps[j - 1], tag);
      hide Run, Claim, Release, Conflicts, Keys;
    }
  }

  /**
   Applies of a tag that were refused at either check, abandoned, or failed with the previous inbound started again
   leave no trace, whatever other tags do meanwhile: the tag has the inbound and holds the ports it did before.
   */
  lemma {:induction false} FailedApplyLeavesNoTrace(states: seq<State>, steps: seq<Step>, i: nat, j: nat, tag: string, k: PortKey)
    requires Run(states, steps) && i <= j < |states|
    requires tag !in states[i].applies && tag !in states[j].applies
    requires forall m :: i <= m < j ==> !Replaces(states[m], steps[m], tag)
    ensures var s, t := states[i], states[j];
            && Get(t.inbounds, tag) == Get(s.inbounds, tag)
            && (k in t.ports && t.ports[k] == tag <==> k in s.ports && s.ports[k] == tag)
  {
    TagPortsKept(states, steps, i, j, tag);
    ClaimsAreExact(states, steps, i);
    ClaimsAreExact(states, steps, j);
    hide Run, Replaces;
    assert Matches(states[i], tag) && Matches(states[j], tag);
    ApplyEndsExact(states, steps, i, tag, k);
    ApplyEndsExact(states, steps, j, tag, k);
  }

  /** An apply gets past its check exactly if no other tag holds one of its ports. */
  lemma {:induction false} BeginChecks(s: State, tag: string, keys: seq<PortKey>, t: State)
    requires Next(s, Begin(tag, keys), t)
    ensures tag in t.applies <==> forall k :: k in keys && k in s.ports ==> s.ports[k] == tag
  {
    ConflictsExactly(s.ports, keys, tag);
    hide Conflicts;
  }

  /** And then it can go all the way: its inbound is published and has its ports, and no other tag's is touched. */
  lemma {:induction false} CanPublish(s: State, tag: string, keys: seq<PortKey>) returns (t: seq<State>)
    requires tag !in s.applies && forall k :: k in keys && k in s.ports ==> s.ports[k] == tag
    ensures |t| == 5 && t[0] == s && Next(t[0], Begin(tag, keys), t[1]) && Next(t[1], ClaimPorts(tag), t[2])
    ensures Next(t[2], TakeDown(tag), t[3]) && Next(t[3], Started(tag), t[4])
    ensures t[4].inbounds == s.inbounds[tag := keys] && tag !in t[4].applies
    ensures forall k :: k in keys ==> k in t[4].ports && t[4].ports[k] == tag
  {
    ConflictsExactly(s.ports, keys, tag);
    hide Conflicts, Claim, Release;
    var had, previous := Get(s.tagPorts, tag), Get(s.inbounds, tag);
    var claimed := Claim(s.ports, keys, tag);
    var t1 := s.(applies := s.applies[tag := Checked(keys)]);
    var t2 := t1.(ports := claimed, applies := s.applies[tag := Claimed(keys, had)]);
    var t3 := t2.(inbounds := s.inbounds - {tag}, applies := s.applies[tag := Down(keys, had, previous)]);
    var t4 := t3.(inbounds := s.inbounds[tag := keys], tagPorts := s.tagPorts[tag := keys], applies := s.applies,
                  ports := if had.Some? then Release(claimed, tag, had.value, keys) else claimed);
    assert t1.applies[tag := Claimed(keys, had)] == s.applies[tag := Claimed(keys, had)];
    assert t2.applies[tag := Down(keys, had, previous)] == s.applies[tag := Down(keys, had, previous)];
    assert t3.applies - {tag} == s.applies && t3.inbounds[tag := keys] == s.inbounds[tag := keys];
    ClaimedKept(s.ports, keys, tag, Keys(had));
    t := [s, t1, t2, t3, t4];
  }

  lemma {:induction false} ClaimedKept(ports: Ports, keys: seq<PortKey>, tag: string, release: seq<PortKey>)
    ensures var claimed := Claim(ports, keys, tag);
            forall k :: k in keys ==>
                          && k in claimed && claimed[k] == tag
                          && k in Release(claimed, tag, release, keys) && Release(claimed, tag, release, keys)[k] == tag
  {
  }

  // ------------------------------------------------------------------ the core, one operation at a time

  lemma {:induction false} ClaimSnoc(ports: Ports, keys: seq<PortKey>, k: PortKey, tag: string)
    ensures Claim(ports, keys + [k], tag) == Claim(ports, keys, tag)[k := tag]
  {
  }

  datatype Outcome = Refused | Published | Restored | Lost

  class NativeCore {
    var ports: Ports
    var tagPorts: map<string, seq<PortKey>>
    var inbounds: map<string, seq<PortKey>>

    ghost function View(applies: map<string, Apply>): State
      reads this
    {
      State(ports, tagPorts, inbounds, applies)
    }

    ghost predicate Valid()
      reads this
    {
      Good(View(map[]))
    }

    constructor ()
      ensures Valid() && inbounds == map[]
    {
      ports, tagPorts, inbounds := map[], map[], map[];
    }

    method ClaimAll(keys: seq<PortKey>, tag: string)
      modifies this`ports
      ensures ports == Claim(old(ports), keys, tag)
    {
      for i := 0 to |keys|
        invariant ports == Claim(old(ports), keys[..i], tag)
      {
        assert keys[..i + 1] == keys[..i] + [keys[i]];
        ClaimSnoc(old(ports), keys[..i], keys[i], tag);
        hide Claim;
        ports := ports[keys[i] := tag];
      }
      assert keys[..|keys|] == keys;
    }

    /** Claims the new ports and takes the old inbound down. */
    method TakeOver(tag: string, keys: seq<PortKey>) returns (had: Option<seq<PortKey>>, previous: Option<seq<PortKey>>)
      requires Valid() && !Conflicts(ports, keys, tag)
      modifies this
      ensures had == Get(old(tagPorts), tag) && previous == Get(old(inbounds), tag) && previous == had
      ensures tagPorts == old(tagPorts) && inbounds == old(inbounds) - {tag}
      ensures Good(View(map[tag := Down(keys, had, previous)]))
    {
      ghost var s0 := View(map[]);
      assert Matches(s0, tag);
      hide Good;
      ghost var s1 := s0.(applies := map[tag := Checked(keys)]);
      StepKeeps(s0, Begin(tag, keys), s1);
      had, previous := Get(tagPorts, tag), Get(inbounds, tag);
      ClaimAll(keys, tag);
      ghost var s2 := View(map[tag := Claimed(keys, had)]);
      StepKeeps(s1, ClaimPorts(tag), s2);
      inbounds := inbounds - {tag};
      StepKeeps(s2, TakeDown(tag), View(map[tag := Down(keys, had, previous)]));
    }

    /**
     One apply from start to end. Whether the candidate can be built, whether it starts, and whether the
     previous inbound can be started again are up to code not modelled here.
     */
    method ApplyInbound(tag: string, keys: seq<PortKey>, builds: bool, starts: bool, restores: bool) returns (outcome: Outcome)
      requires Valid()
      modifies this
      ensures Valid()
      ensures outcome == if Conflicts(old(ports), keys, tag) || !builds then Refused
                         else if starts then Published
                         else if tag in old(inbounds) && restores then Restored
                         else Lost
      ensures outcome == Refused <==> !builds || exists k :: k in keys && k in old(ports) && old(ports)[k] != tag
      ensures HoldsJust(View(map[]), tag)
      ensures outcome == Refused ==> (ports, tagPorts, inbounds) == (old(ports), old(tagPorts), old(inbounds))
      ensures outcome == Published ==> inbounds == old(inbounds)[tag := keys]
      ensures outcome == Restored ==> inbounds == old(inbounds) && tag in inbounds && ports == old(ports)
      ensures outcome == Lost ==> inbounds == old(inbounds) - {tag}
    {
      hide Good;
      var conflict := Conflict(ports, keys, tag);
      ConflictsExactly(ports, keys, tag);
      if conflict.Some? || !builds {
        IdleHolds(View(map[]), tag);
        return Refused;
      }
      ghost var before := View(map[]);
      var had, previous := TakeOver(tag, keys);
      Settle(tag, keys, had, previous, starts, restores);
      IdleHolds(View(map[]), tag);
      hide HoldsJust;
      outcome := if starts then Published else if previous.Some? && restores then Restored else Lost;
      if outcome == Restored {
        assert tagPorts == before.tagPorts;
        forall k
          ensures k in ports <==> k in old(ports)
          ensures k in ports ==> ports[k] == old(ports)[k]
        {
          SameHoldings(View(map[]), before, k);
        }
      }
    }

    /** The end of an apply, after the old inbound was taken down. */
    method Settle(tag: string, keys: seq<PortKey>, had: Option<seq<PortKey>>, previous: Option<seq<PortKey>>, starts: bool, restores: bool)
      requires Good(View(map[tag := Down(keys, had, previous)]))
      modifies this
      ensures Valid()
      ensures inbounds == if starts then old(inbounds)[tag := keys]
                          else if previous.Some? && restores then old(inbounds)[tag := previous.value] else old(inbounds)
      ensures !starts && previous.Some? && restores ==> tagPorts == old(tagPorts)
    {
      ghost var s := View(map[tag := Down(keys, had, previous)]);
      ghost var step := if starts then Started(tag) else Failed(tag, restores);
      assert s.applies - {tag} == map[];
      if starts {
        inbounds := inbounds[tag := keys];
        if had.Some? {
          ports := ReleasePorts(ports, tag, had.value, keys);
        }
        tagPorts := tagPorts[tag := keys];
      } else if previous.Some? && restores {
        inbounds := inbounds[tag := previous.value];
        ports := ReleasePorts(ports, tag, keys, Keys(had));
      } else {
        ports := ReleasePorts(ports, tag, keys, []);
        ports := ReleasePorts(ports, tag, Keys(had), []);
        tagPorts := tagPorts - {tag};
      }
      StepKeeps(s, step, View(map[]));
    }

    method DelInbound(tag: string)
      requires Valid()
      modifies this
      ensures Valid() && inbounds == old(inbounds) - {tag} && tagPorts == old(tagPorts) - {tag}
      ensures forall k :: k in ports ==> ports[k] != tag
    {
      ghost var s := View(map[]);
      inbounds := inbounds - {tag};
      if tag in tagPorts {
        ports := ReleasePorts(ports, tag, tagPorts[tag], []);
      }
      tagPorts := tagPorts - {tag};
      StepKeeps(s, Delete(tag), View(map[]));
      forall k | k in ports
        ensures ports[k] != tag
      {
        assert Holds(View(map[]), tag, k) <==> k in ports && ports[k] == tag;
      }
    }
  }

  /** The tag holds exactly the ports of its published inbound, and none if it has none. */
  ghost predicate HoldsJust(s: State, tag: string) {
    forall k :: k in s.ports && s.ports[k] == tag <==> tag in s.inbounds && k in s.inbounds[tag]
  }

  lemma {:induction false} IdleHolds(s: State, tag: string)
    requires Good(s) && tag !in s.applies
    ensures HoldsJust(s, tag)
  {
    assert Matches(s, tag);
    assert forall k :: Holds(s, tag, k) <==> k in s.ports && s.ports[k] == tag;
  }

  lemma {:induction false} ConflictsExactly(ports: Ports, keys: seq<PortKey>, tag: string)
    ensures Conflicts(ports, keys, tag) <==> exists k :: k in keys && k in ports && ports[k] != tag
  {
    if Conflicts(ports, keys, tag) {
      var i :| 0 <= i < |keys| && Taken(ports, keys[i], tag);
      assert keys[i] in keys;
    }
    if k :| k in keys && k in ports && ports[k] != tag {
      var i :| 0 <= i < |keys| && keys[i] == k;
      assert Taken(ports, keys[i], tag);
    }
  }

  /** A restored inbound leaves the claims exactly as they were. */
  lemma {:induction false} SameHoldings(a: State, b: State, k: PortKey)
    requires Good(a) && Good(b) && a.tagPorts == b.tagPorts && a.applies == b.applies == map[]
    ensures k in a.ports <==> k in b.ports
    ensures k in a.ports ==> a.ports[k] == b.ports[k]
  {
    if k in a.ports {
      assert Holds(a, a.ports[k], k) && Holds(b, a.ports[k], k);
    }
    if k in b.ports {
      assert Holds(b, b.ports[k], k) && Holds(a, b.ports[k], k);
    }
  }
}
