/**
 The traffic of one inbound tag through every generation of its adapter: counted by relays, taken by
 GetTraffic in two steps, and stashed when a generation is replaced or deleted.
 */
module KernelTraffic {
  import opened Wire
  import opened UserSessions

  datatype Stage = Running | Closing | Closed

  /** One adapter generation: its session table, who retains what, and whether it has been closed. */
  datatype Generation = Generation(table: Table, retained: multiset<int>, stage: Stage)

  /** A GetTraffic call between taking the retired traffic and reading the generation it found. */
  datatype Reader = Reader(hand: seq<Traffic>, inbound: Option<nat>) | Done

  datatype State = State(
    generations: seq<Generation>,
    published: Option<nat>,
    retired: seq<Traffic>,
    readers: seq<Reader>,
    counted: seq<Traffic>,
    handed: seq<Traffic>)

  datatype Op =
    | OpOpen(id: int, epoch: nat)
    | OpClose(s: nat)
    | OpRetain(id: int)
    | OpRelease(c: nat)
    | OpRevoke(id: int, now: int)

  datatype Step =
    | Create
    | Publish(g: nat)
    | Unpublish
    | Retire(g: nat)
    | FinishClose(g: nat)
    | Stash(g: nat, out: seq<Traffic>)
    | Session(g: nat, op: Op)
    | Count(g: nat, c: nat, up: nat, down: nat)
    | ReadStart
    | ReadEnd(r: nat, live: Option<seq<Traffic>>)

  function Start(): State { State([], None, [], [], [], []) }

  ghost predicate Operates(x: Generation, op: Op, y: Generation) {
    && y.stage == x.stage && Sound(x.table)
    && match op
       case OpOpen(id, epoch) =>
         y.retained == x.retained && y.table == if Open(x.table, id, epoch).Some? then Open(x.table, id, epoch).value else x.table
       case OpClose(s) => s < |x.table.sessions| && y.retained == x.retained && y.table == Close(x.table, s)
       case OpRetain(id) => var (t, c) := Retain(x.table, id); y.table == t && y.retained == x.retained + multiset{c}
       case OpRelease(c) =>
         && c in x.retained && c < |x.table.counters|
         && y.table == Refs(x.table, c, -1) && y.retained == x.retained - multiset{c}
       case OpRevoke(id, now) => y.retained == x.retained && y.table == RevokeOne(x.table, id, now)
  }

  /** The counter is held by a connection or retained. */
  ghost predicate Held(x: Generation, c: nat) {
    && c < |x.table.counters|
    && (c in x.retained || exists s :: 0 <= s < |x.table.sessions| && x.table.sessions[s].open && x.table.sessions[s].counter == c)
  }

  ghost predicate Taking(s: State, g: nat, out: seq<Traffic>, y: Generation)
    requires g < |s.generations|
  {
    var x := s.generations[g];
    y.stage == x.stage && y.retained == x.retained && Snapshots(x.table, x.retained, out, y.table)
  }

  /** While a generation is closing its lock is held, so no reader gets past it until it is closed. */
  ghost predicate Next(s: State, step: Step, t: State) {
    match step
    case Create => t == s.(generations := s.generations + [Generation(Empty(), multiset{}, Running)])
    case Publish(g) => g < |s.generations| && t == s.(published := Some(g))
    case Unpublish => t == s.(published := None)
    case Retire(g) =>
      && g < |s.generations| && s.generations[g].stage.Running?
      && t == s.(generations := s.generations[g := s.generations[g].(stage := Closing)])
    case FinishClose(g) =>
      && g < |s.generations| && s.generations[g].stage.Closing?
      && t == s.(generations := s.generations[g := s.generations[g].(stage := Closed)])
    case Stash(g, out) =>
      && g < |s.generations| && s.generations[g].stage.Closed? && |t.generations| == |s.generations|
      && Taking(s, g, out, t.generations[g])
      && t == s.(generations := s.generations[g := t.generations[g]], retired := s.retired + out)
    case Session(g, op) =>
      && g < |s.generations| && |t.generations| == |s.generations|
      && Operates(s.generations[g], op, t.generations[g])
      && t == s.(generations := s.generations[g := t.generations[g]])
    case Count(g, c, up, down) =>
      && g < |s.generations| && !s.generations[g].stage.Closed? && Held(s.generations[g], c)
      && var x := s.generations[g];
         t == s.(generations := s.generations[g := x.(table := UserSessions.Count(x.table, c, up, down))],
                 counted := s.counted + [Traffic(x.table.counters[c].user, up, down)])
    case ReadStart =>
      t == s.(readers := s.readers + [Reader(s.retired, s.published)], retired := [])
    case ReadEnd(r, live) =>
      && r < |s.readers| && s.readers[r].Reader?
      && var hand, inbound, left := s.readers[r].hand, s.readers[r].inbound, s.readers[r := Done];
         if inbound.None? then t == s.(readers := left, handed := s.handed + hand)
         else
           var g := inbound.value;
           && g < |s.generations| && !s.generations[g].stage.Closing?
           && if s.generations[g].stage.Closed? then t == s.(readers := left, handed := s.handed + hand)
              else if live.None? then t == s.(readers := left, retired := hand + s.retired)
              else
                && |t.generations| == |s.generations| && Taking(s, g, live.value, t.generations[g])
                && t == s.(readers := left, handed := s.handed + (hand + live.value),
                           generations := s.generations[g := t.generations[g]])
  }

  function Live(gs: seq<Generation>, id: int, d: Direction): nat {
    if gs == [] then 0 else Value(gs[0].table, id, d) + Live(gs[1..], id, d)
  }

  function InHand(rs: seq<Reader>, id: int, d: Direction): nat {
    if rs == [] then 0 else (if rs[0].Done? then 0 else Reported(rs[0].hand, id, d)) + InHand(rs[1..], id, d)
  }

  ghost predicate Good(s: State) {
    forall g :: 0 <= g < |s.generations| ==> Inv(s.generations[g].table, s.generations[g].retained)
  }

  ghost predicate Conserved(s: State, id: int, d: Direction) {
    Reported(s.counted, id, d) ==
    Reported(s.handed, id, d) + InHand(s.readers, id, d) + Reported(s.retired, id, d) + Live(s.generations, id, d)
  }

  // ------------------------------------------------------------------ sums

  lemma {:induction false} ReportedAppend(a: seq<Traffic>, b: seq<Traffic>, id: int, d: Direction)
    ensures Reported(a + b, id, d) == Reported(a, id, d) + Reported(b, id, d)
  {
    if a == [] {
      assert a + b == b;
    } else {
      assert (a + b)[1..] == a[1..] + b;
      ReportedAppend(a[1..], b, id, d);
    }
  }

  lemma {:induction false} LiveUpdate(gs: seq<Generation>, g: nat, x: Generation, id: int, d: Direction)
    requires g < |gs|
    ensures Live(gs[g := x], id, d) + Value(gs[g].table, id, d) == Live(gs, id, d) + Value(x.table, id, d)
  {
    var hs := gs[g := x];
    if g == 0 {
      assert hs[1..] == gs[1..];
    } else {
      assert hs[1..] == gs[1..][g - 1 := x];
      LiveUpdate(gs[1..], g - 1, x, id, d);
    }
  }

  lemma {:induction false} LiveSnoc(gs: seq<Generation>, x: Generation, id: int, d: Direction)
    ensures Live(gs + [x], id, d) == Live(gs, id, d) + Value(x.table, id, d)
  {
    if gs == [] {
      assert gs + [x] == [x] && [x][1..] == gs;
    } else {
      assert (gs + [x])[1..] == gs[1..] + [x];
      LiveSnoc(gs[1..], x, id, d);
    }
  }

  lemma {:induction false} InHandDone(rs: seq<Reader>, r: nat, id: int, d: Direction)
    requires r < |rs| && rs[r].Reader?
    ensures InHand(rs[r := Done], id, d) + Reported(rs[r].hand, id, d) == InHand(rs, id, d)
  {
    var qs := rs[r := Done];
    if r == 0 {
      assert qs[1..] == rs[1..];
    } else {
      assert qs[1..] == rs[1..][r - 1 := Done];
      InHandDone(rs[1..], r - 1, id, d);
    }
  }

  lemma {:induction false} InHandSnoc(rs: seq<Reader>, x: Reader, id: int, d: Direction)
    requires x.Reader?
    ensures InHand(rs + [x], id, d) == InHand(rs, id, d) + Reported(x.hand, id, d)
  {
    if rs == [] {
      assert rs + [x] == [x] && [x][1..] == rs;
    } else {
      assert (rs + [x])[1..] == rs[1..] + [x];
      InHandSnoc(rs[1..], x, id, d);
    }
  }

  // ------------------------------------------------------------------ what every step keeps

  lemma {:induction false} OperateKeeps(x: Generation, op: Op, y: Generation, id: int, d: Direction)
    requires Operates(x, op, y) && Inv(x.table, x.retained)
    ensures Inv(y.table, y.retained) && Value(y.table, id, d) == Value(x.table, id, d)
  {
    match op
    case OpOpen(user, epoch) =>
      ValuesKept(x.table, user, epoch, 0, 0, id, d);
      if Open(x.table, user, epoch).Some? {
        OpenKeeps(x.table, user, epoch, x.retained);
      }
      hide Inv, Open, Value, Sound;
    case OpClose(s) =>
      ValuesKept(x.table, 0, 0, s, 0, id, d);
      CloseKeeps(x.table, s, x.retained);
      hide Inv, Close, Value, Sound;
    case OpRetain(user) =>
      ValuesKept(x.table, user, 0, 0, 0, id, d);
      RetainKeeps(x.table, user, x.retained);
      hide Inv, Retain, Value, Sound;
    case OpRelease(c) =>
      ReleaseKeeps(x.table, c, x.retained);
    case OpRevoke(user, now) =>
      ValuesKept(x.table, user, 0, 0, now, id, d);
      RevokeKeeps(x.table, user, now, x.retained);
      hide Inv, RevokeOne, Value, Sound;
  }

  lemma {:induction false} CountStepKeeps(s: State, step: Step, t: State, id: int, d: Direction)
    requires Next(s, step, t) && step.Count? && Good(s) && Conserved(s, id, d)
    ensures Good(t) && Conserved(t, id, d)
  {
    var x := s.generations[step.g];
    HeldCountArrives(x.table, step.c, step.up, step.down, x.retained, id, d);
    CountKeeps(x.table, step.c, step.up, step.down, x.retained);
    LiveUpdate(s.generations, step.g, t.generations[step.g], id, d);
    ReportedSnoc(s.counted, Traffic(x.table.counters[step.c].user, step.up, step.down), id, d);
    hide Inv, Value, Live, Reported, InHand, Held;
  }

  lemma {:induction false} SessionStepKeeps(s: State, step: Step, t: State, id: int, d: Direction)
    requires Next(s, step, t) && step.Session? && Good(s) && Conserved(s, id, d)
    ensures Good(t) && Conserved(t, id, d)
  {
    hide Inv, Value, Live, Reported, InHand, Operates;
    OperateKeeps(s.generations[step.g], step.op, t.generations[step.g], id, d);
    LiveUpdate(s.generations, step.g, t.generations[step.g], id, d);
  }

  lemma {:induction false} StashKeeps(s: State, step: Step, t: State, id: int, d: Direction)
    requires Next(s, step, t) && step.Stash? && Good(s) && Conserved(s, id, d)
    ensures Good(t) && Conserved(t, id, d)
  {
    hide Inv, Value, Live, Reported, InHand;
    LiveUpdate(s.generations, step.g, t.generations[step.g], id, d);
    ReportedAppend(s.retired, step.out, id, d);
  }

  lemma {:induction false} ReadKeeps(s: State, step: Step, t: State, id: int, d: Direction)
    requires Next(s, step, t) && step.ReadEnd? && Good(s) && Conserved(s, id, d)
    ensures Good(t) && Conserved(t, id, d)
  {
    hide Inv, Value, Live, Reported, InHand;
    var r := s.readers[step.r];
    InHandDone(s.readers, step.r, id, d);
    ReportedAppend(s.handed, r.hand, id, d);
    ReportedAppend(r.hand, s.retired, id, d);
    if r.inbound.Some? && step.live.Some? && s.generations[r.inbound.value].stage.Running? {
      ReportedAppend(s.handed, r.hand + step.live.value, id, d);
      ReportedAppend(r.hand, step.live.value, id, d);
      LiveUpdate(s.generations, r.inbound.value, t.generations[r.inbound.value], id, d);
    }
  }

  lemma {:induction false} OtherStepKeeps(s: State, step: Step, t: State, id: int, d: Direction)
    requires Next(s, step, t) && Good(s) && Conserved(s, id, d)
    requires step.Create? || step.Publish? || step.Unpublish? || step.Retire? || step.FinishClose? || step.ReadStart?
    ensures Good(t) && Conserved(t, id, d)
  {
    match step
    case Create =>
      EmptyIsGood(id, d);
      LiveSnoc(s.generations, Generation(Empty(), multiset{}, Running), id, d);
      hide Inv, Value, Live, Reported, InHand;
    case Retire(g) =>
      hide Inv, Value, Live, Reported, InHand;
      LiveUpdate(s.generations, g, t.generations[g], id, d);
    case FinishClose(g) =>
      hide Inv, Value, Live, Reported, InHand;
      LiveUpdate(s.generations, g, t.generations[g], id, d);
    case ReadStart =>
      InHandSnoc(s.readers, Reader(s.retired, s.published), id, d);
      hide Inv, Value, Live, InHand;
    case _ =>
      hide Inv, Value, Live, Reported, InHand;
  }

  lemma {:induction false} EmptyIsGood(id: int, d: Direction)
    ensures Inv(Empty(), multiset{}) && Value(Empty(), id, d) == 0
  {
    assert Registered(map[], []) == {};
  }

  lemma {:induction false} StepKeeps(s: State, step: Step, t: State, id: int, d: Direction)
    requires Next(s, step, t) && Good(s) && Conserved(s, id, d)
    ensures Good(t) && Conserved(t, id, d)
  {
    hide Next, Good, Conserved;
    match step
    case Count(_, _, _, _) => CountStepKeeps(s, step, t, id, d);
    case Session(_, _) => SessionStepKeeps(s, step, t, id, d);
    case Stash(_, _) => StashKeeps(s, step, t, id, d);
    case ReadEnd(_, _) => ReadKeeps(s, step, t, id, d);
    case _ => OtherStepKeeps(s, step, t, id, d);
  }

  ghost predicate Run(states: seq<State>, steps: seq<Step>) {
    && |states| == |steps| + 1 && states[0] == Start()
    && forall i :: 0 <= i < |steps| ==> Next(states[i], steps[i], states[i + 1])
  }

  /** Every byte counted is handed out, in a reader's hand, stashed or still live, exactly once. */
  lemma {:induction false} TrafficIsConserved(states: seq<State>, steps: seq<Step>, n: nat, id: int, d: Direction)
    requires Run(states, steps) && n < |states|
    ensures Good(states[n]) && Conserved(states[n], id, d)
  {
    if n > 0 {
      hide Next, Good, Conserved;
      assert Next(states[n - 1], steps[n - 1], states[n - 1 + 1]);
      TrafficIsConserved(states, steps, n - 1, id, d);
      StepKeeps(states[n - 1], steps[n - 1], states[n], id, d);
    }
  }

  /** What a read hands out: all its generation has counted and all that was retired; on failure nothing, and nothing is lost. */
  lemma {:induction false} ReadHandsOut(s: State, step: Step, t: State, id: int, d: Direction)
    requires Next(s, step, t) && step.ReadEnd?
    ensures var r := s.readers[step.r];
            var g := if r.inbound.Some? then r.inbound.value else 0;
            var live := r.inbound.Some? && s.generations[g].stage.Running?;
            && t.readers[step.r].Done?
            && (!live ==> t.handed == s.handed + r.hand && t.retired == s.retired && t.generations == s.generations)
            && (live && step.live.None? ==> t.handed == s.handed && t.retired == r.hand + s.retired && t.generations == s.generations)
            && (live && step.live.Some? ==>
                  && t.retired == s.retired && |t.generations| == |s.generations| && Value(t.generations[g].table, id, d) == 0
                  && Reported(t.handed, id, d) ==
                     Reported(s.handed, id, d) + Reported(r.hand, id, d) + Value(s.generations[g].table, id, d))
  {
    hide Inv, Value, Reported;
    var r := s.readers[step.r];
    if step.live.Some? {
      ReportedAppend(s.handed, r.hand + step.live.value, id, d);
      ReportedAppend(r.hand, step.live.value, id, d);
    }
  }

  /** What a closed generation had counted is retired, once. */
  lemma {:induction false} StashTakes(s: State, step: Step, t: State, id: int, d: Direction)
    requires Next(s, step, t) && step.Stash?
    ensures |t.generations| == |s.generations| && Value(t.generations[step.g].table, id, d) == 0 && t.handed == s.handed
    ensures Reported(t.retired, id, d) == Reported(s.retired, id, d) + Value(s.generations[step.g].table, id, d)
  {
    hide Inv, Value, Reported;
    ReportedAppend(s.retired, step.out, id, d);
  }

  // ------------------------------------------------------------------ one tag by itself

  /** What the core keeps for a tag: traffic of retired generations, and the inbound it publishes. */
  class TagTraffic {
    var retired: seq<Traffic>
    var inbound: SessionTable?

    ghost predicate Valid()
      reads this, inbound
    {
      inbound != null ==> inbound.Valid()
    }

    /** What has been counted and not yet handed out. */
    ghost function Owed(id: int, d: Direction): nat
      reads this, inbound
    {
      Reported(retired, id, d) + if inbound == null then 0 else Value(inbound.View(), id, d)
    }

    constructor ()
      ensures Valid() && retired == [] && inbound == null
    {
      retired, inbound := [], null;
    }

    /** Hands out everything owed, or nothing; a failed snapshot puts the retired traffic back. */
    method GetTraffic(fails: bool) returns (out: seq<Traffic>, ok: bool)
      requires Valid()
      modifies this`retired, inbound
      ensures Valid()
      ensures forall id, d :: Reported(out, id, d) + Owed(id, d) == old(Owed(id, d))
      ensures ok <==> if inbound != null then !fails else old(retired) != []
      ensures ok ==> forall id, d :: Owed(id, d) == 0
      ensures !ok ==> out == [] && forall id, d :: Owed(id, d) == old(Owed(id, d))
    {
      hide Inv, Value;
      var taken := retired;
      retired := [];
      if inbound == null {
        return taken, taken != [];
      }
      if fails {
        retired := taken + retired;
        assert retired == taken;
        return [], false;
      }
      var live := inbound.Snapshot();
      out, ok := taken + live, true;
      forall id, d
        ensures Reported(out, id, d) == Reported(taken, id, d) + Reported(live, id, d)
      {
        ReportedAppend(taken, live, id, d);
      }
    }

    /** Replaces or removes the inbound; the old one's final counts are stashed. */
    method Replace(next: SessionTable?)
      requires Valid() && (next != null ==> next.Valid() && next != inbound && next.View() == Empty())
      modifies this, inbound
      ensures Valid() && inbound == next
      ensures forall id, d :: Owed(id, d) == old(Owed(id, d))
    {
      if inbound != null {
        Stash();
      }
      inbound := next;
    }

    method Stash()
      requires Valid() && inbound != null
      modifies this`retired, inbound
      ensures Valid() && forall id, d :: Owed(id, d) == old(Owed(id, d)) && Value(inbound.View(), id, d) == 0
    {
      hide Inv, Value;
      ghost var before := retired;
      var live := inbound.Snapshot();
      retired := retired + live;
      forall id, d
        ensures Reported(retired, id, d) == Reported(before, id, d) + Reported(live, id, d)
      {
        ReportedAppend(before, live, id, d);
      }
    }
  }
}
