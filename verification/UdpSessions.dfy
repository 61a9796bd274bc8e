/**
 Shadowsocks UDP sessions over their whole life: opening in stages that may each be refused, giving the device
 up when idle and taking it again, moving to another address, finishing.
 */
module UdpSessions {
  import opened Wire
  import opened UdpResources

  /** Each user's device limit (zero for none), and the device an address belongs to. */
  datatype Env = Env(limit: int -> nat, device: string -> string)

  datatype Stage =
    | Acquired           // has a quota slot, is about to enter its device
    | Entered            // has both, is about to be registered
    | Rejected           // failed to open, owes its quota slot
    | Live
    | Moving(to: string) // has left its old device, is about to enter the new one

  /** `quota` and `device` say what the session holds; `done` that it may not take a device any more. */
  datatype Session = Session(user: int, ip: string, stage: Stage, quota: bool, device: bool, done: bool)

  datatype State = State(quota: Quota, devices: Devices, sessions: seq<Session>)

  datatype Step =
    | Acquire(user: int, ip: string)
    | Enter(n: nat)
    | Register(n: nat, revoked: bool)
    | GiveBack(n: nat)
    | Hold(n: nat)
    | ReleaseIdle(n: nat)
    | Roam(n: nat, to: string)
    | RoamEnter(n: nat)
    | FinishQuota(n: nat)
    | FinishDevice(n: nat)

  function Start(): State { State(map[], map[], []) }

  function With(s: State, n: nat, x: Session, d: Devices): State
    requires n < |s.sessions|
  {
    s.(sessions := s.sessions[n := x], devices := d)
  }

  function Enters(e: Env, d: Devices, x: Session, ip: string): Devices { UdpResources.Entered(d, x.user, e.device(ip)) }

  function Leaves(e: Env, d: Devices, x: Session): Devices { Left(d, x.user, e.device(x.ip)) }

  predicate Fits(e: Env, d: Devices, x: Session, ip: string) { Admits(d, x.user, e.limit(x.user), e.device(ip)) }

  predicate Next(e: Env, s: State, step: Step, t: State) {
    if step.Acquire? then
      t == if Used(s.quota, step.user) >= SESSIONS_PER_USER then s
           else s.(quota := UdpResources.Acquired(s.quota, step.user),
                   sessions := s.sessions + [Session(step.user, step.ip, Acquired, true, false, false)])
    else
      && step.n < |s.sessions|
      && var x, n, d := s.sessions[step.n], step.n, s.devices;
         match step
         case Enter(_) =>
           && x.stage.Acquired?
           && t == if Fits(e, d, x, x.ip) then With(s, n, x.(stage := Entered, device := true), Enters(e, d, x, x.ip))
                   else With(s, n, x.(stage := Rejected), d)
         case Register(_, revoked) =>
           && x.stage.Entered?
           && t == if revoked then With(s, n, x.(stage := Rejected, device := false), Leaves(e, d, x))
                   else With(s, n, x.(stage := Live), d)
         case GiveBack(_) =>
           && x.stage.Rejected? && x.quota
           && t == With(s, n, x.(quota := false), d).(quota := Released(s.quota, x.user))
         case Hold(_) =>
           && x.stage.Live?
           && t == if x.done || x.device || !Fits(e, d, x, x.ip) then s else With(s, n, x.(device := true), Enters(e, d, x, x.ip))
         case ReleaseIdle(_) =>
           && x.stage.Live?
           && t == if x.device then With(s, n, x.(device := false), Leaves(e, d, x)) else s
         case Roam(_, to) =>
           && x.stage.Live?
           && t == if x.done then s
                   else if to != x.ip && x.device then With(s, n, x.(device := false, stage := Moving(to)), Leaves(e, d, x))
                   else With(s, n, x.(ip := to), d)
         case RoamEnter(_) =>
           && x.stage.Moving?
           && t == if Fits(e, d, x, x.stage.to)
                   then With(s, n, x.(device := true, ip := x.stage.to, stage := Live), Enters(e, d, x, x.stage.to))
                   else With(s, n, x.(stage := Live), d)
         case FinishQuota(_) =>
           && (x.stage.Live? || x.stage.Moving?) && x.quota
           && t == With(s, n, x.(quota := false), d).(quota := Released(s.quota, x.user))
         case FinishDevice(_) =>
           && x.stage.Live? && !x.quota
           && t == With(s, n, x.(device := false, done := true), if x.device then Leaves(e, d, x) else d)
  }

  function HasSlot(u: int): Session -> bool { (x: Session) => x.quota && x.user == u }

  function OnDevice(e: Env, u: int, device: string): Session -> bool {
    (x: Session) => x.device && x.user == u && e.device(x.ip) == device
  }

  /** The quota and the device counts are exactly what the sessions hold. */
  ghost predicate Exact(e: Env, s: State, u: int, device: string) {
    && Used(s.quota, u) == CountIf(s.sessions, HasSlot(u)) && Used(s.quota, u) <= SESSIONS_PER_USER
    && Connections(s.devices, u, device) == CountIf(s.sessions, OnDevice(e, u, device))
    && (e.limit(u) > 0 ==> |DevicesOf(s.devices, u)| <= e.limit(u))
  }

  /** What a session holds at each stage. */
  predicate Staged(x: Session) {
    match x.stage
    case Acquired => x.quota && !x.device && !x.done
    case Entered => x.quota && x.device && !x.done
    case Rejected => !x.device
    case Live => x.done ==> !x.device && !x.quota
    case Moving(_) => !x.device && !x.done
  }

  ghost predicate Good(e: Env, s: State) {
    && Positive(s.devices)
    && (forall n :: 0 <= n < |s.sessions| ==> Staged(s.sessions[n]))
    && (forall u, device :: Exact(e, s, u, device))
  }

  /** The session's change and the devices' change are the same, seen from any user and device. */
  ghost predicate Books(e: Env, x: Session, y: Session, d: Devices, f: Devices, u: int, device: string) {
    && y.user == x.user
    && Connections(f, u, device) + One(OnDevice(e, u, device)(x)) == Connections(d, u, device) + One(OnDevice(e, u, device)(y))
    && Positive(f) && (e.limit(u) > 0 && |DevicesOf(d, u)| <= e.limit(u) ==> |DevicesOf(f, u)| <= e.limit(u))
  }

  lemma {:induction false} EnterBooks(e: Env, x: Session, y: Session, d: Devices, u: int, device: string)
    requires Positive(d) && !x.device && y.device && y.user == x.user && Fits(e, d, x, y.ip)
    ensures Books(e, x, y, d, Enters(e, d, x, y.ip), u, device)
  {
    EnterCounts(d, x.user, e.device(y.ip), u, device);
    hide Connections, Positive;
  }

  lemma {:induction false} LeaveBooks(e: Env, x: Session, y: Session, d: Devices, u: int, device: string)
    requires Positive(d) && x.device && !y.device && y.user == x.user && Connections(d, x.user, e.device(x.ip)) > 0
    ensures Books(e, x, y, d, Leaves(e, d, x), u, device)
  {
    LeaveCounts(d, x.user, e.device(x.ip), u, device);
    hide Connections, Positive;
  }

  lemma {:induction false} HeldIsCounted(e: Env, s: State, n: nat)
    requires Good(e, s) && n < |s.sessions|
    ensures s.sessions[n].device ==> Connections(s.devices, s.sessions[n].user, e.device(s.sessions[n].ip)) > 0
    ensures s.sessions[n].quota ==> Used(s.quota, s.sessions[n].user) > 0
  {
    var x := s.sessions[n];
    assert Exact(e, s, x.user, e.device(x.ip));
    if x.device {
      CountSome(s.sessions, n, OnDevice(e, x.user, e.device(x.ip)));
    }
    if x.quota {
      CountSome(s.sessions, n, HasSlot(x.user));
    }
  }

  /** What one step does to the books of devices. */
  lemma {:induction false} DeviceStep(e: Env, s: State, step: Step, t: State, u: int, device: string)
    requires Next(e, s, step, t) && !step.Acquire? && Good(e, s)
    ensures |t.sessions| == |s.sessions| && t.sessions == s.sessions[step.n := t.sessions[step.n]]
    ensures Staged(t.sessions[step.n]) && Books(e, s.sessions[step.n], t.sessions[step.n], s.devices, t.devices, u, device)
  {
    hide Connections, DevicesOf, Enters, Leaves, Positive, Admits, Released, UdpResources.Acquired, Exact;
    HeldIsCounted(e, s, step.n);
    var x, y, d := s.sessions[step.n], t.sessions[step.n], s.devices;
    if x.device && !y.device {
      LeaveBooks(e, x, y, d, u, device);
    } else if !x.device && y.device {
      EnterBooks(e, x, y, d, u, device);
    }
  }

  /** And to the books of the quota. */
  lemma {:induction false} QuotaStep(e: Env, s: State, step: Step, t: State, u: int)
    requires Next(e, s, step, t) && !step.Acquire? && Good(e, s)
    ensures Used(t.quota, u) + One(HasSlot(u)(s.sessions[step.n])) == Used(s.quota, u) + One(HasSlot(u)(t.sessions[step.n]))
    ensures Used(t.quota, u) <= Used(s.quota, u)
  {
    hide Enters, Leaves, Positive, Admits, Exact;
    HeldIsCounted(e, s, step.n);
  }

  lemma {:induction false} StepExact(e: Env, s: State, step: Step, t: State, u: int, device: string)
    requires Next(e, s, step, t) && Good(e, s)
    ensures Exact(e, t, u, device)
  {
    assert Exact(e, s, u, device);
    if step.Acquire? {
      hide Connections, DevicesOf, Positive;
      var x := Session(step.user, step.ip, Acquired, true, false, false);
      CountSnoc(s.sessions, x, HasSlot(u));
      CountSnoc(s.sessions, x, OnDevice(e, u, device));
    } else {
      QuotaStep(e, s, step, t, u);
      DeviceStep(e, s, step, t, u, device);
      hide Next, Connections, DevicesOf, Used, Positive, HasSlot, OnDevice;
      CountUpdate(s.sessions, step.n, t.sessions[step.n], HasSlot(u));
      CountUpdate(s.sessions, step.n, t.sessions[step.n], OnDevice(e, u, device));
    }
  }

  lemma {:induction false} StepKeeps(e: Env, s: State, step: Step, t: State)
    requires Next(e, s, step, t) && Good(e, s)
    ensures Good(e, t)
  {
    forall u, device
      ensures Exact(e, t, u, device)
    {
      StepExact(e, s, step, t, u, device);
    }
    hide Positive, Exact;
    if !step.Acquire? {
      DeviceStep(e, s, step, t, 0, "");
      hide Next;
    }
  }

  predicate Run(e: Env, states: seq<State>, steps: seq<Step>) {
    && |states| == |steps| + 1 && states[0] == Start()
    && forall i :: 0 <= i < |steps| ==> Next(e, states[i], steps[i], states[i + 1])
  }

  /**
   In every run each user's quota use is the number of their sessions that have not given their slot back, each
   device's connections are the sessions holding it at their present address, and no user has more devices
   than their limit.
   */
  lemma {:induction false} SlotsAreExact(e: Env, states: seq<State>, steps: seq<Step>, n: nat)
    requires Run(e, states, steps) && n < |states|
    ensures Good(e, states[n])
  {
    if n > 0 {
      assert Next(e, states[n - 1], steps[n - 1], states[n]);
      hide Next, Good;
      SlotsAreExact(e, states, steps, n - 1);
      StepKeeps(e, states[n - 1], steps[n - 1], states[n]);
    }
  }

  /** When all of a user's sessions have finished or failed to open, they have all slots and no device. */
  lemma {:induction false} AllReturned(e: Env, states: seq<State>, steps: seq<Step>, n: nat, u: int, device: string)
    requires Run(e, states, steps) && n < |states|
    requires forall i :: 0 <= i < |states[n].sessions| ==> var x := states[n].sessions[i]; x.user == u ==> !x.quota && (x.done || x.stage.Rejected?)
    ensures Used(states[n].quota, u) == 0 && Connections(states[n].devices, u, device) == 0
  {
    SlotsAreExact(e, states, steps, n);
    var s := states[n];
    hide Run;
    assert Exact(e, s, u, device);
    CountNone(s.sessions, HasSlot(u));
    CountNone(s.sessions, OnDevice(e, u, device));
  }

  /**
   A session can be opened whenever its user has fewer than 1024 and the device is online or within the limit: it then
   has its slot and its device.
   */
  lemma {:induction false} CanOpen(e: Env, s: State, user: int, ip: string) returns (t: seq<State>)
    requires Used(s.quota, user) < 1024
    requires e.limit(user) == 0 || e.device(ip) in DevicesOf(s.devices, user) || |DevicesOf(s.devices, user)| < e.limit(user)
    ensures var n := |s.sessions|;
            && |t| == 4 && t[0] == s && Next(e, t[0], Acquire(user, ip), t[1]) && Next(e, t[1], Enter(n), t[2])
            && Next(e, t[2], Register(n, false), t[3])
            && t[3].sessions == s.sessions + [Session(user, ip, Live, true, true, false)]
            && Used(t[3].quota, user) == Used(s.quota, user) + 1
            && Connections(t[3].devices, user, e.device(ip)) == Connections(s.devices, user, e.device(ip)) + 1
  {
    var n, x := |s.sessions|, Session(user, ip, Acquired, true, false, false);
    var t1 := s.(quota := UdpResources.Acquired(s.quota, user), sessions := s.sessions + [x]);
    var t2 := With(t1, n, x.(stage := Entered, device := true), Enters(e, s.devices, x, ip));
    var t3 := With(t2, n, x.(stage := Live, device := true), t2.devices);
    EnterCounts(s.devices, user, e.device(ip), user, e.device(ip));
    hide Connections, DevicesOf, Enters;
    t := [s, t1, t2, t3];
  }

  /** The device has a connection, or there is room for one more device. */
  predicate HasRoom(e: Env, d: Devices, user: int, ip: string) {
    e.limit(user) == 0 || Connections(d, user, e.device(ip)) > 0 || |DevicesOf(d, user)| < e.limit(user)
  }

  /** When the steps of a live session take the device, keep it, lose it and follow the client, exactly. */
  lemma {:induction false} LiveSteps(e: Env, s: State, step: Step, t: State)
    requires Next(e, s, step, t) && Good(e, s) && !step.Acquire?
    ensures |t.sessions| == |s.sessions|
    ensures var x, y := s.sessions[step.n], t.sessions[step.n];
            && (step.Enter? ==> (y.device <==> HasRoom(e, s.devices, x.user, x.ip)) && (y.stage.Entered? <==> y.device))
            && (step.Hold? ==> (y.device <==> x.device || (!x.done && HasRoom(e, s.devices, x.user, x.ip))))
            && (step.ReleaseIdle? || step.FinishDevice? ==> !y.device && y.ip == x.ip)
            && (step.RoamEnter? ==> (y.device <==> HasRoom(e, s.devices, x.user, x.stage.to)) && (y.device ==> y.ip == x.stage.to))
            && (step.FinishQuota? || step.GiveBack? ==> !y.quota)
            && (step.FinishDevice? ==> y.done)
  {
    assert forall u, device :: device in DevicesOf(s.devices, u) ==> Connections(s.devices, u, device) > 0;
    hide Exact, Enters, Leaves;
  }

  // ------------------------------------------------------------------ one session's hold on its device

  class DeviceHold {
    const user: int
    const limit: nat
    const deviceOf: string -> string
    const online: OnlineDevices
    var ip: string
    var held: bool
    var done: bool
    var cancelled: bool

    /** What this session itself has on a device. */
    ghost function Mine(u: int, device: string): nat
      reads this
    {
      One(held && u == user && device == deviceOf(ip))
    }

    ghost predicate Valid()
      reads this, online
    {
      && online.Valid() && (done ==> !held)
      && (forall u, device :: Mine(u, device) <= Connections(online.byUser, u, device))
    }

    /** What everybody else has there, which nothing below ever changes. */
    ghost function Others(u: int, device: string): int
      reads this, online
    {
      Connections(online.byUser, u, device) - Mine(u, device)
    }

    constructor (user: int, limit: nat, deviceOf: string -> string, online: OnlineDevices, ip: string)
      requires online.Valid()
      ensures Valid() && !held && !done && this.online == online && this.ip == ip
    {
      this.user, this.limit, this.deviceOf, this.online, this.ip := user, limit, deviceOf, online, ip;
      held, done, cancelled := false, false, false;
    }

    method Enter(to: string) returns (ok: bool)
      requires Valid() && !held && !done
      modifies this`held, this`ip, online
      ensures Valid() && ok == held && (if ok then ip == to else ip == old(ip))
      ensures ok <==> limit == 0 || Connections(old(online.byUser), user, deviceOf(to)) > 0
                      || |DevicesOf(old(online.byUser), user)| < limit
      ensures forall u, device :: Others(u, device) == old(Others(u, device))
    {
      ghost var d := online.byUser;
      ok := online.Enter(user, limit, deviceOf(to));
      if ok {
        held, ip := true, to;
        forall u, device
          ensures Connections(online.byUser, u, device) == Connections(d, u, device) + One(u == user && device == deviceOf(to))
        {
          EnterCounts(d, user, deviceOf(to), u, device);
        }
      }
    }

    method Leave()
      requires Valid() && held
      modifies this`held, online
      ensures Valid() && !held && online.byUser == Left(old(online.byUser), user, deviceOf(ip))
      ensures forall u, device :: Others(u, device) == old(Others(u, device))
    {
      ghost var d := online.byUser;
      assert Mine(user, deviceOf(ip)) == 1;
      online.Leave(user, deviceOf(ip));
      held := false;
      forall u, device
        ensures Connections(online.byUser, u, device) + One(u == user && device == deviceOf(ip)) == Connections(d, u, device)
      {
        LeaveCounts(d, user, deviceOf(ip), u, device);
      }
    }

    /** Makes sure the session has its device before a packet goes up. */
    method HoldDevice() returns (ok: bool)
      requires Valid()
      modifies this`held, this`ip, online
      ensures Valid() && ok == held && ip == old(ip) && (old(held) ==> ok) && (done ==> !ok)
      ensures ok <==> old(held) ||
                      (!done && (limit == 0 || Connections(old(online.byUser), user, deviceOf(ip)) > 0
                                 || |DevicesOf(old(online.byUser), user)| < limit))
      ensures forall u, device :: Others(u, device) == old(Others(u, device))
    {
      if held || done {
        return held;
      }
      ok := Enter(ip);
    }

    method ReleaseIdleDevice(idle: bool)
      requires Valid()
      modifies this`held, online
      ensures Valid() && held == (old(held) && !idle)
      ensures forall u, device :: Others(u, device) == old(Others(u, device))
    {
      if held && idle {
        Leave();
      }
    }

    method ReleaseDevice()
      requires Valid()
      modifies this`held, this`done, online
      ensures Valid() && !held && done
      ensures forall u, device :: Others(u, device) == old(Others(u, device))
    {
      if held {
        Leave();
      }
      done := true;
    }

    /** Follows the client to a new address; a held device is given up before the new one is taken. */
    method RoamTo(to: string) returns (ok: bool)
      requires Valid()
      modifies this, online
      ensures Valid() && done == old(done)
      ensures !old(done) && (to == old(ip) || !old(held)) ==> ok
      ensures !old(done) && to != old(ip) && old(held) ==>
                var left := Left(old(online.byUser), user, deviceOf(old(ip)));
                ok <==> limit == 0 || Connections(left, user, deviceOf(to)) > 0 || |DevicesOf(left, user)| < limit
      ensures ok ==> !done && ip == to && held == old(held)
      ensures !ok ==> ip == old(ip) && !held && (old(done) || cancelled)
      ensures forall u, device :: Others(u, device) == old(Others(u, device))
    {
      if done {
        return false;
      }
      if to != ip && held {
        Leave();
        ok := Enter(to);
        if !ok {
          cancelled := true;
        }
        return;
      }
      ip, ok := to, true;
    }
  }
}
