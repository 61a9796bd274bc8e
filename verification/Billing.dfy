/**
 Traffic from the relays of one node to the panel's books: the kernel's counters and reads, and the report
 buffer with its lossy link, run together. What GetTraffic hands out is put into the buffer record by record.
 */
module Billing {
  import opened Wire
  import US = UserSessions
  import K = KernelTraffic
  import R = Report

  /** `inbox` is what GetTraffic has handed to the node and the node has yet to buffer. */
  datatype State = State(kernel: K.State, report: R.System, inbox: seq<US.Traffic>)

  datatype Step =
    | Kernel(kernelStep: K.Step)
    | Buffer
    | Other(reportStep: R.Step)

  function Start(): State { State(K.Start(), R.Start(), []) }

  function AsRecord(t: US.Traffic): R.Traffic { R.Traffic(t.id, t.up, t.down) }

  /** Other nodes' traffic goes through the same buffer. */
  ghost predicate Next(node: string, s: State, step: Step, t: State) {
    match step
    case Kernel(k) =>
      && K.Next(s.kernel, k, t.kernel) && t.report == s.report
      && s.kernel.handed <= t.kernel.handed && t.inbox == s.inbox + t.kernel.handed[|s.kernel.handed|..]
    case Buffer =>
      && s.inbox != [] && t.kernel == s.kernel && t.inbox == s.inbox[1..]
      && R.Next(s.report, R.Add(node, AsRecord(s.inbox[0])), t.report)
    case Other(r) =>
      && (r.Add? ==> r.node != node) && t.kernel == s.kernel && t.inbox == s.inbox
      && R.Next(s.report, r, t.report)
  }

  function Probe(node: string, id: int, d: US.Direction): R.Probe { R.User(R.Key(node, id), if d.Up? then R.Up else R.Down) }

  /** Everything handed out is buffered or about to be, exactly once. */
  ghost predicate Passed(node: string, s: State, id: int, d: US.Direction) {
    US.Reported(s.kernel.handed, id, d) == R.Total(s.report.added, Probe(node, id, d)) + US.Reported(s.inbox, id, d)
  }

  ghost predicate Good(node: string, s: State, id: int, d: US.Direction) {
    && K.Good(s.kernel) && K.Conserved(s.kernel, id, d)
    && R.Tidy(s.report) && R.Balanced(s.report, Probe(node, id, d))
    && Passed(node, s, id, d)
  }

  /** A step that adds nothing for this user leaves their total. */
  lemma {:induction false} OtherAdds(s: R.System, step: R.Step, t: R.System, p: R.Probe)
    requires R.Next(s, step, t) && p.User? && (step.Add? ==> step.node != p.key.node)
    ensures R.Total(t.added, p) == R.Total(s.added, p)
  {
    if step.Add? {
      var l := R.Given(step.node, step.t);
      R.TotalAppend(s.added, [l], p);
      R.TotalOne(l, p);
    }
  }

  lemma {:induction false} BufferAdds(node: string, s: State, t: State, id: int, d: US.Direction)
    requires Next(node, s, Buffer, t)
    ensures R.Total(t.report.added, Probe(node, id, d)) + US.Reported(t.inbox, id, d)
            == R.Total(s.report.added, Probe(node, id, d)) + US.Reported(s.inbox, id, d)
  {
    var p, l := Probe(node, id, d), R.Given(node, AsRecord(s.inbox[0]));
    R.TotalAppend(s.report.added, [l], p);
    R.TotalOne(l, p);
    hide R.AddOne, R.Total;
  }

  lemma {:induction false} KernelHands(node: string, s: State, step: Step, t: State, id: int, d: US.Direction)
    requires Next(node, s, step, t) && step.Kernel?
    ensures US.Reported(t.kernel.handed, id, d) - US.Reported(s.kernel.handed, id, d)
            == US.Reported(t.inbox, id, d) - US.Reported(s.inbox, id, d)
  {
    var more := t.kernel.handed[|s.kernel.handed|..];
    assert t.kernel.handed == s.kernel.handed + more;
    K.ReportedAppend(s.kernel.handed, more, id, d);
    K.ReportedAppend(s.inbox, more, id, d);
  }

  lemma {:induction false} StepKeeps(node: string, s: State, step: Step, t: State, id: int, d: US.Direction)
    requires Next(node, s, step, t) && Good(node, s, id, d)
    ensures Good(node, t, id, d)
  {
    hide K.Next, K.Good, K.Conserved, R.Next, R.Tidy, R.Balanced, R.Total, US.Reported;
    match step
    case Kernel(k) =>
      K.StepKeeps(s.kernel, k, t.kernel, id, d);
      KernelHands(node, s, step, t, id, d);
    case Buffer =>
      R.StepKeeps(s.report, R.Add(node, AsRecord(s.inbox[0])), t.report, Probe(node, id, d));
      BufferAdds(node, s, t, id, d);
    case Other(r) =>
      R.StepKeeps(s.report, r, t.report, Probe(node, id, d));
      OtherAdds(s.report, r, t.report, Probe(node, id, d));
  }

  ghost predicate Run(node: string, states: seq<State>, steps: seq<Step>) {
    && |states| == |steps| + 1 && states[0] == Start()
    && forall i :: 0 <= i < |steps| ==> Next(node, states[i], steps[i], states[i + 1])
  }

  lemma {:induction false} RunKeeps(node: string, states: seq<State>, steps: seq<Step>, n: nat, id: int, d: US.Direction)
    requires Run(node, states, steps) && n < |states|
    ensures Good(node, states[n], id, d)
  {
    if n > 0 {
      assert Next(node, states[n - 1], steps[n - 1], states[n]);
      hide Next, Good;
      RunKeeps(node, states, steps, n - 1, id, d);
      StepKeeps(node, states[n - 1], steps[n - 1], states[n], id, d);
    }
  }

  /**
   In every run of kernel, buffer and link, the panel never books more for a user of the node than the relays
   counted for them.
   */
  lemma {:induction false} NeverBilledForMore(node: string, states: seq<State>, steps: seq<Step>, n: nat, id: int, d: US.Direction)
    requires Run(node, states, steps) && n < |states|
    ensures R.Total(states[n].report.ledger, Probe(node, id, d)) <= US.Reported(states[n].kernel.counted, id, d)
  {
    RunKeeps(node, states, steps, n, id, d);
    R.RecordedWithin(states[n].report, Probe(node, id, d));
    hide Run, R.Tidy, R.Total, R.Sum, US.Reported;
  }

  /**
   When everything has been collected, sent and acknowledged, and nothing was dropped, a user is billed for exactly
   what was counted.
   */
  lemma {:induction false} BilledInFull(node: string, states: seq<State>, steps: seq<Step>, n: nat, id: int, d: US.Direction)
    requires Run(node, states, steps) && n < |states|
    requires var s := states[n];
             && s.inbox == [] && s.kernel.retired == [] && K.InHand(s.kernel.readers, id, d) == 0 && K.Live(s.kernel.generations, id, d) == 0
             && s.report.buffer.inflight.None? && s.report.buffer.pending == map[] && s.report.dropped == {} && s.report.refused == []
    ensures R.Total(states[n].report.ledger, Probe(node, id, d)) == US.Reported(states[n].kernel.counted, id, d)
  {
    RunKeeps(node, states, steps, n, id, d);
    R.RecordedWithin(states[n].report, Probe(node, id, d));
    R.NoneOf(states[n].report.log, Probe(node, id, d));
  }
}
