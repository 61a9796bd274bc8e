/**
 Sending queued datagrams in batches: runs of equal-length packets to one address go out as one message that the
 operating system cuts apart again, and if it refuses to, everything from there on goes out one by one.
 */
module GsoBatch {
  import opened Wire

  const MAX_SEGMENT := 1472
  const MAX_BYTES := 65000

  datatype Packet = Packet(to: string, payload: bytes)

  /** One message to the operating system, to be cut into segments of a given length or sent whole. */
  datatype Message = Message(to: string, buffers: seq<bytes>, segment: Option<nat>)

  // ------------------------------------------------------------------ what goes over the wire

  /** The data cut every n bytes; the last piece may be shorter. */
  function Cut(data: bytes, n: nat): seq<bytes>
    requires n > 0
  {
    if |data| <= n then (if data == [] then [] else [data]) else [data[..n]] + Cut(data[n..], n)
  }

  function Datagrams(m: Message): seq<Packet> {
    if m.segment.Some? && m.segment.value > 0 then Addressed(m.to, Cut(Concat(m.buffers), m.segment.value))
    else [Packet(m.to, Concat(m.buffers))]
  }

  function Addressed(to: string, payloads: seq<bytes>): (ps: seq<Packet>)
    ensures |ps| == |payloads| && forall i :: 0 <= i < |ps| ==> ps[i] == Packet(to, payloads[i])
  {
    seq(|payloads|, i requires 0 <= i < |payloads| => Packet(to, payloads[i]))
  }

  function OnWire(ms: seq<Message>): seq<Packet> {
    if ms == [] then [] else Datagrams(ms[0]) + OnWire(ms[1..])
  }

  lemma {:induction false} OnWireAppend(a: seq<Message>, b: seq<Message>)
    ensures OnWire(a + b) == OnWire(a) + OnWire(b)
  {
    if a == [] {
      assert a + b == b;
    } else {
      assert (a + b)[1..] == a[1..] + b;
      OnWireAppend(a[1..], b);
      Assoc(Datagrams(a[0]), OnWire(a[1..]), OnWire(b));
    }
  }

  // ------------------------------------------------------------------ runs

  /** Every payload but the last has length n, and the last is not longer. */
  predicate Even(ps: seq<bytes>, n: nat) {
    && (forall i :: 0 <= i < |ps| - 1 ==> |ps[i]| == n)
    && (ps != [] ==> 0 < |ps[|ps| - 1]| <= n)
  }

  /** Cutting what was joined gives back exactly the packets. */
  lemma {:induction false} CutJoined(ps: seq<bytes>, n: nat)
    requires n > 0 && Even(ps, n)
    ensures Cut(Concat(ps), n) == ps
  {
    if |ps| == 1 {
      assert ps[1..] == [];
      assert Concat(ps) == ps[0];
    } else if |ps| > 1 {
      assert ps == [ps[0]] + ps[1..];
      CutJoined(ps[1..], n);
      var rest := Concat(ps[1..]);
      NonEmpty(ps[1..], n);
      assert Concat(ps) == ps[0] + rest;
      assert (ps[0] + rest)[..n] == ps[0] && (ps[0] + rest)[n..] == rest;
    }
  }

  lemma {:induction false} NonEmpty(ps: seq<bytes>, n: nat)
    requires n > 0 && ps != [] && Even(ps, n)
    ensures Concat(ps) != []
  {
    assert ps == [ps[0]] + ps[1..];
  }

  function Payloads(ps: seq<Packet>): (r: seq<bytes>)
    ensures |r| == |ps| && forall i :: 0 <= i < |ps| ==> r[i] == ps[i].payload
  {
    seq(|ps|, i requires 0 <= i < |ps| => ps[i].payload)
  }

  function Bytes(ps: seq<Packet>): nat { if ps == [] then 0 else Bytes(ps[..|ps| - 1]) + |ps[|ps| - 1].payload| }

  /** These packets may go out as one message. */
  ghost predicate IsRun(ps: seq<Packet>) {
    && ps != []
    && (forall i :: 0 <= i < |ps| ==> ps[i].to == ps[0].to)
    && (|ps| > 1 ==> Even(Payloads(ps), |ps[0].payload|) && 0 < |ps[0].payload| <= 1472 && Bytes(ps) <= 65000)
  }

  /** The run cannot be made longer by the packet that follows it. */
  ghost predicate Ends(ps: seq<Packet>, next: Packet)
    requires ps != []
  {
    var segment, last := |ps[0].payload|, |ps[|ps| - 1].payload|;
    || segment == 0 || segment > 1472 || last < segment
    || next.payload == [] || |next.payload| > segment || Bytes(ps) + |next.payload| > 65000 || next.to != ps[0].to
  }

  /** Where the run that starts at i ends: as late as it can. */
  method RunEnd(packets: seq<Packet>, i: nat) returns (end: nat)
    requires i < |packets|
    ensures i < end <= |packets| && IsRun(packets[i..end])
    ensures end < |packets| ==> Ends(packets[i..end], packets[end])
  {
    var segment := |packets[i].payload|;
    end := i + 1;
    assert packets[i..end] == [packets[i]];
    if segment == 0 || segment > MAX_SEGMENT {
      return;
    }
    var total := segment;
    OnePacket(packets[i]);
    hide IsRun, Bytes;
    while end < |packets|
      invariant i < end <= |packets| && IsRun(packets[i..end]) && total == Bytes(packets[i..end])
      invariant |packets[end - 1].payload| == segment
    {
      var size := |packets[end].payload|;
      if size == 0 || size > segment || total + size > MAX_BYTES || packets[end].to != packets[i].to {
        return;
      }
      RunGrows(packets, i, end);
      total, end := total + size, end + 1;
      if size < segment {
        return;
      }
    }
  }

  lemma {:induction false} OnePacket(p: Packet)
    ensures Bytes([p]) == |p.payload|
  {
    assert [p][..0] == [];
  }

  lemma {:induction false} RunGrows(packets: seq<Packet>, i: nat, end: nat)
    requires i < end < |packets| && IsRun(packets[i..end]) && |packets[end - 1].payload| == |packets[i].payload|
    requires 0 < |packets[end].payload| <= |packets[i].payload| <= MAX_SEGMENT && packets[end].to == packets[i].to
    requires Bytes(packets[i..end]) + |packets[end].payload| <= MAX_BYTES
    ensures IsRun(packets[i..end + 1]) && Bytes(packets[i..end + 1]) == Bytes(packets[i..end]) + |packets[end].payload|
  {
    var a, b := packets[i..end], packets[i..end + 1];
    assert b == a + [packets[end]] && b[..|b| - 1] == a;
    assert forall j :: 0 <= j < |a| ==> b[j] == a[j];
    var n := |packets[i].payload|;
    forall j | 0 <= j < |b| - 1
      ensures |Payloads(b)[j]| == n
    {
      if j < |a| - 1 {
        assert Payloads(a)[j] == Payloads(b)[j];
      } else {
        assert b[j] == packets[end - 1];
      }
    }
    assert Payloads(b)[|b| - 1] == packets[end].payload;
    assert Even(Payloads(b), n);
  }

  /** The message for a run is cut back into exactly its packets. */
  lemma {:induction false} RunArrives(ps: seq<Packet>)
    requires IsRun(ps)
    ensures Datagrams(MessageFor(ps)) == ps
  {
    if |ps| == 1 {
      assert Payloads(ps)[1..] == [];
      assert Concat(Payloads(ps)) == ps[0].payload;
    } else {
      CutJoined(Payloads(ps), |ps[0].payload|);
    }
  }

  function MessageFor(ps: seq<Packet>): Message
    requires ps != []
  {
    Message(ps[0].to, Payloads(ps), if |ps| == 1 then None else Some(|ps[0].payload|))
  }

  // ------------------------------------------------------------------ a batch

  /** Each message is for the run between two bounds, and the runs follow one another. */
  ghost predicate Covers(packets: seq<Packet>, ms: seq<Message>, bounds: seq<nat>) {
    && |bounds| == |ms| + 1
    && (forall k :: 0 <= k < |ms| ==> IsFor(packets, ms[k], bounds[k], bounds[k + 1]))
  }

  ghost predicate IsFor(packets: seq<Packet>, m: Message, i: nat, j: nat) {
    i < j <= |packets| && IsRun(packets[i..j]) && m == MessageFor(packets[i..j])
  }

  /** The packet could go out together with the one behind it. */
  ghost predicate Joins(packets: seq<Packet>, i: nat) { i + 1 < |packets| && IsRun(packets[i..i + 2]) }

  /** A message for a single packet is for one that has to go alone. */
  ghost predicate Longest(packets: seq<Packet>, ms: seq<Message>, bounds: seq<nat>) {
    |bounds| == |ms| + 1 && forall k :: 0 <= k < |ms| && ms[k].segment.None? ==> !Joins(packets, bounds[k])
  }

  lemma {:induction false} AloneAt(packets: seq<Packet>, ms: seq<Message>, bounds: seq<nat>, k: nat)
    requires Longest(packets, ms, bounds) && k < |ms| && ms[k].segment.None?
    ensures !Joins(packets, bounds[k])
  {
  }

  lemma {:induction false} LongestMore(packets: seq<Packet>, ms: seq<Message>, bounds: seq<nat>, m: Message, end: nat)
    requires Longest(packets, ms, bounds) && IsFor(packets, m, bounds[|ms|], end)
    requires end < |packets| ==> Ends(packets[bounds[|ms|]..end], packets[end])
    ensures Longest(packets, ms + [m], bounds + [end])
  {
    var i := bounds[|ms|];
    hide Joins, Ends;
    assert m.segment.None? ==> end == i + 1;
    if Joins(packets, i) {
      JoinsNotEnds(packets, i);
    }
  }

  lemma {:induction false} JoinsNotEnds(packets: seq<Packet>, i: nat)
    requires Joins(packets, i)
    ensures i + 1 < |packets| && !Ends(packets[i..i + 1], packets[i + 1])
  {
    var two := packets[i..i + 2];
    assert packets[i..i + 1] == [packets[i]] && two == [packets[i], packets[i + 1]];
    assert Payloads(two)[0] == packets[i].payload && Payloads(two)[1] == packets[i + 1].payload;
    assert two[..1] == [packets[i]];
    OnePacket(packets[i]);
  }

  function MessageBytes(ms: seq<Message>): nat { if ms == [] then 0 else |Concat(ms[0].buffers)| + MessageBytes(ms[1..]) }

  lemma {:induction false} BytesOfNone(packets: seq<Packet>)
    ensures Bytes(packets[..0]) == 0
  {
  }

  lemma {:induction false} BytesNext(packets: seq<Packet>, i: nat)
    requires i < |packets|
    ensures packets[..i + 1] == packets[..i] + [packets[i]] && Bytes(packets[..i + 1]) == Bytes(packets[..i]) + |packets[i].payload|
  {
    assert packets[..i + 1][..i] == packets[..i];
  }

  lemma {:induction false} BytesAppend(a: seq<Packet>, b: seq<Packet>)
    ensures Bytes(a + b) == Bytes(a) + Bytes(b)
  {
    if b == [] {
      assert a + b == a;
    } else {
      assert (a + b)[..|a + b| - 1] == a + b[..|b| - 1];
      BytesAppend(a, b[..|b| - 1]);
    }
  }

  lemma {:induction false} BytesJoined(ps: seq<Packet>)
    ensures Bytes(ps) == |Concat(Payloads(ps))|
  {
    if ps != [] {
      var front, last := ps[..|ps| - 1], ps[|ps| - 1];
      BytesJoined(front);
      assert Payloads(ps) == Payloads(front) + [last.payload];
      ConcatSnoc(Payloads(front), last.payload);
    }
  }

  /** What messages i to j put on the wire is exactly the packets between their bounds, in order. */
  lemma {:induction false} CoversWire(packets: seq<Packet>, ms: seq<Message>, bounds: seq<nat>, i: nat, j: nat)
    requires Covers(packets, ms, bounds) && i <= j <= |ms|
    requires |bounds| == |ms| + 1 && bounds[|ms|] <= |packets|
    ensures bounds[i] <= bounds[j] <= |packets|
    ensures OnWire(ms[i..j]) == packets[bounds[i]..bounds[j]] && MessageBytes(ms[i..j]) == Bytes(packets[bounds[i]..bounds[j]])
    decreases j - i
  {
    if i < j {
      assert IsFor(packets, ms[i], bounds[i], bounds[i + 1]);
      CoversWire(packets, ms, bounds, i + 1, j);
      assert ms[i..j][1..] == ms[i + 1..j] && ms[i..j][0] == ms[i];
      assert OnWire(ms[i..j]) == Datagrams(ms[i]) + OnWire(ms[i + 1..j]);
      assert MessageBytes(ms[i..j]) == |Concat(ms[i].buffers)| + MessageBytes(ms[i + 1..j]);
      hide Covers, IsRun, OnWire, MessageBytes, Datagrams, Bytes, Concat;
      FirstAndRest(packets, ms[i], bounds[i], bounds[i + 1], bounds[j]);
    } else if i < |ms| {
      assert IsFor(packets, ms[i], bounds[i], bounds[i + 1]);
    }
  }

  lemma {:induction false} FirstAndRest(packets: seq<Packet>, m: Message, i: nat, j: nat, k: nat)
    requires IsFor(packets, m, i, j) && j <= k <= |packets|
    ensures Datagrams(m) + packets[j..k] == packets[i..k]
    ensures |Concat(m.buffers)| + Bytes(packets[j..k]) == Bytes(packets[i..k])
  {
    hide IsRun, Datagrams, Bytes, Concat;
    var run := packets[i..j];
    RunArrives(run);
    BytesJoined(run);
    BytesAppend(run, packets[j..k]);
    assert packets[i..k] == run + packets[j..k];
  }

  datatype Error = NoError | Refused | Failed

  datatype Reply = Reply(n: nat, error: Error)

  class BatchWriter {
    const batchable: bool
    var gso: bool
    var v4Only: bool
    var packets: seq<Packet>

    /** How the operating system answers each call. */
    const replies: nat -> Reply
    var calls: nat
    ghost var sent: seq<Packet>

    constructor (batchable: bool, gsoSupported: bool, replies: nat -> Reply)
      ensures packets == [] && sent == [] && gso == (batchable && gsoSupported) && this.batchable == batchable
    {
      this.batchable, gso, v4Only, packets := batchable, batchable && gsoSupported, true, [];
      this.replies, calls, sent := replies, 0, [];
    }

    method Build(start: nat) returns (ms: seq<Message>, first: seq<nat>, ghost bounds: seq<nat>)
      requires start <= |packets|
      ensures Covers(packets, ms, bounds) && |bounds| == |ms| + 1 && bounds[0] == start && bounds[|ms|] == |packets|
      ensures first == bounds[..|ms|]
      ensures !gso ==> forall k :: 0 <= k < |ms| ==> ms[k].segment.None?
      ensures gso ==> Longest(packets, ms, bounds)
    {
      ms, first, bounds := [], [], [start];
      var i := start;
      while i < |packets|
        invariant start <= i <= |packets| && Covers(packets, ms, bounds) && bounds[0] == start && bounds[|ms|] == i
        invariant first == bounds[..|ms|]
        invariant !gso ==> forall k :: 0 <= k < |ms| ==> ms[k].segment.None?
        invariant gso ==> Longest(packets, ms, bounds)
      {
        var end := i + 1;
        if gso {
          end := RunEnd(packets, i);
        }
        assert packets[i..i + 1] == [packets[i]];
        var m := MessageFor(packets[i..end]);
        CoversMore(packets, ms, bounds, m, end);
        if gso {
          LongestMore(packets, ms, bounds, m, end);
        }
        hide Covers, IsRun, Longest;
        ms, first, bounds := ms + [m], first + [i], bounds + [end];
        i := end;
      }
    }

    method WriteBatch(ms: seq<Message>) returns (n: nat, error: Error)
      modifies this`calls, this`sent
      ensures n <= |ms| && sent == old(sent) + OnWire(ms[..n])
      ensures calls == old(calls) + 1 && error == replies(old(calls)).error && n == Min(replies(old(calls)).n, |ms|)
    {
      var reply := replies(calls);
      calls := calls + 1;
      n, error := Min(reply.n, |ms|), reply.error;
      sent := sent + OnWire(ms[..n]);
    }

    method BytesOf(ms: seq<Message>) returns (n: nat)
      ensures n == MessageBytes(ms)
    {
      n := 0;
      assert ms[0..] == ms;
      for i := 0 to |ms|
        invariant n + MessageBytes(ms[i..]) == MessageBytes(ms)
      {
        assert ms[i..][1..] == ms[i + 1..];
        n := n + |Concat(ms[i].buffers)|;
      }
    }

    /** One call with the messages that are left. */
    method SendFrom(ms: seq<Message>, ghost bounds: seq<nat>, k: nat, ghost before: seq<Packet>, ghost written: nat)
      returns (n: nat, error: Error, more: nat)
      requires Covers(packets, ms, bounds) && |bounds| == |ms| + 1 && bounds[|ms|] <= |packets| && k < |ms|
      requires bounds[0] <= bounds[k] <= |packets| && sent == before + packets[bounds[0]..bounds[k]]
      requires written == Bytes(packets[bounds[0]..bounds[k]])
      modifies this`calls, this`sent
      ensures k + n <= |ms| && bounds[k] <= bounds[k + n] <= |packets|
      ensures sent == before + packets[bounds[0]..bounds[k + n]] && written + more == Bytes(packets[bounds[0]..bounds[k + n]])
      ensures calls == old(calls) + 1 && error == replies(old(calls)).error && n == Min(replies(old(calls)).n, |ms| - k)
    {
      hide Covers, OnWire, MessageBytes, Bytes;
      n, error := WriteBatch(ms[k..]);
      more := BytesOf(ms[k..][..n]);
      Progress(packets, ms, bounds, k, n, before, written, more);
    }

    /** One of these calls was refused for its segments. */
    ghost predicate RefusedBetween(from: nat, to: nat) { exists c :: from <= c < to && replies(c).error.Refused? }

    lemma {:induction false} IsRefused(from: nat, c: nat, to: nat)
      requires from <= c < to && replies(c).error.Refused?
      ensures RefusedBetween(from, to)
    {
    }

    /**
     Sends from a packet on. Whatever the system answers, what has gone out is a prefix, in order, each packet
     once; a message refused for its segments is sent again packet by packet.
     */
    method FlushBatch(start: nat) returns (written: nat, error: Error, stalled: bool, ghost upto: nat)
      requires start <= |packets|
      modifies this`calls, this`sent, this`gso
      ensures start <= upto <= |packets| && sent == old(sent) + packets[start..upto] && written == Bytes(packets[start..upto])
      ensures error.NoError? && !stalled ==> upto == |packets|
      ensures !error.NoError? ==> calls > old(calls) && replies(calls - 1).error == error
      ensures stalled ==> calls > old(calls) && replies(calls - 1) == Reply(0, NoError)
      ensures gso ==> old(gso)
      ensures error.Refused? && gso && upto < |packets| ==> !Joins(packets, upto)
      ensures calls >= old(calls) && (old(gso) && !gso ==> RefusedBetween(old(calls), calls))
      decreases gso
    {
      hide Covers, OnWire, MessageBytes, Bytes, Joins, Datagrams, Longest, BatchWriter.RefusedBetween;
      var ms, first, bounds := Build(start);
      written, error, stalled := 0, NoError, false;
      var k := 0;
      ghost var before := sent;
      CoversWire(packets, ms, bounds, 0, 0);
      NothingYet(packets, before, start);
      while k < |ms|
        invariant k <= |ms| && gso == old(gso) && calls >= old(calls)
        invariant bounds[k] <= |packets| && start <= bounds[k]
        invariant sent == before + packets[start..bounds[k]] && written == Bytes(packets[start..bounds[k]])
      {
        var n, e, more := SendFrom(ms, bounds, k, before, written);
        written, k := written + more, k + n;
        if !e.NoError? {
          if gso && k < |ms| && ms[k].segment.Some? && e.Refused? {
            gso := false;
            ghost var refused := calls - 1;
            var again;
            again, error, stalled, upto := FlushBatch(first[k]);
            IsRefused(old(calls), refused, calls);
            Together(packets, before, start, first[k], upto);
            written := written + again;
            return;
          }
          if gso && k < |ms| && e.Refused? {
            AloneAt(packets, ms, bounds, k);
          }
          return written, e, false, bounds[k];
        }
        if n == 0 {
          return written, NoError, true, bounds[k];
        }
      }
      upto := |packets|;
    }

    /** Sends everything queued, in a batch where that is possible. */
    method Flush() returns (written: nat, error: Error, stalled: bool, ghost upto: nat)
      modifies this`calls, this`sent, this`gso
      ensures upto <= |packets| && sent == old(sent) + packets[..upto] && written == Bytes(packets[..upto])
      ensures error.NoError? && !stalled ==> upto == |packets|
      ensures !error.NoError? ==> calls > old(calls) && replies(calls - 1).error == error
      ensures stalled ==> calls > old(calls) && replies(calls - 1) == Reply(0, NoError)
    {
      hide Bytes, BatchWriter.RefusedBetween, Joins;
      if batchable && v4Only && |packets| > 1 {
        written, error, stalled, upto := FlushBatch(0);
        assert packets[0..upto] == packets[..upto];
        return;
      }
      written, error, stalled, upto := 0, NoError, false, 0;
      assert sent + packets[..0] == sent;
      BytesOfNone(packets);
      for i := 0 to |packets|
        invariant upto == i && sent == old(sent) + packets[..i] && written == Bytes(packets[..i]) && error.NoError? && calls >= old(calls)
      {
        var reply := replies(calls);
        calls := calls + 1;
        if !reply.error.NoError? {
          error := reply.error;
          return;
        }
        BytesNext(packets, i);
        assert sent + [packets[i]] == old(sent) + packets[..i + 1];
        sent, written, upto := sent + [packets[i]], written + |packets[i].payload|, i + 1;
      }
    }
  }

  lemma {:induction false} CoversMore(packets: seq<Packet>, ms: seq<Message>, bounds: seq<nat>, m: Message, end: nat)
    requires Covers(packets, ms, bounds) && IsFor(packets, m, bounds[|ms|], end)
    ensures Covers(packets, ms + [m], bounds + [end])
  {
    hide IsFor;
    var more, bs := ms + [m], bounds + [end];
    forall k | 0 <= k < |more|
      ensures IsFor(packets, more[k], bs[k], bs[k + 1])
    {
      if k < |ms| {
        assert more[k] == ms[k];
      }
    }
  }

  /** n more messages after the first k. */
  lemma {:induction false} Progress(packets: seq<Packet>, ms: seq<Message>, bounds: seq<nat>, k: nat, n: nat,
    before: seq<Packet>, written: nat, more: nat)
    requires Covers(packets, ms, bounds) && |bounds| == |ms| + 1 && bounds[|ms|] <= |packets| && k + n <= |ms| && bounds[0] <= bounds[k] <= |packets|
    requires written == Bytes(packets[bounds[0]..bounds[k]]) && more == MessageBytes(ms[k..][..n])
    ensures bounds[k] <= bounds[k + n] <= |packets|
    ensures before + packets[bounds[0]..bounds[k]] + OnWire(ms[k..][..n]) == before + packets[bounds[0]..bounds[k + n]]
    ensures written + more == Bytes(packets[bounds[0]..bounds[k + n]])
  {
    hide Covers, OnWire, MessageBytes, Bytes;
    assert ms[k..][..n] == ms[k..k + n];
    CoversWire(packets, ms, bounds, k, k + n);
    var a, b := packets[bounds[0]..bounds[k]], packets[bounds[k]..bounds[k + n]];
    assert packets[bounds[0]..bounds[k + n]] == a + b;
    BytesAppend(a, b);
    Assoc(before, a, b);
  }

  lemma {:induction false} NothingYet(packets: seq<Packet>, before: seq<Packet>, i: nat)
    requires i <= |packets|
    ensures before + packets[i..i] == before && Bytes(packets[i..i]) == 0
  {
  }

  lemma {:induction false} Together(packets: seq<Packet>, before: seq<Packet>, i: nat, j: nat, k: nat)
    requires i <= j <= k <= |packets|
    ensures before + packets[i..j] + packets[j..k] == before + packets[i..k]
    ensures Bytes(packets[i..k]) == Bytes(packets[i..j]) + Bytes(packets[j..k])
  {
    assert packets[i..k] == packets[i..j] + packets[j..k];
    BytesAppend(packets[i..j], packets[j..k]);
  }
}
