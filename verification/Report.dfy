/**
 Traffic reports that survive a lossy link: a buffer that merges traffic by node and user, seals at most
 one report at a time, resends it unchanged until it is acknowledged, and a panel that records each report
 id once.
 */
module Report {
  import opened Wire

  const MAX_BUFFERED := 131072
  const MAX_PER_REPORT := 5000

  datatype Key = Key(node: string, uid: int)

  datatype Amount = Amount(up: nat, down: nat)

  datatype Line = Line(key: Key, amount: Amount)

  datatype Traffic = Traffic(uid: int, upload: int, download: int)

  // ------------------------------------------------------------------ the order of a report's entries

  predicate StringLess(a: string, b: string) {
    b != [] && (a == [] || a[0] < b[0] || (a[0] == b[0] && StringLess(a[1..], b[1..])))
  }

  predicate Less(a: Key, b: Key) {
    if a.node != b.node then StringLess(a.node, b.node) else a.uid < b.uid
  }

  lemma {:induction false} StringOrder(a: string, b: string, c: string)
    ensures !StringLess(a, a)
    ensures a != b ==> StringLess(a, b) || StringLess(b, a)
    ensures StringLess(a, b) && StringLess(b, c) ==> StringLess(a, c)
    decreases |a|
  {
    if a != [] {
      var rest := (s: string) => if s == [] then [] else s[1..];
      StringOrder(a[1..], rest(b), rest(c));
      if b != [] && a[0] == b[0] {
        assert a == [a[0]] + a[1..] && b == [b[0]] + b[1..];
      }
    }
  }

  lemma {:induction false} Order(a: Key, b: Key, c: Key)
    ensures !Less(a, a)
    ensures a != b ==> Less(a, b) || Less(b, a)
    ensures Less(a, b) && Less(b, c) ==> Less(a, c)
  {
    StringOrder(a.node, b.node, c.node);
    StringOrder(b.node, a.node, b.node);
  }

  /** Nodes are ordered as strings are, by the first place where they differ, and users of one node by id. */
  lemma {:induction false} LessExactly(a: Key, b: Key)
    ensures Less(a, b) <==> Before(a.node, b.node) || (a.node == b.node && a.uid < b.uid)
  {
    StringLessIsBefore(a.node, b.node);
    assert !Before(a.node, a.node);
  }

  /** A proper prefix, or smaller at the first difference. */
  predicate Before(a: string, b: string) {
    || (a <= b && |a| < |b|)
    || exists i :: 0 <= i < |a| && i < |b| && a[..i] == b[..i] && a[i] < b[i]
  }

  lemma {:induction false} StringLessIsBefore(a: string, b: string)
    ensures StringLess(a, b) <==> Before(a, b)
    decreases |a|
  {
    if a != [] && b != [] {
      if a[0] == b[0] {
        StringLessIsBefore(a[1..], b[1..]);
        BeforeTail(a, b);
      } else {
        assert a[..0] == b[..0];
        forall i | 0 < i < |a| && i < |b|
          ensures a[..i] != b[..i]
        {
          assert a[..i][0] == a[0] && b[..i][0] == b[0];
        }
      }
    }
  }

  lemma {:induction false} BeforeTail(a: string, b: string)
    requires a != [] && b != [] && a[0] == b[0]
    ensures Before(a, b) <==> Before(a[1..], b[1..])
  {
    var c, d := a[1..], b[1..];
    assert a == [a[0]] + c && b == [a[0]] + d;
    if i :| 0 <= i < |a| && i < |b| && a[..i] == b[..i] && a[i] < b[i] {
      assert c[..i - 1] == a[..i][1..] && d[..i - 1] == b[..i][1..] && c[i - 1] < d[i - 1];
    }
    if i :| 0 <= i < |c| && i < |d| && c[..i] == d[..i] && c[i] < d[i] {
      assert a[..i + 1] == [a[0]] + c[..i] && b[..i + 1] == [a[0]] + d[..i];
      assert a[i + 1] < b[i + 1];
    }
  }

  predicate Sorted(ks: seq<Key>) { forall i, j :: 0 <= i < j < |ks| ==> Less(ks[i], ks[j]) }

  function Insert(ks: seq<Key>, k: Key): seq<Key> {
    if ks == [] then [k] else if Less(k, ks[0]) then [k] + ks else [ks[0]] + Insert(ks[1..], k)
  }

  lemma {:induction false} InsertKeepsOrder(ks: seq<Key>, k: Key)
    requires Sorted(ks) && k !in ks
    ensures Sorted(Insert(ks, k)) && |Insert(ks, k)| == |ks| + 1
    ensures forall x :: x in Insert(ks, k) <==> x == k || x in ks
  {
    if ks != [] {
      assert ks == [ks[0]] + ks[1..];
      if Less(k, ks[0]) {
        forall i | 0 <= i < |ks|
          ensures Less(k, ks[i])
        {
          Order(k, ks[0], ks[i]);
        }
      } else {
        Order(ks[0], k, k);
        InsertKeepsOrder(ks[1..], k);
        var tail := Insert(ks[1..], k);
        forall i | 0 <= i < |tail|
          ensures Less(ks[0], tail[i])
        {
          assert tail[i] in tail;
        }
      }
    }
  }

  /** Sorts the buffered keys the way a report lists them. */
  method SortKeys(keys: set<Key>) returns (ks: seq<Key>)
    ensures Sorted(ks) && |ks| == |keys| && forall k :: k in ks <==> k in keys
  {
    ks := [];
    var rest := keys;
    while rest != {}
      invariant rest <= keys && Sorted(ks) && |ks| + |rest| == |keys|
      invariant forall k :: k in ks <==> k in keys - rest
      decreases rest
    {
      var k :| k in rest;
      InsertKeepsOrder(ks, k);
      ks, rest := Insert(ks, k), rest - {k};
    }
  }

  // ------------------------------------------------------------------ the buffer as a value

  datatype Id = Id(uuid: string)

  datatype Report = Report(id: Id, lines: seq<Line>)

  datatype Buffer = Buffer(pending: map<Key, Amount>, inflight: Option<Report>, droppedReports: nat, droppedBytes: nat)

  function Keys(lines: seq<Line>): (ks: seq<Key>)
    ensures |ks| == |lines|
    ensures forall i :: 0 <= i < |lines| ==> ks[i] == lines[i].key
  {
    if lines == [] then [] else [lines[0].key] + Keys(lines[1..])
  }

  function Size(b: Buffer): nat { |b.pending| + if b.inflight.Some? then |b.inflight.value.lines| else 0 }

  function NonNegative(v: int): nat { if v < 0 then 0 else v }

  function Counted(t: Traffic): Amount { Amount(NonNegative(t.upload), NonNegative(t.download)) }

  function Plus(a: Amount, b: Amount): Amount { Amount(a.up + b.up, a.down + b.down) }

  function BytesIn(lines: seq<Line>): nat {
    if lines == [] then 0 else lines[0].amount.up + lines[0].amount.down + BytesIn(lines[1..])
  }

  function Merge(b: Buffer, k: Key, a: Amount): Buffer {
    b.(pending := b.pending[k := if k in b.pending then Plus(b.pending[k], a) else a])
  }

  function DropInflight(b: Buffer): Buffer {
    if b.inflight.None? then b
    else b.(inflight := None, droppedReports := b.droppedReports + 1,
            droppedBytes := b.droppedBytes + BytesIn(b.inflight.value.lines))
  }

  /** One traffic record: merged, or making room by dropping the sealed report, or refused. */
  function AddOne(b: Buffer, node: string, t: Traffic): Buffer {
    var k, a := Key(node, t.uid), Counted(t);
    if a == Amount(0, 0) then b else Accept(b, k, a)
  }

  function Accept(b: Buffer, k: Key, a: Amount): Buffer {
    if k in b.pending || Size(b) < MAX_BUFFERED then Merge(b, k, a)
    else if b.inflight.Some? then Merge(DropInflight(b), k, a)
    else b.(droppedBytes := b.droppedBytes + a.up + a.down)
  }

  function AddAll(b: Buffer, node: string, ts: seq<Traffic>): Buffer
    decreases |ts|
  {
    if ts == [] then b else AddAll(AddOne(b, node, ts[0]), node, ts[1..])
  }

  /** The buffer holds no more than its limit, and a sealed report is never empty. */
  predicate Bounded(b: Buffer) {
    Size(b) <= MAX_BUFFERED && (b.inflight.Some? ==> b.inflight.value.lines != [])
  }

  lemma {:induction false} AddStaysBounded(b: Buffer, node: string, t: Traffic)
    requires Bounded(b)
    ensures Bounded(AddOne(b, node, t))
  {
    var k := Key(node, t.uid);
    MapGrows(b.pending, k, Counted(t));
    if k in b.pending {
      MapGrows(b.pending, k, Plus(b.pending[k], Counted(t)));
    }
  }

  /** A record of a user with nothing pending finds all 2^17 places taken, by unsealed and sealed entries. */
  predicate Overflows(b: Buffer, node: string, t: Traffic) {
    && (t.upload > 0 || t.download > 0) && Key(node, t.uid) !in b.pending
    && |b.pending| + (if b.inflight.Some? then |b.inflight.value.lines| else 0) == 131072
  }

  function Pend(b: Buffer, k: Key): Amount { if k in b.pending then b.pending[k] else Amount(0, 0) }

  /**
   Only such a record costs anything: the report under way if there is one, else the record itself. Any other is
   added to what its user has pending and touches nothing else.
   */
  lemma {:induction false} AddOneExactly(b: Buffer, node: string, t: Traffic)
    requires Bounded(b)
    ensures var c, k := AddOne(b, node, t), Key(node, t.uid);
            var up, down := if t.upload > 0 then t.upload else 0, if t.download > 0 then t.download else 0;
            && (!Overflows(b, node, t) ==>
                  c == b.(pending := c.pending) && c.pending - {k} == b.pending - {k}
                  && Pend(c, k) == Amount(Pend(b, k).up + up, Pend(b, k).down + down))
            && (Overflows(b, node, t) && b.inflight.Some? ==>
                  c == b.(pending := b.pending[k := Amount(up, down)], inflight := None, droppedReports := b.droppedReports + 1,
                          droppedBytes := b.droppedBytes + BytesIn(b.inflight.value.lines)))
            && (Overflows(b, node, t) && b.inflight.None? ==> c == b.(droppedBytes := b.droppedBytes + up + down))
  {
    var k, a := Key(node, t.uid), Counted(t);
    MergeExactly(b, k, a);
    MergeExactly(DropInflight(b), k, a);
    hide Merge;
  }

  lemma {:induction false} MergeExactly(b: Buffer, k: Key, a: Amount)
    ensures var c := Merge(b, k, a);
            && c == b.(pending := c.pending) && c.pending - {k} == b.pending - {k}
            && Pend(c, k) == Amount(Pend(b, k).up + a.up, Pend(b, k).down + a.down)
            && (k !in b.pending ==> c.pending == b.pending[k := a])
  {
  }

  /** A batch that fits costs nothing. */
  lemma {:induction false} AddAllFits(b: Buffer, node: string, ts: seq<Traffic>)
    requires Bounded(b) && |b.pending| + (if b.inflight.Some? then |b.inflight.value.lines| else 0) + |ts| <= 131072
    ensures var c := AddAll(b, node, ts); c == b.(pending := c.pending)
    decreases |ts|
  {
    if ts != [] {
      var c := AddOne(b, node, ts[0]);
      AddOneExactly(b, node, ts[0]);
      AddStaysBounded(b, node, ts[0]);
      assert |c.pending| <= |b.pending| + 1 by {
        MapGrows(b.pending, Key(node, ts[0].uid), Amount(0, 0));
        MapGrows(b.pending, Key(node, ts[0].uid), Pend(c, Key(node, ts[0].uid)));
      }
      AddAllFits(c, node, ts[1..]);
    }
  }

  lemma {:induction false} MergeTwice(b: Buffer, k: Key, a: Amount)
    ensures k !in b.pending ==> Merge(b.(pending := b.pending[k := Amount(0, 0)]), k, a) == Merge(b, k, a)
  {
    assert Plus(Amount(0, 0), a) == a;
    assert b.pending[k := Amount(0, 0)][k := a] == b.pending[k := a];
  }

  lemma {:induction false} MapGrows<K, V>(m: map<K, V>, k: K, v: V)
    ensures |m[k := v]| == |m| + if k in m then 0 else 1
  {
    assert m[k := v].Keys == m.Keys + {k};
    assert |m| == |m.Keys| && |m[k := v]| == |m[k := v].Keys|;
  }

  /** A report of the least keys, no more than fit, taken out of the buffer with exactly their amounts. */
  ghost predicate Seals(b: Buffer, id: Id, after: Buffer) {
    if b.inflight.Some? || b.pending == map[] then after == b
    else
      && after.inflight.Some? && after == b.(pending := after.pending, inflight := after.inflight)
      && var r := after.inflight.value;
         && r.id == id && Takes(b.pending, r.lines, after.pending)
  }

  ghost predicate Takes(before: map<Key, Amount>, lines: seq<Line>, after: map<Key, Amount>) {
    && Sorted(Keys(lines))
    && |lines| == Min(|before|, MAX_PER_REPORT)
    && (forall i :: 0 <= i < |lines| ==> lines[i].key in before && lines[i].amount == before[lines[i].key])
    && after == before - KeySet(Keys(lines))
    && (forall k, i :: k in after && 0 <= i < |lines| ==> Less(lines[i].key, k))
  }

  function KeySet(ks: seq<Key>): set<Key> { set k | k in ks }

  /** Flushing seals if nothing is under way, and sends whatever is. */
  ghost predicate Flushes(b: Buffer, connected: bool, id: Id, after: Buffer, sent: Option<Report>) {
    if connected then Seals(b, id, after) && sent == after.inflight else after == b && sent == None
  }

  /** An acknowledgement of the report under way discards it and flushes; any other is ignored. */
  ghost predicate Acknowledges(b: Buffer, ack: Id, connected: bool, id: Id, after: Buffer, sent: Option<Report>) {
    if b.inflight.None? || b.inflight.value.id != ack then after == b && sent == None
    else if b.pending == map[] then after == b.(inflight := None) && sent == None
    else Flushes(b.(inflight := None), connected, id, after, sent)
  }

  // ------------------------------------------------------------------ the buffer itself

  class Entry {
    const key: Key
    var up: nat
    var down: nat

    constructor (key: Key)
      ensures this.key == key && up == 0 && down == 0
    {
      this.key, up, down := key, 0, 0;
    }

    function Value(): Amount
      reads this
    {
      Amount(up, down)
    }
  }

  datatype Sealed = Sealed(id: Id, entries: seq<Entry>)

  /** What was sealed, as the objects handed to the link and as the values they held. */
  datatype Shipped = Shipped(sealed: Sealed, report: Report)

  /** The objects show exactly these lines now. */
  ghost predicate Shows(entries: seq<Entry>, lines: seq<Line>)
    reads entries
  {
    && |entries| == |lines|
    && forall i :: 0 <= i < |entries| ==> lines[i] == Line(entries[i].key, entries[i].Value())
  }

  /** The map holds these amounts, in these objects. */
  ghost predicate Holds(p: map<Key, Entry>, m: map<Key, Amount>, objects: set<Entry>)
    reads objects
  {
    && m.Keys == p.Keys
    && forall k :: k in p ==> p[k] in objects && p[k].key == k && m[k] == p[k].Value()
  }

  lemma {:induction false} HoldsLess(p: map<Key, Entry>, m: map<Key, Amount>, objects: set<Entry>, ks: set<Key>)
    requires Holds(p, m, objects)
    ensures Holds(p - ks, m - ks, objects)
  {
  }

  /** Entries taken from the map show the map's lines. */
  lemma {:induction false} TakenShow(p: map<Key, Entry>, m: map<Key, Amount>, objects: set<Entry>, ks: seq<Key>, out: seq<Entry>)
    requires Holds(p, m, objects) && |out| == |ks| && forall i :: 0 <= i < |ks| ==> ks[i] in p && out[i] == p[ks[i]]
    ensures forall k :: k in ks ==> k in m
    ensures Shows(out, LinesOf(m, ks))
    ensures forall e :: e in out ==> e in objects && e.key in KeySet(ks)
  {
    hide LinesOf;
    forall e | e in out
      ensures e in objects && e.key in KeySet(ks)
    {
      var i :| 0 <= i < |out| && out[i] == e;
      assert ks[i] in ks;
    }
  }

  class TrafficBuffer {
    var inflight: Option<Sealed>
    var pending: map<Key, Entry>
    var droppedReports: nat
    var droppedBytes: nat

    /** The buffer's value, every report ever sealed (the link may still hold its objects), and all objects. */
    ghost var view: Buffer
    ghost var shipped: seq<Shipped>
    ghost var repr: set<Entry>
    ghost var frozen: set<Entry>

    /** Every report ever sealed still shows what it showed when it was sealed. */
    ghost predicate Archive()
      reads this`shipped, this`frozen, frozen
    {
      forall h :: h in shipped ==>
        (forall e :: e in h.sealed.entries ==> e in frozen) && h.report.id == h.sealed.id && Shows(h.sealed.entries, h.report.lines)
    }

    /** The value is what the objects hold, and no sealed entry is reachable from pending. */
    ghost predicate Linked()
      reads this, repr
    {
      && frozen <= repr && Archive() && Holds(pending, view.pending, repr - frozen)
      && view.droppedReports == droppedReports && view.droppedBytes == droppedBytes
      && (inflight.Some? <==> view.inflight.Some?)
      && (inflight.Some? ==> shipped != [] && shipped[|shipped| - 1] == Shipped(inflight.value, view.inflight.value))
    }

    ghost predicate Valid()
      reads this, repr
    {
      Linked() && Bounded(view)
    }

    constructor ()
      ensures Valid() && fresh(repr) && view == Buffer(map[], None, 0, 0) && shipped == []
    {
      inflight, pending, droppedReports, droppedBytes := None, map[], 0, 0;
      view, shipped, repr, frozen := Buffer(map[], None, 0, 0), [], {}, {};
    }

    method EntriesBytes(entries: seq<Entry>, ghost lines: seq<Line>) returns (n: nat)
      requires Shows(entries, lines)
      ensures n == BytesIn(lines)
    {
      n := 0;
      for i := 0 to |entries|
        invariant n + BytesIn(lines[i..]) == BytesIn(lines)
      {
        assert lines[i..][1..] == lines[i + 1..];
        n := n + entries[i].up + entries[i].down;
      }
    }

    method Drop() returns (bytes: nat)
      requires Linked()
      modifies this`inflight, this`droppedReports, this`droppedBytes, this`view
      ensures Linked() && view == DropInflight(old(view)) && view.droppedBytes == old(view).droppedBytes + bytes
    {
      if inflight.None? {
        return 0;
      }
      ghost var h := shipped[|shipped| - 1];
      assert h in shipped;
      bytes := EntriesBytes(inflight.value.entries, h.report.lines);
      hide Archive;
      droppedReports, droppedBytes, inflight := droppedReports + 1, droppedBytes + bytes, None;
      view := DropInflight(view);
    }

    method Refuse(bytes: nat)
      requires Linked()
      modifies this`droppedBytes, this`view
      ensures Linked() && view == old(view).(droppedBytes := old(view).droppedBytes + bytes)
    {
      hide Archive;
      droppedBytes := droppedBytes + bytes;
      view := view.(droppedBytes := droppedBytes);
    }

    method NewEntry(k: Key)
      requires Linked() && k !in pending
      modifies this`pending, this`repr, this`view
      ensures Linked() && fresh(repr - old(repr)) && k in pending && pending[k] in repr && pending[k] !in old(repr)
      ensures view == old(view).(pending := old(view).pending[k := Amount(0, 0)])
    {
      hide Archive;
      var entry := new Entry(k);
      pending, repr := pending[k := entry], repr + {entry};
      view := view.(pending := view.pending[k := Amount(0, 0)]);
    }

    /** Counts into the pending entry in place. */
    method Count(k: Key, a: Amount)
      requires Linked() && k in pending
      modifies pending[k], this`view
      ensures Linked() && view == Merge(old(view), k, a)
    {
      hide Archive;
      var cur := pending[k];
      cur.up := cur.up + a.up;
      cur.down := cur.down + a.down;
      view := Merge(view, k, a);
    }

    /** Finds or makes the pending entry of a record, or refuses the record. */
    method Reserve(k: Key, a: Amount) returns (ok: bool, dropped: nat)
      requires Linked()
      modifies this
      ensures Linked() && shipped == old(shipped) && fresh(repr - old(repr)) && view.droppedBytes == old(view).droppedBytes + dropped
      ensures ok ==> k in pending && pending[k] in repr && (k in old(pending) || pending[k] !in old(repr))
      ensures k in old(pending) ==> pending == old(pending)
      ensures (if ok then Merge(view, k, a) else view) == Accept(old(view), k, a)
    {
      ok, dropped := true, 0;
      assert forall x :: x in view.pending <==> x in pending;
      assert k in pending ==> pending[k] in repr;
      assert view.inflight.Some? <==> inflight.Some?;
      MergeTwice(view, k, a);
      MergeTwice(DropInflight(view), k, a);
      hide Linked, Archive, Size, Merge;
      if k !in pending {
        var full := Full();
        if full {
          if inflight.None? {
            Refuse(a.up + a.down);
            return false, a.up + a.down;
          }
          dropped := Drop();
        }
        NewEntry(k);
      }
    }

    /** One record of Add's loop. */
    method AddRecord(node: string, t: Traffic) returns (dropped: nat)
      requires Valid()
      modifies this, repr
      ensures Valid() && shipped == old(shipped) && fresh(repr - old(repr))
      ensures view == AddOne(old(view), node, t) && view.droppedBytes == old(view).droppedBytes + dropped
      ensures !Overflows(old(view), node, t) ==> dropped == 0 && view == old(view).(pending := view.pending)
    {
      AddStaysBounded(view, node, t);
      AddOneExactly(view, node, t);
      var k := Key(node, t.uid);
      assert k in pending ==> pending[k] in repr;
      hide Linked, Archive, Bounded, Accept;
      var up, down := NonNegative(t.upload), NonNegative(t.download);
      if up == 0 && down == 0 {
        return 0;
      }
      var ok;
      ok, dropped := Reserve(k, Amount(up, down));
      if ok {
        Count(k, Amount(up, down));
      }
    }

    method Full() returns (full: bool)
      requires Linked()
      ensures full == (Size(view) >= MAX_BUFFERED)
    {
      assert |view.pending| == |view.pending.Keys| && |pending| == |pending.Keys|;
      assert inflight.Some? ==> shipped[|shipped| - 1] in shipped;
      full := |pending| + (if inflight.Some? then |inflight.value.entries| else 0) >= MAX_BUFFERED;
    }

    method Add(node: string, ts: seq<Traffic>) returns (dropped: nat)
      requires Valid()
      modifies this, repr
      ensures Valid() && shipped == old(shipped) && fresh(repr - old(repr))
      ensures view == AddAll(old(view), node, ts) && view.droppedBytes == old(view).droppedBytes + dropped
      ensures |old(view).pending| + (if old(view).inflight.Some? then |old(view).inflight.value.lines| else 0) + |ts| <= 131072 ==>
                dropped == 0 && view == old(view).(pending := view.pending)
    {
      if |view.pending| + (if view.inflight.Some? then |view.inflight.value.lines| else 0) + |ts| <= 131072 {
        AddAllFits(view, node, ts);
      }
      dropped := 0;
      ghost var goal := AddAll(view, node, ts);
      assert ts[0..] == ts;
      for i := 0 to |ts|
        invariant Valid() && shipped == old(shipped) && fresh(repr - old(repr))
        invariant AddAll(view, node, ts[i..]) == goal && view.droppedBytes == old(view).droppedBytes + dropped
      {
        assert ts[i..][1..] == ts[i + 1..];
        var more := AddRecord(node, ts[i]);
        dropped := dropped + more;
      }
    }

    /** Takes the entries of the first keys out of pending. */
    method TakeOut(ks: seq<Key>, n: nat) returns (out: seq<Entry>)
      requires n <= |ks| && Sorted(ks) && forall k :: k in ks <==> k in pending
      modifies this`pending
      ensures |out| == n && forall i :: 0 <= i < n ==> ks[i] in old(pending) && out[i] == old(pending)[ks[i]]
      ensures pending == old(pending) - KeySet(ks[..n])
    {
      hide Less;
      out := [];
      assert pending - KeySet(ks[..0]) == pending;
      for i := 0 to n
        invariant |out| == i && forall j :: 0 <= j < i ==> ks[j] in old(pending) && out[j] == old(pending)[ks[j]]
        invariant pending == old(pending) - KeySet(ks[..i])
      {
        NoRepeats(ks, i);
        assert ks[i] in ks;
        assert ks[..i + 1] == ks[..i] + [ks[i]];
        assert KeySet(ks[..i + 1]) == KeySet(ks[..i]) + {ks[i]};
        out := out + [pending[ks[i]]];
        pending := pending - {ks[i]};
      }
    }

    method TakeLines(ks: seq<Key>, n: nat) returns (out: seq<Entry>)
      requires Holds(pending, view.pending, repr - frozen) && n <= |ks| && Sorted(ks) && forall k :: k in ks <==> k in pending
      modifies this`pending
      ensures forall k :: k in ks[..n] ==> k in view.pending
      ensures Shows(out, LinesOf(view.pending, ks[..n]))
      ensures forall e :: e in out ==> e in repr && e.key in KeySet(ks[..n])
      ensures Holds(pending, view.pending - KeySet(ks[..n]), repr - frozen)
    {
      ghost var p := pending;
      out := TakeOut(ks, n);
      hide Less, Sorted, Holds, Shows, LinesOf, KeySet;
      TakenShow(p, view.pending, repr - frozen, ks[..n], out);
      HoldsLess(p, view.pending, repr - frozen, KeySet(ks[..n]));
    }

    method SealFirst(id: Id, ks: seq<Key>, n: nat)
      requires Linked() && n <= |ks| && Sorted(ks) && forall k :: k in ks <==> k in view.pending
      modifies this
      ensures Linked() && repr == old(repr) && old(shipped) <= shipped
      ensures forall k :: k in ks[..n] ==> k in old(view).pending
      ensures var lines := LinesOf(old(view).pending, ks[..n]);
              view == old(view).(pending := old(view).pending - KeySet(ks[..n]), inflight := Some(Report(id, lines)))
    {
      hide Archive, Less, Sorted, Shows, LinesOf, KeySet;
      assert forall k :: k in ks <==> k in pending;
      var entries := TakeLines(ks, n);
      hide Holds;
      inflight := Some(Sealed(id, entries));
      Freeze(id, entries, LinesOf(view.pending, ks[..n]), ks[..n]);
    }

    /** Seals pending into a new report unless one is under way. */
    method Seal(id: Id)
      requires Valid()
      modifies this
      ensures Valid() && repr == old(repr) && old(shipped) <= shipped
      ensures Seals(old(view), id, view)
    {
      assert |view.pending| == |view.pending.Keys| && |pending| == |pending.Keys|;
      if inflight.Some? || |pending| == 0 {
        return;
      }
      var ks := SortKeys(pending.Keys);
      var n := Min(|ks|, MAX_PER_REPORT);
      assert view.inflight.None? && forall k :: k in ks <==> k in view.pending;
      FirstKeysTaken(view.pending, ks, n);
      TakesSize(view.pending, LinesOf(view.pending, ks[..n]), view.pending - KeySet(ks[..n]));
      hide Archive, Less, Linked, Sorted, Takes;
      SealFirst(id, ks, n);
    }

    /** Hands the report under way to the link, sealing one first if there is none. */
    method Flush(connected: bool, id: Id) returns (message: Option<Sealed>)
      requires Valid()
      modifies this
      ensures Valid() && repr == old(repr) && old(shipped) <= shipped
      ensures Flushes(old(view), connected, id, view, if message.Some? then view.inflight else None)
      ensures message.Some? ==> message == inflight
    {
      message := None;
      if connected {
        Seal(id);
        message := inflight;
      }
    }

    /** The panel has recorded a report. */
    method OnAck(ack: Id, connected: bool, id: Id) returns (message: Option<Sealed>)
      requires Valid()
      modifies this
      ensures Valid() && repr == old(repr) && old(shipped) <= shipped
      ensures Acknowledges(old(view), ack, connected, id, view, if message.Some? then view.inflight else None)
      ensures message.Some? ==> message == inflight
    {
      message := None;
      assert inflight.Some? ==> shipped[|shipped| - 1] in shipped;
      if inflight.None? || inflight.value.id != ack {
        return;
      }
      inflight, view := None, view.(inflight := None);
      assert |view.pending| == |view.pending.Keys| && |pending| == |pending.Keys|;
      if |pending| > 0 {
        hide Archive, Seals;
        message := Flush(connected, id);
      }
    }

    /** The sealed entries become unreachable from pending for good. */
    ghost method Freeze(id: Id, entries: seq<Entry>, lines: seq<Line>, ks: seq<Key>)
      requires inflight == Some(Sealed(id, entries)) && Shows(entries, lines) && Keys(lines) == ks
      requires frozen <= repr && Archive() && view.droppedReports == droppedReports && view.droppedBytes == droppedBytes
      requires forall e :: e in entries ==> e in repr && e.key in KeySet(ks)
      requires Holds(pending, view.pending - KeySet(ks), repr - frozen)
      modifies this`view, this`shipped, this`frozen
      ensures Linked() && view == old(view).(pending := old(view).pending - KeySet(ks), inflight := Some(Report(id, lines)))
      ensures shipped == old(shipped) + [Shipped(inflight.value, Report(id, lines))]
    {
      hide Shows, KeySet, Keys;
      view := view.(pending := view.pending - KeySet(ks), inflight := Some(Report(id, lines)));
      frozen := frozen + set e | e in entries;
      shipped := shipped + [Shipped(inflight.value, Report(id, lines))];
    }
  }

  function LinesOf(m: map<Key, Amount>, ks: seq<Key>): (lines: seq<Line>)
    requires forall k :: k in ks ==> k in m
    ensures |lines| == |ks| && Keys(lines) == ks
    ensures forall i :: 0 <= i < |ks| ==> lines[i] == Line(ks[i], m[ks[i]])
  {
    if ks == [] then [] else [Line(ks[0], m[ks[0]])] + LinesOf(m, ks[1..])
  }

  lemma {:induction false} NoRepeats(ks: seq<Key>, i: nat)
    requires Sorted(ks) && i < |ks|
    ensures ks[i] !in ks[..i]
  {
    Order(ks[i], ks[i], ks[i]);
  }

  /** The keys left out are greater than the ones taken. */
  lemma {:induction false} RestIsGreater(ks: seq<Key>, n: nat, i: nat, k: Key)
    requires Sorted(ks) && i < n <= |ks| && k in ks && k !in ks[..n]
    ensures Less(ks[i], k)
  {
    var j :| 0 <= j < |ks| && ks[j] == k;
  }

  lemma {:induction false} FirstKeysTaken(m: map<Key, Amount>, ks: seq<Key>, n: nat)
    requires Sorted(ks) && |ks| == |m| && n == Min(|m|, MAX_PER_REPORT)
    requires forall k :: k in ks <==> k in m
    ensures forall k :: k in ks[..n] ==> k in m
    ensures Takes(m, LinesOf(m, ks[..n]), m - KeySet(ks[..n]))
  {
    assert Sorted(ks[..n]);
    forall k, i | k in m - KeySet(ks[..n]) && 0 <= i < n
      ensures Less(ks[i], k)
    {
      RestIsGreater(ks, n, i, k);
    }
    hide Less, Sorted, LinesOf;
  }

  lemma {:induction false} TakesSize(before: map<Key, Amount>, lines: seq<Line>, after: map<Key, Amount>)
    requires Takes(before, lines, after)
    ensures |after| + |lines| == |before|
  {
    hide Less, Sorted;
    SortedSize(Keys(lines));
    assert KeySet(Keys(lines)) <= before.Keys;
    assert after.Keys == before.Keys - KeySet(Keys(lines));
    assert |after| == |after.Keys| && |before| == |before.Keys|;
  }

  lemma {:induction false} SortedSize(ks: seq<Key>)
    requires Sorted(ks)
    ensures |KeySet(ks)| == |ks|
  {
    hide Less;
    if ks != [] {
      var n := |ks| - 1;
      SortedSize(ks[..n]);
      NoRepeats(ks, n);
      assert ks == ks[..n] + [ks[n]];
      assert KeySet(ks) == KeySet(ks[..n]) + {ks[n]};
    }
  }

  // ------------------------------------------------------------------ the whole system

  datatype Direction = Up | Down

  /** What is being counted: one user's traffic in one direction, or all bytes. */
  datatype Probe = User(key: Key, dir: Direction) | Bytes

  function Weigh(l: Line, p: Probe): nat {
    match p
    case User(k, Up) => if l.key == k then l.amount.up else 0
    case User(k, Down) => if l.key == k then l.amount.down else 0
    case Bytes => l.amount.up + l.amount.down
  }

  function Total(lines: seq<Line>, p: Probe): nat {
    if lines == [] then 0 else Weigh(lines[0], p) + Total(lines[1..], p)
  }

  function Pending(m: map<Key, Amount>, p: Probe): nat
    requires p.User?
  {
    if p.key in m then Weigh(Line(p.key, m[p.key]), p) else 0
  }

  /** The reports of the log whose ids are among these. */
  function Sum(log: seq<Report>, ids: set<Id>, p: Probe): nat {
    if log == [] then 0 else (if log[0].id in ids then Total(log[0].lines, p) else 0) + Sum(log[1..], ids, p)
  }

  /**
   The node with everything it was ever given, the link as all messages and acknowledgements ever put on
   it (each may arrive never, late, repeatedly and in any order), and the panel with the ids and traffic
   it recorded.
   */
  datatype System = System(
    buffer: Buffer,
    added: seq<Line>, refused: seq<Line>,
    log: seq<Report>, acked: set<Id>, dropped: set<Id>,
    sent: set<Report>, acks: set<Id>,
    recorded: set<Id>, ledger: seq<Line>)

  datatype Step =
    | Add(node: string, t: Traffic)
    | Flush(connected: bool, id: Id, queued: bool)
    | Deliver(r: Report)
    | AckArrives(ack: Id, connected: bool, id: Id, queued: bool)

  function Start(): System { System(Buffer(map[], None, 0, 0), [], [], [], {}, {}, {}, {}, {}, []) }

  function Given(node: string, t: Traffic): Line { Line(Key(node, t.uid), Counted(t)) }

  /** The log after a step that may have sealed a report. */
  function Sealing(s: System, after: Buffer): seq<Report> {
    if after.inflight.Some? && after.inflight != s.buffer.inflight then s.log + [after.inflight.value] else s.log
  }

  function Refused(b: Buffer, l: Line): bool {
    l.amount != Amount(0, 0) && l.key !in b.pending && Size(b) >= MAX_BUFFERED && b.inflight.None?
  }

  /** Report ids are never reused. */
  ghost predicate Next(s: System, step: Step, t: System) {
    match step
    case Add(node, traffic) =>
      var l, b := Given(node, traffic), AddOne(s.buffer, node, traffic);
      t == s.(buffer := b, added := s.added + [l],
              refused := if Refused(s.buffer, l) then s.refused + [l] else s.refused,
              dropped := if s.buffer.inflight.Some? && b.inflight.None? then s.dropped + {s.buffer.inflight.value.id} else s.dropped)
    case Flush(connected, id, queued) =>
      && Unused(s, id)
      && exists message :: Flushes(s.buffer, connected, id, t.buffer, message) && t == Send(s, t.buffer, message, queued)
    case Deliver(r) =>
      && r in s.sent
      && t == (if r.id in s.recorded then s.(acks := s.acks + {r.id})
               else s.(recorded := s.recorded + {r.id}, ledger := s.ledger + r.lines, acks := s.acks + {r.id}))
    case AckArrives(ack, connected, id, queued) =>
      && ack in s.acks && Unused(s, id)
      && exists message :: Acknowledges(s.buffer, ack, connected, id, t.buffer, message) && t == Send(Retire(s, ack), t.buffer, message, queued)
  }

  function Ids(log: seq<Report>): set<Id> { set i | 0 <= i < |log| :: log[i].id }

  ghost predicate Unused(s: System, id: Id) { id !in Ids(s.log) }

  function Send(s: System, after: Buffer, message: Option<Report>, queued: bool): System {
    s.(buffer := after, log := Sealing(s, after),
       sent := if message.Some? && queued then s.sent + {message.value} else s.sent)
  }

  /** The report under way, if this acknowledges it, is done. */
  function Retire(s: System, ack: Id): System {
    if s.buffer.inflight.Some? && s.buffer.inflight.value.id == ack
    then s.(buffer := s.buffer.(inflight := None), acked := s.acked + {ack})
    else s
  }

  // ------------------------------------------------------------------ sums

  lemma {:induction false} TotalAppend(a: seq<Line>, b: seq<Line>, p: Probe)
    ensures Total(a + b, p) == Total(a, p) + Total(b, p)
  {
    if a == [] {
      assert a + b == b;
    } else {
      assert (a + b)[1..] == a[1..] + b;
      TotalAppend(a[1..], b, p);
    }
  }

  lemma {:induction false} TotalOne(l: Line, p: Probe)
    ensures Total([l], p) == Weigh(l, p)
  {
    assert [l][1..] == [];
  }

  lemma {:induction false} BytesAreTotal(lines: seq<Line>)
    ensures BytesIn(lines) == Total(lines, Bytes)
  {
    if lines != [] {
      BytesAreTotal(lines[1..]);
    }
  }

  predicate DistinctIds(log: seq<Report>) { forall i, j :: 0 <= i < j < |log| ==> log[i].id != log[j].id }

  lemma {:induction false} SumSnoc(log: seq<Report>, r: Report, ids: set<Id>, p: Probe)
    ensures Sum(log + [r], ids, p) == Sum(log, ids, p) + if r.id in ids then Total(r.lines, p) else 0
  {
    if log == [] {
      assert log + [r] == [r] && [r][1..] == log;
    } else {
      assert (log + [r])[1..] == log[1..] + [r];
      SumSnoc(log[1..], r, ids, p);
    }
  }

  /** One more id adds that report, once. */
  lemma {:induction false} SumExtend(log: seq<Report>, ids: set<Id>, i: nat, p: Probe)
    requires DistinctIds(log) && i < |log| && log[i].id !in ids
    ensures Sum(log, ids + {log[i].id}, p) == Sum(log, ids, p) + Total(log[i].lines, p)
  {
    var id := log[i].id;
    if i == 0 {
      SumForeign(log[1..], ids, id, p);
    } else {
      SumExtend(log[1..], ids, i - 1, p);
    }
  }

  lemma {:induction false} SumForeign(log: seq<Report>, ids: set<Id>, id: Id, p: Probe)
    requires forall j :: 0 <= j < |log| ==> log[j].id != id
    ensures Sum(log, ids + {id}, p) == Sum(log, ids, p)
  {
    if log != [] {
      SumForeign(log[1..], ids, id, p);
    }
  }

  lemma {:induction false} SumGrows(log: seq<Report>, a: set<Id>, b: set<Id>, p: Probe)
    requires forall j :: 0 <= j < |log| && log[j].id in a ==> log[j].id in b
    ensures Sum(log, a, p) <= Sum(log, b, p)
  {
    if log != [] {
      SumGrows(log[1..], a, b, p);
    }
  }

  lemma {:induction false} SumUnion(log: seq<Report>, a: set<Id>, b: set<Id>, p: Probe)
    requires a !! b
    ensures Sum(log, a + b, p) == Sum(log, a, p) + Sum(log, b, p)
  {
    if log != [] {
      SumUnion(log[1..], a, b, p);
    }
  }

  /** Sealing moves amounts from pending into the report. */
  lemma {:induction false} TakesBalance(before: map<Key, Amount>, lines: seq<Line>, after: map<Key, Amount>, p: Probe)
    requires Takes(before, lines, after) && p.User?
    ensures Pending(before, p) == Pending(after, p) + Total(lines, p)
  {
    SortedTotal(before, lines, p);
    if p.key in KeySet(Keys(lines)) {
      assert p.key in Keys(lines);
    }
  }

  lemma {:induction false} SortedTotal(m: map<Key, Amount>, lines: seq<Line>, p: Probe)
    requires p.User? && Sorted(Keys(lines))
    requires forall i :: 0 <= i < |lines| ==> lines[i].key in m && lines[i].amount == m[lines[i].key]
    ensures Total(lines, p) == if p.key in Keys(lines) then Pending(m, p) else 0
  {
    if lines != [] {
      var rest := lines[1..];
      assert Keys(lines) == [lines[0].key] + Keys(rest) && Keys(lines)[1..] == Keys(rest);
      SortedTotal(m, rest, p);
      HeadIsUnique(Keys(lines));
    }
  }

  lemma {:induction false} HeadIsUnique(ks: seq<Key>)
    requires Sorted(ks) && ks != []
    ensures ks[0] !in ks[1..]
  {
    Order(ks[0], ks[0], ks[0]);
  }

  // ------------------------------------------------------------------ what every step keeps

  function Active(b: Buffer): set<Id> { if b.inflight.Some? then {b.inflight.value.id} else {} }

  /** Each sealed report is acknowledged, dropped or under way; what is acknowledged has been recorded. */
  predicate Accounted(ids: set<Id>, acked: set<Id>, dropped: set<Id>, active: set<Id>, recorded: set<Id>, acks: set<Id>) {
    && ids == acked + dropped + active
    && acked !! dropped && active !! acked + dropped
    && acked <= recorded <= ids && acks <= recorded
  }

  lemma {:induction false} AccountNew(ids: set<Id>, acked: set<Id>, dropped: set<Id>, recorded: set<Id>, acks: set<Id>, id: Id)
    requires Accounted(ids, acked, dropped, {}, recorded, acks) && id !in ids
    ensures Accounted(ids + {id}, acked, dropped, {id}, recorded, acks)
  {
  }

  /** Ids are unique, and each sealed report is acknowledged, dropped or the one under way. */
  ghost predicate Tidy(s: System) {
    && Bounded(s.buffer)
    && DistinctIds(s.log)
    && Accounted(Ids(s.log), s.acked, s.dropped, Active(s.buffer), s.recorded, s.acks)
    && (s.buffer.inflight.Some? ==> s.log != [] && s.log[|s.log| - 1] == s.buffer.inflight.value)
    && (forall r :: r in s.sent ==> r in s.log)
  }

  function Inflight(b: Buffer, p: Probe): nat { if b.inflight.Some? then Total(b.inflight.value.lines, p) else 0 }

  /** The node's ledger, the drop counter and the panel's ledger are exact. */
  ghost predicate Balanced(s: System, p: Probe) {
    && Total(s.ledger, p) == Sum(s.log, s.recorded, p)
    && (p.User? ==> Total(s.added, p) ==
                    Sum(s.log, s.acked, p) + Inflight(s.buffer, p) + Pending(s.buffer.pending, p)
                    + Sum(s.log, s.dropped, p) + Total(s.refused, p))
    && (p.Bytes? ==> s.buffer.droppedBytes == Sum(s.log, s.dropped, p) + Total(s.refused, p))
  }

  lemma {:induction false} AddKeepsTidy(s: System, step: Step, t: System)
    requires step.Add? && Next(s, step, t) && Tidy(s)
    ensures Tidy(t)
  {
    var b := AddOne(s.buffer, step.node, step.t);
    AddStaysBounded(s.buffer, step.node, step.t);
    assert b.inflight.None? || b.inflight == s.buffer.inflight;
    hide AddOne, Bounded, DistinctIds, Ids;
  }

  lemma {:induction false} AddKeepsBalance(s: System, step: Step, t: System, p: Probe)
    requires step.Add? && Next(s, step, t) && Tidy(s) && Balanced(s, p)
    ensures Balanced(t, p)
  {
    var l, b := Given(step.node, step.t), AddOne(s.buffer, step.node, step.t);
    TotalAppend(s.added, [l], p);
    TotalAppend(s.refused, [l], p);
    TotalOne(l, p);
    AddBalance(s.buffer, step.node, step.t, p);
    if s.buffer.inflight.Some? && b.inflight.None? {
      SumExtend(s.log, s.dropped, |s.log| - 1, p);
    }
    hide AddOne, Bounded, DistinctIds, Ids, Total, Sum, Pending, Weigh, Refused;
  }

  /** A record goes to pending or is refused; a report that had to make room is counted as dropped. */
  lemma {:induction false} AddBalance(b: Buffer, node: string, t: Traffic, p: Probe)
    ensures var after, l := AddOne(b, node, t), Given(node, t);
            var refused := if Refused(b, l) then Weigh(l, p) else 0;
            var lost := if b.inflight.Some? && after.inflight.None? then Total(b.inflight.value.lines, p) else 0;
            && (p.User? ==> Pending(after.pending, p) + refused == Pending(b.pending, p) + Weigh(l, p))
            && (p.Bytes? ==> after.droppedBytes == b.droppedBytes + lost + refused)
            && (after.inflight.None? || after.inflight == b.inflight)
            && (b.inflight.None? ==> after.inflight.None?)
  {
    if b.inflight.Some? {
      BytesAreTotal(b.inflight.value.lines);
    }
    hide BytesIn, Total;
  }

  lemma {:induction false} SealStaysBounded(b: Buffer, id: Id, after: Buffer)
    requires Seals(b, id, after) && Bounded(b)
    ensures Bounded(after)
    ensures b.inflight.Some? || b.pending == map[] ==> after == b
    ensures b.inflight.None? && b.pending != map[] ==> after.inflight.Some? && after.inflight.value.id == id
  {
    if b.inflight.None? && b.pending != map[] {
      TakesSize(b.pending, after.inflight.value.lines, after.pending);
      assert exists k :: k in b.pending.Keys;
      assert |b.pending| == |b.pending.Keys|;
    }
    hide Takes;
  }

  lemma {:induction false} IdsSnoc(log: seq<Report>, r: Report)
    requires DistinctIds(log) && r.id !in Ids(log)
    ensures DistinctIds(log + [r]) && Ids(log + [r]) == Ids(log) + {r.id}
  {
    var log' := log + [r];
    assert forall i :: 0 <= i < |log| ==> log'[i] == log[i] && log[i].id in Ids(log);
    assert log'[|log|] == r;
  }

  lemma {:induction false} LogGrows(s: System, after: Buffer)
    requires Tidy(s) && s.buffer.inflight.None? && after.inflight.Some? && Unused(s, after.inflight.value.id) && Bounded(after)
    ensures Tidy(s.(buffer := after, log := s.log + [after.inflight.value]))
  {
    var r := after.inflight.value;
    IdsSnoc(s.log, r);
    hide DistinctIds, Ids, Bounded, Accounted;
    AccountNew(Ids(s.log), s.acked, s.dropped, s.recorded, s.acks, r.id);
  }

  lemma {:induction false} SealKeepsTidy(s: System, id: Id, after: Buffer)
    requires Tidy(s) && Unused(s, id) && Seals(s.buffer, id, after)
    ensures var t := s.(buffer := after, log := Sealing(s, after));
            Tidy(t) && (after.inflight.Some? ==> after.inflight.value in t.log)
  {
    SealStaysBounded(s.buffer, id, after);
    var t := s.(buffer := after, log := Sealing(s, after));
    assert s.buffer.inflight.Some? ==> s.log[|s.log| - 1] in s.log;
    if s.buffer.inflight.None? && s.buffer.pending != map[] {
      LogGrows(s, after);
      assert t == s.(buffer := after, log := s.log + [after.inflight.value]);
    } else {
      assert t == s;
    }
    hide Seals, Bounded, Tidy;
  }

  lemma {:induction false} SealKeepsBalance(s: System, id: Id, after: Buffer, p: Probe)
    requires Tidy(s) && Balanced(s, p) && Unused(s, id) && Seals(s.buffer, id, after)
    ensures Balanced(s.(buffer := after, log := Sealing(s, after)), p)
  {
    if s.buffer.inflight.None? && s.buffer.pending != map[] {
      var r := after.inflight.value;
      if p.User? {
        TakesBalance(s.buffer.pending, r.lines, after.pending, p);
      }
      assert r.id !in s.acked && r.id !in s.dropped && r.id !in s.recorded;
      SumSnoc(s.log, r, s.acked, p);
      SumSnoc(s.log, r, s.dropped, p);
      SumSnoc(s.log, r, s.recorded, p);
      hide Takes, Bounded, DistinctIds, Ids, Total, Sum, Pending, Tidy;
    }
  }

  lemma {:induction false} QueueKeeps(s: System, r: Report, p: Probe)
    requires Tidy(s) && Balanced(s, p) && r in s.log
    ensures var t := s.(sent := s.sent + {r}); Tidy(t) && Balanced(t, p)
  {
    hide Bounded, DistinctIds, Ids, Accounted, Sum, Total, Pending;
  }

  lemma {:induction false} SendKeeps(s: System, connected: bool, id: Id, after: Buffer, message: Option<Report>, queued: bool, p: Probe)
    requires Tidy(s) && Balanced(s, p) && Unused(s, id) && Flushes(s.buffer, connected, id, after, message)
    ensures var t := Send(s, after, message, queued); Tidy(t) && Balanced(t, p)
  {
    hide Seals, Tidy, Balanced;
    if connected {
      SealKeepsTidy(s, id, after);
      SealKeepsBalance(s, id, after, p);
      var mid := s.(buffer := after, log := Sealing(s, after));
      if message.Some? && queued {
        QueueKeeps(mid, message.value, p);
        assert Send(s, after, message, queued) == mid.(sent := mid.sent + {message.value});
      } else {
        assert Send(s, after, message, queued) == mid;
      }
    } else {
      assert Send(s, after, message, queued) == s;
    }
  }

  lemma {:induction false} RetireAccount(ids: set<Id>, acked: set<Id>, dropped: set<Id>, recorded: set<Id>, acks: set<Id>, id: Id)
    requires Accounted(ids, acked, dropped, {id}, recorded, acks) && id in acks
    ensures Accounted(ids, acked + {id}, dropped, {}, recorded, acks) && id !in acked
  {
  }

  /** An acknowledged report was recorded, so retiring it loses nothing. */
  lemma {:induction false} RetireKeepsTidy(s: System, ack: Id)
    requires Tidy(s) && ack in s.acks
    ensures Tidy(Retire(s, ack))
  {
    hide Accounted, Ids, DistinctIds;
    if s.buffer.inflight.Some? && s.buffer.inflight.value.id == ack {
      RetireAccount(Ids(s.log), s.acked, s.dropped, s.recorded, s.acks, ack);
    }
  }

  lemma {:induction false} RetireKeepsBalance(s: System, ack: Id, p: Probe)
    requires Tidy(s) && Balanced(s, p) && ack in s.acks
    ensures Balanced(Retire(s, ack), p)
  {
    hide Total, Pending, Sum, Ids;
    if s.buffer.inflight.Some? && s.buffer.inflight.value.id == ack {
      SumExtend(s.log, s.acked, |s.log| - 1, p);
    }
  }

  lemma {:induction false} RecordAccount(ids: set<Id>, acked: set<Id>, dropped: set<Id>, active: set<Id>, recorded: set<Id>, acks: set<Id>, id: Id)
    requires Accounted(ids, acked, dropped, active, recorded, acks) && id in ids
    ensures Accounted(ids, acked, dropped, active, recorded + {id}, acks + {id})
  {
  }

  lemma {:induction false} DeliverKeepsTidy(s: System, step: Step, t: System)
    requires step.Deliver? && Next(s, step, t) && Tidy(s)
    ensures Tidy(t)
  {
    var r := step.r;
    assert r.id in Ids(s.log);
    hide Accounted, Ids, Bounded, DistinctIds;
    RecordAccount(Ids(s.log), s.acked, s.dropped, Active(s.buffer), s.recorded, s.acks, r.id);
    if r.id in s.recorded {
      assert s.recorded + {r.id} == s.recorded;
    }
  }

  /** The panel books a report the first time its id arrives and only then. */
  lemma {:induction false} DeliverKeepsBalance(s: System, step: Step, t: System, p: Probe)
    requires step.Deliver? && Next(s, step, t) && Tidy(s) && Balanced(s, p)
    ensures Balanced(t, p)
  {
    var r := step.r;
    hide Accounted, Ids, Pending, Bounded, Total, Sum;
    if r.id !in s.recorded {
      var i :| 0 <= i < |s.log| && s.log[i] == r;
      SumExtend(s.log, s.recorded, i, p);
      TotalAppend(s.ledger, r.lines, p);
    }
  }

  lemma {:induction false} StepKeeps(s: System, step: Step, t: System, p: Probe)
    requires Next(s, step, t) && Tidy(s) && Balanced(s, p)
    ensures Tidy(t) && Balanced(t, p)
  {
    hide Tidy, Balanced, Seals;
    match step
    case Add(_, _) =>
      AddKeepsTidy(s, step, t);
      AddKeepsBalance(s, step, t, p);
    case Flush(connected, id, queued) =>
      var message :| Flushes(s.buffer, connected, id, t.buffer, message) && t == Send(s, t.buffer, message, queued);
      SendKeeps(s, connected, id, t.buffer, message, queued, p);
    case Deliver(_) =>
      DeliverKeepsTidy(s, step, t);
      DeliverKeepsBalance(s, step, t, p);
    case AckArrives(ack, connected, id, queued) =>
      var message :| Acknowledges(s.buffer, ack, connected, id, t.buffer, message) && t == Send(Retire(s, ack), t.buffer, message, queued);
      RetireKeepsTidy(s, ack);
      RetireKeepsBalance(s, ack, p);
      var mid := Retire(s, ack);
      if Flushes(mid.buffer, connected, id, t.buffer, message) {
        SendKeeps(mid, connected, id, t.buffer, message, queued, p);
      }
  }

  // ------------------------------------------------------------------ every run

  ghost predicate Run(states: seq<System>, steps: seq<Step>) {
    && |states| == |steps| + 1 && states[0] == Start()
    && forall i :: 0 <= i < |steps| ==> Next(states[i], steps[i], states[i + 1])
  }

  lemma {:induction false} RunKeeps(states: seq<System>, steps: seq<Step>, n: nat, p: Probe)
    requires Run(states, steps) && n < |states|
    ensures Tidy(states[n]) && Balanced(states[n], p)
  {
    if n == 0 {
      assert Tidy(Start()) && Balanced(Start(), p);
    } else {
      hide Next, Tidy, Balanced;
      assert Next(states[n - 1], steps[n - 1], states[n - 1 + 1]);
      RunKeeps(states, steps, n - 1, p);
      StepKeeps(states[n - 1], steps[n - 1], states[n], p);
    }
  }

  /**
   After every run, for every user and direction: the panel has recorded at least what was acknowledged
   and never more than was added, and the node's own ledger is exact.
   */
  lemma {:induction false} NeverOvercounts(states: seq<System>, steps: seq<Step>, n: nat, p: Probe)
    requires Run(states, steps) && n < |states| && p.User?
    ensures var s := states[n];
            && Sum(s.log, s.acked, p) <= Total(s.ledger, p) <= Total(s.added, p)
            && Total(s.added, p) == Sum(s.log, s.acked, p) + Inflight(s.buffer, p) + Pending(s.buffer.pending, p)
                                    + Sum(s.log, s.dropped, p) + Total(s.refused, p)
            && |s.buffer.pending| + (if s.buffer.inflight.Some? then |s.buffer.inflight.value.lines| else 0) <= 131072
  {
    RunKeeps(states, steps, n, p);
    var s := states[n];
    RecordedWithin(s, p);
    hide Run, Sum, Total, Pending, Next;
  }

  lemma {:induction false} RecordedWithin(s: System, p: Probe)
    requires Tidy(s)
    ensures Sum(s.log, s.acked, p) <= Sum(s.log, s.recorded, p)
    ensures Sum(s.log, s.recorded, p) <= Sum(s.log, s.acked, p) + Sum(s.log, s.dropped, p) + Inflight(s.buffer, p)
  {
    SumGrows(s.log, s.acked, s.recorded, p);
    SumGrows(s.log, s.recorded, s.acked + s.dropped + Active(s.buffer), p);
    SumUnion(s.log, s.acked, s.dropped, p);
    if s.buffer.inflight.Some? {
      SumExtend(s.log, s.acked + s.dropped, |s.log| - 1, p);
    } else {
      assert s.acked + s.dropped + {} == s.acked + s.dropped;
    }
    hide Sum, Total;
  }

  /** Once the buffer has drained and nothing was dropped or refused, the panel has exactly what was added. */
  lemma {:induction false} NothingLost(states: seq<System>, steps: seq<Step>, n: nat, p: Probe)
    requires Run(states, steps) && n < |states| && p.User?
    requires var s := states[n]; s.buffer.inflight.None? && s.buffer.pending == map[] && s.dropped == {} && s.refused == []
    ensures Total(states[n].ledger, p) == Total(states[n].added, p)
  {
    NeverOvercounts(states, steps, n, p);
    NoneOf(states[n].log, p);
  }

  lemma {:induction false} NoneOf(log: seq<Report>, p: Probe)
    ensures Sum(log, {}, p) == 0
  {
    if log != [] {
      NoneOf(log[1..], p);
    }
  }

  /** Two messages of one report id are the same message, however much traffic came in between. */
  lemma {:induction false} ResendsAreIdentical(states: seq<System>, steps: seq<Step>, n: nat, a: Report, b: Report)
    requires Run(states, steps) && n < |states|
    requires a in states[n].sent && b in states[n].sent && a.id == b.id
    ensures a == b
  {
    RunKeeps(states, steps, n, Bytes);
    var log := states[n].log;
    var i :| 0 <= i < |log| && log[i] == a;
    var j :| 0 <= j < |log| && log[j] == b;
    assert i < j || j < i || i == j;
  }

  /** The drop counter is exactly the bytes of the reports and records dropped. */
  lemma {:induction false} DropsAreCounted(states: seq<System>, steps: seq<Step>, n: nat)
    requires Run(states, steps) && n < |states|
    ensures var s := states[n]; s.buffer.droppedBytes == Sum(s.log, s.dropped, Bytes) + Total(s.refused, Bytes)
  {
    RunKeeps(states, steps, n, Bytes);
  }

  // ------------------------------------------------------------------ when something is dropped, and that reports get on

  /**
   In every run, the counters and sets of what was dropped and refused change exactly with a record that finds all
   places taken; every other record is added to its user's pending amounts and leaves the report under way.
   */
  lemma {:induction false} DropsOnlyWhenFull(states: seq<System>, steps: seq<Step>, n: nat)
    requires Run(states, steps) && n < |steps|
    ensures var s, t, step := states[n], states[n + 1], steps[n];
            var lost := step.Add? && Overflows(s.buffer, step.node, step.t);
            && (!lost ==> (t.dropped, t.refused, t.buffer.droppedReports, t.buffer.droppedBytes)
                          == (s.dropped, s.refused, s.buffer.droppedReports, s.buffer.droppedBytes))
            && (lost && s.buffer.inflight.Some? ==> t.dropped == s.dropped + {s.buffer.inflight.value.id} && t.refused == s.refused)
            && (lost && s.buffer.inflight.None? ==> t.dropped == s.dropped && t.refused == s.refused + [Given(step.node, step.t)])
            && (step.Add? && !lost ==> t.buffer == s.buffer.(pending := t.buffer.pending))
  {
    RunKeeps(states, steps, n, Bytes);
    assert Next(states[n], steps[n], states[n + 1]);
    var s, t, step := states[n], states[n + 1], steps[n];
    hide Run, Balanced;
    if step.Add? {
      AddOneExactly(s.buffer, step.node, step.t);
    } else {
      hide Takes;
    }
  }

  function Positive(v: int): nat { if v > 0 then v else 0 }

  /** All the traffic the kernel ever handed over for a user of a node. */
  function Offered(steps: seq<Step>, k: Key, d: Direction): nat {
    if steps == [] then 0
    else
      var last := steps[|steps| - 1];
      Offered(steps[..|steps| - 1], k, d) +
      if last.Add? && last.node == k.node && last.t.uid == k.uid
      then Positive(if d.Up? then last.t.upload else last.t.download) else 0
  }

  lemma {:induction false} AddedIsOffered(states: seq<System>, steps: seq<Step>, n: nat, k: Key, d: Direction)
    requires Run(states, steps) && n <= |steps|
    ensures Total(states[n].added, User(k, d)) == Offered(steps[..n], k, d)
  {
    if n > 0 {
      AddedIsOffered(states, steps, n - 1, k, d);
      var s, t, step := states[n - 1], states[n], steps[n - 1];
      assert Next(s, step, states[n - 1 + 1]);
      hide Run;
      assert steps[..n][..n - 1] == steps[..n - 1];
      if step.Add? {
        var l := Given(step.node, step.t);
        TotalAppend(s.added, [l], User(k, d));
        TotalOne(l, User(k, d));
      } else {
        assert t.added == s.added;
      }
    }
  }

  /** In every run, for every user and direction, the panel never books more than the kernel handed over. */
  lemma {:induction false} NeverBooksMore(states: seq<System>, steps: seq<Step>, n: nat, k: Key, d: Direction)
    requires Run(states, steps) && n <= |steps|
    ensures Total(states[n].ledger, User(k, d)) <= Offered(steps[..n], k, d)
  {
    AddedIsOffered(states, steps, n, k, d);
    NeverOvercounts(states, steps, n, User(k, d));
  }

  /** Connected, flushing gets something on its way whenever there is anything: the same report again, or the next. */
  lemma {:induction false} FlushSends(s: System, step: Step, t: System)
    requires Next(s, step, t) && step.Flush?
    ensures !step.connected ==> t == s
    ensures s.buffer.inflight.Some? ==> t.buffer == s.buffer
    ensures step.connected && s.buffer.inflight.None? && s.buffer.pending != map[] ==>
              && t.buffer.inflight.Some? && t.buffer.inflight.value.id == step.id
              && |t.buffer.inflight.value.lines| == Min(|s.buffer.pending|, 5000)
              && |t.buffer.pending| + |t.buffer.inflight.value.lines| == |s.buffer.pending|
    ensures step.connected && step.queued && t.buffer.inflight.Some? ==> t.buffer.inflight.value in t.sent
  {
    if step.connected && s.buffer.inflight.None? && s.buffer.pending != map[] {
      TakesSize(s.buffer.pending, t.buffer.inflight.value.lines, t.buffer.pending);
    }
    hide Takes;
  }

  /** The acknowledgement of the report under way makes room for the next one, which is sent at once; no other does anything. */
  lemma {:induction false} AckGoesOn(s: System, step: Step, t: System)
    requires Next(s, step, t) && step.AckArrives?
    ensures s.buffer.inflight.None? || s.buffer.inflight.value.id != step.ack ==> t == s
    ensures s.buffer.inflight.Some? && s.buffer.inflight.value.id == step.ack ==>
              && t.acked == s.acked + {step.ack}
              && |t.buffer.pending| + (if t.buffer.inflight.Some? then |t.buffer.inflight.value.lines| else 0) == |s.buffer.pending|
              && (t.buffer.inflight.Some? <==> step.connected && s.buffer.pending != map[])
              && (t.buffer.inflight.Some? && step.queued ==> t.buffer.inflight.value in t.sent)
  {
    if s.buffer.inflight.Some? && s.buffer.inflight.value.id == step.ack && step.connected && s.buffer.pending != map[] {
      TakesSize(s.buffer.pending, t.buffer.inflight.value.lines, t.buffer.pending);
    }
    hide Takes;
  }

  // ------------------------------------------------------------------ a working link empties the buffer

  lemma {:induction false} RunMore(states: seq<System>, steps: seq<Step>, step: Step, t: System)
    requires Run(states, steps) && |states| == |steps| + 1 && Next(states[|steps|], step, t)
    ensures Run(states + [t], steps + [step])
  {
    hide Next;
    var ss, ts := states + [t], steps + [step];
    forall i | 0 <= i < |ts|
      ensures Next(ss[i], ts[i], ss[i + 1])
    {
      if i < |steps| {
        assert Next(states[i], steps[i], states[i + 1]);
      }
    }
  }

  /** There is always an id that no report has had. */
  lemma {:induction false} FreshId(log: seq<Report>) returns (id: Id)
    ensures id !in Ids(log) && forall i :: 0 <= i < |log| ==> |log[i].id.uuid| < |id.uuid|
  {
    id := Id("x");
    if log != [] {
      var n := |log| - 1;
      var shorter := FreshId(log[..n]);
      id := Id(seq(|shorter.uuid| + |log[n].id.uuid| + 1, _ => 'x'));
      forall i | 0 <= i < |log|
        ensures |log[i].id.uuid| < |id.uuid|
      {
        assert i < n ==> log[..n][i] == log[i];
      }
    }
  }

  /** Sealing is possible whenever it is due. */
  lemma {:induction false} CanSeal(b: Buffer, id: Id) returns (after: Buffer)
    ensures Seals(b, id, after)
  {
    if b.inflight.Some? || b.pending == map[] {
      return b;
    }
    var ks := KeysInOrder(b.pending.Keys);
    assert |b.pending| == |b.pending.Keys|;
    var n := Min(|ks|, MAX_PER_REPORT);
    FirstKeysTaken(b.pending, ks, n);
    hide Takes;
    after := b.(pending := b.pending - KeySet(ks[..n]), inflight := Some(Report(id, LinesOf(b.pending, ks[..n]))));
  }

  lemma {:induction false} KeysInOrder(keys: set<Key>) returns (ks: seq<Key>)
    ensures Sorted(ks) && |ks| == |keys| && forall k :: k in ks <==> k in keys
  {
    if keys == {} {
      return [];
    }
    var k :| k in keys;
    var rest := KeysInOrder(keys - {k});
    InsertKeepsOrder(rest, k);
    ks := Insert(rest, k);
  }

  /** Nothing that was handed over or lost has changed. */
  predicate SameInput(s: System, t: System) { (t.added, t.refused, t.dropped) == (s.added, s.refused, s.dropped) }

  /** Connected and not refused by the link, a flush puts a report on the way. */
  lemma {:induction false} CanFlush(s: System) returns (step: Step, t: System)
    requires Size(s.buffer) > 0
    ensures Next(s, step, t) && SameInput(s, t) && t.recorded == s.recorded
    ensures t.buffer.inflight.Some? && t.buffer.inflight.value in t.sent && Size(t.buffer) == Size(s.buffer)
  {
    hide Takes;
    var id := FreshId(s.log);
    var b := CanSeal(s.buffer, id);
    step, t := Flush(true, id, true), Send(s, b, b.inflight, true);
    assert Flushes(s.buffer, true, id, b, b.inflight);
    FlushSends(s, step, t);
  }

  /** It arrives and is booked, unless it had been. */
  lemma {:induction false} CanDeliver(s: System, r: Report) returns (t: System)
    requires r in s.sent
    ensures Next(s, Deliver(r), t) && SameInput(s, t) && t.buffer == s.buffer && r.id in t.acks
  {
    t := if r.id in s.recorded then s.(acks := s.acks + {r.id})
         else s.(recorded := s.recorded + {r.id}, ledger := s.ledger + r.lines, acks := s.acks + {r.id});
  }

  /** Its acknowledgement arrives: the buffer is smaller by that report. */
  lemma {:induction false} CanAcknowledge(s: System) returns (step: Step, t: System)
    requires s.buffer.inflight.Some? && s.buffer.inflight.value.id in s.acks && s.buffer.inflight.value.lines != []
    ensures Next(s, step, t) && SameInput(s, t) && Size(t.buffer) < Size(s.buffer)
  {
    hide Takes;
    var ack := s.buffer.inflight.value.id;
    var id := FreshId(s.log);
    var b := s.buffer.(inflight := None);
    var after := CanSeal(b, id);
    var message := if b.pending == map[] then None else after.inflight;
    assert Acknowledges(s.buffer, ack, true, id, after, message);
    step, t := AckArrives(ack, true, id, true), Send(Retire(s, ack), after, message, true);
    AckGoesOn(s, step, t);
  }

  /** No run is stuck: every one goes on, with a link that does its part, until the buffer is empty. */
  lemma {:induction false} Drains(states: seq<System>, steps: seq<Step>) returns (ss: seq<System>, ts: seq<Step>)
    requires Run(states, steps)
    ensures Run(ss, ts) && |ss| == |ts| + 1 && states <= ss && steps <= ts && SameInput(states[|steps|], ss[|ts|])
    ensures ss[|ts|].buffer.pending == map[] && ss[|ts|].buffer.inflight.None?
    decreases Size(states[|steps|].buffer)
  {
    RunKeeps(states, steps, |steps|, Bytes);
    hide Next, Balanced, Run;
    if Size(states[|steps|].buffer) == 0 {
      assert |states| == |steps| + 1;
      return states, steps;
    }
    var us, vs := DrainsOne(states, steps);
    ss, ts := Drains(us, vs);
  }

  /** One report flushed, delivered and acknowledged. */
  lemma {:induction false} DrainsOne(states: seq<System>, steps: seq<Step>) returns (ss: seq<System>, ts: seq<Step>)
    requires Run(states, steps) && |states| == |steps| + 1 && Size(states[|steps|].buffer) > 0
    ensures Run(ss, ts) && |ss| == |ts| + 1 && states <= ss && steps <= ts && SameInput(states[|steps|], ss[|ts|])
    ensures Size(ss[|ts|].buffer) < Size(states[|steps|].buffer)
  {
    hide Next, Balanced, Run, Size;
    var s := states[|steps|];
    var flush, s1 := CanFlush(s);
    RunMore(states, steps, flush, s1);
    var r := s1.buffer.inflight.value;
    var s2 := CanDeliver(s1, r);
    RunMore(states + [s1], steps + [flush], Deliver(r), s2);
    var us, vs := states + [s1] + [s2], steps + [flush] + [Deliver(r)];
    TidyAt(us, vs);
    var ack, s3 := CanAcknowledge(s2);
    RunMore(us, vs, ack, s3);
    ss, ts := us + [s3], vs + [ack];
  }

  lemma {:induction false} TidyAt(states: seq<System>, steps: seq<Step>)
    requires Run(states, steps) && |states| == |steps| + 1
    ensures Bounded(states[|steps|].buffer)
  {
    RunKeeps(states, steps, |steps|, Bytes);
  }

  /** Unless something had to be dropped for space, the panel then has exactly what the kernel handed over. */
  lemma {:induction false} DrainsInFull(states: seq<System>, steps: seq<Step>, k: Key, d: Direction)
    returns (ss: seq<System>, ts: seq<Step>)
    requires Run(states, steps) && states[|steps|].dropped == {} && states[|steps|].refused == []
    ensures Run(ss, ts) && states <= ss && steps <= ts
    ensures Total(ss[|ts|].ledger, User(k, d)) == Offered(steps, k, d)
  {
    ss, ts := Drains(states, steps);
    NothingLost(ss, ts, |ts|, User(k, d));
    AddedIsOffered(states, steps, |steps|, k, d);
    assert steps[..|steps|] == steps;
  }
}
