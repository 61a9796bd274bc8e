/**
 The XHTTP reordering queue: packets stored under their sequence numbers and read strictly in order, with a
 bound on how many wait and, until the session has authenticated, on how many bytes.
 */
module XhttpQueue {
  import opened Wire

  datatype Queue = Queue(
    next: nat, pending: map<nat, bytes>, maxPending: nat, closed: bool, tail: nat,
    held: int, attached: bool, byteLimit: int)

  /** The bytes all unauthenticated sessions of an inbound may keep waiting. */
  datatype Budget = Budget(used: int, limit: int)

  datatype Outcome = Stored | Stale | Repeated | Conflict | Full | OverBudget | Closed

  function NewQueue(maxPending: nat): Queue { Queue(0, map[], maxPending, false, 0, 0, false, 0) }

  // ------------------------------------------------------------------ operations

  predicate Affordable(q: Queue, b: Budget, n: nat) {
    q.attached ==> q.held + n <= q.byteLimit && b.used + n <= b.limit
  }

  function Store(q: Queue, s: nat, payload: bytes): Queue {
    q.(pending := q.pending[s := payload], held := q.held + |payload|, tail := if s >= q.tail then s + 1 else q.tail)
  }

  function Charge(q: Queue, b: Budget, n: int): Budget { if q.attached then b.(used := b.used + n) else b }

  /** A packet with a number from the wire. A retransmission is harmless if it is the same or already consumed. */
  function Push(q: Queue, b: Budget, s: nat, payload: bytes): (Queue, Budget, Outcome) {
    if q.closed then (q, b, Closed)
    else if s < q.next then (q, b, Stale)
    else if s in q.pending then (q, b, if q.pending[s] == payload then Repeated else Conflict)
    else if |q.pending| >= q.maxPending then (q, b, Full)
    else if !Affordable(q, b, |payload|) then (q, b, OverBudget)
    else (Store(q, s, payload), Charge(q, b, |payload|), Stored)
  }

  /** The next free number, given only when there is room: giving up while waiting leaves no hole. */
  function AppendAt(q: Queue): nat { if q.tail < q.next then q.next else q.tail }

  /** One attempt of a waiting writer; Full and OverBudget mean it goes on waiting, or gives up. */
  function Append(q: Queue, b: Budget, payload: bytes): (Queue, Budget, Outcome) {
    if q.closed then (q, b, Closed)
    else if |q.pending| >= q.maxPending then (q, b, Full)
    else if !Affordable(q, b, |payload|) then (q, b, OverBudget)
    else (Store(q, AppendAt(q), payload), Charge(q, b, |payload|), Stored)
  }

  function Read(q: Queue, b: Budget): (Queue, Budget, Option<bytes>) {
    if q.next in q.pending then
      var p := q.pending[q.next];
      (q.(pending := q.pending - {q.next}, next := q.next + 1, held := q.held - |p|), Charge(q, b, -|p|), Some(p))
    else (q, b, None)
  }

  function Below(m: map<nat, bytes>, s: nat): set<nat> { set k | k in m && k < s }

  /** Skips to an acknowledged number, dropping what lies below it. */
  ghost function Resume(q: Queue, b: Budget, s: nat): (Queue, Budget, bool) {
    if q.closed || s < q.next then (q, b, false)
    else
      var kept := q.pending - Below(q.pending, s);
      var freed: int := Size(q.pending) - Size(kept);
      (q.(pending := kept, next := s, held := q.held - freed), Charge(q, b, -freed), true)
  }

  /** After authentication the queue no longer counts against the shared budget. */
  function Leave(q: Queue, b: Budget): (Queue, Budget) { (q.(attached := false), Charge(q, b, -q.held)) }

  /** Nobody will read any more: everything waiting is dropped and given back. */
  ghost function Discard(q: Queue, b: Budget): (Queue, Budget) {
    var freed: int := Size(q.pending);
    (q.(pending := map[], held := q.held - freed, attached := false), Charge(q, b, -freed))
  }

  // ------------------------------------------------------------------ the bytes of a map of payloads

  ghost function Size(m: map<nat, bytes>): nat
    decreases |m|
  {
    if m == map[] then 0
    else
      var k :| k in m;
      assert |m - {k}| < |m| by { Shrinks(m, k); }
      |m[k]| + Size(m - {k})
  }

  lemma {:induction false} Shrinks(m: map<nat, bytes>, k: nat)
    requires k in m
    ensures |m - {k}| == |m| - 1
  {
    assert (m - {k}).Keys == m.Keys - {k};
    assert |m| == |m.Keys| && |m - {k}| == |(m - {k}).Keys|;
  }

  /** The sum does not depend on the order of adding. */
  lemma {:induction false} SizeRemove(m: map<nat, bytes>, k: nat)
    requires k in m
    ensures Size(m) == |m[k]| + Size(m - {k})
    decreases |m|
  {
    var c :| c in m && Size(m) == |m[c]| + Size(m - {c});
    if c != k {
      Shrinks(m, c);
      SizeRemove(m - {c}, k);
      Shrinks(m, k);
      SizeRemove(m - {k}, c);
      assert m - {c} - {k} == m - {k} - {c};
    }
  }

  lemma {:induction false} NothingLeft(m: map<nat, bytes>)
    ensures m - m.Keys == map[] && Size(map[]) == 0
  {
  }

  lemma {:induction false} SizeAdd(m: map<nat, bytes>, k: nat, p: bytes)
    requires k !in m
    ensures Size(m[k := p]) == Size(m) + |p| && |m[k := p]| == |m| + 1
  {
    SizeRemove(m[k := p], k);
    Shrinks(m[k := p], k);
    assert m[k := p] - {k} == m;
  }

  lemma {:induction false} SizeShrinks(m: map<nat, bytes>, s: set<nat>)
    ensures Size(m - s) <= Size(m) && |m - s| <= |m|
    decreases |m|
  {
    if k :| k in m && k in s {
      Shrinks(m, k);
      SizeShrinks(m - {k}, s);
      SizeRemove(m, k);
      assert m - {k} - s == m - s;
    } else {
      assert m - s == m;
    }
  }

  // ------------------------------------------------------------------ what every operation keeps

  /** The held bytes are those of the waiting payloads, which are at most as many, and long, as allowed. */
  ghost predicate Sound(q: Queue) {
    && q.held == Size(q.pending) && |q.pending| <= q.maxPending
    && (forall k :: k in q.pending ==> q.next <= k < q.tail)
    && (q.attached ==> q.held <= q.byteLimit)
  }

  lemma {:induction false} HeldIsSize(q: Queue)
    requires Sound(q)
    ensures q.held == Size(q.pending)
  {
  }

  /** What one queue adds to the shared budget. */
  function Share(q: Queue): int { if q.attached then q.held else 0 }

  lemma {:induction false} StoreKeeps(q: Queue, b: Budget, s: nat, payload: bytes)
    requires Sound(q) && s !in q.pending && q.next <= s && |q.pending| < q.maxPending && Affordable(q, b, |payload|)
    ensures var r := Store(q, s, payload);
            Sound(r) && Share(r) - Share(q) == Charge(q, b, |payload|).used - b.used
  {
    SizeAdd(q.pending, s, payload);
  }

  lemma {:induction false} PushKeeps(q: Queue, b: Budget, s: nat, payload: bytes)
    requires Sound(q)
    ensures var (r, c, _) := Push(q, b, s, payload);
            && Sound(r) && c.used - b.used == Share(r) - Share(q) && c.limit == b.limit && (b.used <= b.limit ==> c.used <= c.limit)
            && r.attached == q.attached
  {
    if Push(q, b, s, payload).2 == Stored {
      StoreKeeps(q, b, s, payload);
    }
  }

  lemma {:induction false} AppendKeeps(q: Queue, b: Budget, payload: bytes)
    requires Sound(q)
    ensures AppendAt(q) !in q.pending
    ensures var (r, c, _) := Append(q, b, payload);
            && Sound(r) && c.used - b.used == Share(r) - Share(q) && c.limit == b.limit && (b.used <= b.limit ==> c.used <= c.limit)
            && r.attached == q.attached
  {
    if Append(q, b, payload).2 == Stored {
      StoreKeeps(q, b, AppendAt(q), payload);
    }
  }

  lemma {:induction false} ReadKeeps(q: Queue, b: Budget)
    requires Sound(q)
    ensures var (r, c, _) := Read(q, b);
            && Sound(r) && c.used - b.used == Share(r) - Share(q) && c.limit == b.limit && c.used <= b.used && r.attached == q.attached
  {
    if q.next in q.pending {
      SizeRemove(q.pending, q.next);
      Shrinks(q.pending, q.next);
    }
  }

  lemma {:induction false} ResumeKeeps(q: Queue, b: Budget, s: nat)
    requires Sound(q)
    ensures var (r, c, _) := Resume(q, b, s);
            && Sound(r) && c.used - b.used == Share(r) - Share(q) && c.limit == b.limit && c.used <= b.used && r.attached == q.attached
  {
    SizeShrinks(q.pending, Below(q.pending, s));
  }

  lemma {:induction false} LeaveKeeps(q: Queue, b: Budget)
    requires Sound(q)
    ensures var (r, c) := Leave(q, b);
            && Sound(r) && c.used - b.used == Share(r) - Share(q) && c.limit == b.limit && c.used <= b.used && !r.attached
  {
  }

  lemma {:induction false} DiscardKeeps(q: Queue, b: Budget)
    requires Sound(q)
    ensures var (r, c) := Discard(q, b);
            && Sound(r) && c.used - b.used == Share(r) - Share(q) && c.limit == b.limit && c.used <= b.used && !r.attached
  {
  }

  /** Nothing waits any more, and exactly what waited has been given back. */
  lemma {:induction false} DiscardExactly(q: Queue, b: Budget)
    requires Sound(q)
    ensures var (r, c) := Discard(q, b);
            && r == q.(pending := map[], held := 0, attached := false)
            && c == b.(used := b.used - if q.attached then q.held else 0)
  {
  }

  // ------------------------------------------------------------------ what readers see over a whole run

  datatype Event = Delivered(number: nat, payload: bytes) | Resumed(number: nat)

  /**
   Everything delivered and every resume, in order; the first payload stored under each number; what writers
   without numbers appended; whether there were only such writers; and whether the rest was discarded.
   */
  datatype History = History(log: seq<Event>, first: map<nat, bytes>, appended: seq<bytes>, onlyAppends: bool, dropped: bool)

  function NoHistory(): History { History([], map[], [], true, false) }

  /** The number a reader expects next. */
  function Expected(log: seq<Event>): nat {
    if log == [] then 0
    else
      var e := log[|log| - 1];
      if e.Delivered? then e.number + 1 else e.number
  }

  /** No gap and no repeat: each delivery is of the expected number. */
  ghost predicate Ordered(log: seq<Event>) {
    forall i :: 0 <= i < |log| && log[i].Delivered? ==> log[i].number == Expected(log[..i])
  }

  ghost predicate Faithful(h: History) {
    forall i :: 0 <= i < |h.log| && h.log[i].Delivered? ==> h.log[i].number in h.first && h.first[h.log[i].number] == h.log[i].payload
  }

  /** With appending writers only, what is delivered and what waits is what was appended, in order. */
  ghost predicate Fifo(q: Queue, h: History) {
    && |h.appended| == q.tail && q.next <= q.tail && |h.log| == q.next
    && (forall i :: 0 <= i < q.next ==> h.log[i] == Delivered(i, h.appended[i]))
    && (!h.dropped ==> forall k :: q.next <= k < q.tail ==> k in q.pending && q.pending[k] == h.appended[k])
  }

  ghost predicate Told(q: Queue, h: History) {
    && Ordered(h.log) && Expected(h.log) == q.next && Faithful(h)
    && (forall k :: k in q.pending ==> k in h.first && h.first[k] == q.pending[k])
    && (forall k :: k in h.first ==> q.closed || k < q.next || k in q.pending)
    && (h.dropped ==> q.closed && q.pending == map[])
    && (h.onlyAppends ==> Fifo(q, h))
  }

  function Remember(h: History, s: nat, payload: bytes, wasAppend: bool): History {
    h.(first := h.first[s := payload],
       appended := if wasAppend then h.appended + [payload] else h.appended,
       onlyAppends := h.onlyAppends && wasAppend)
  }

  /** A number is stored at most once, ever. */
  lemma {:induction false} StoreIsTold(q: Queue, h: History, s: nat, payload: bytes, wasAppend: bool)
    requires Sound(q) && Told(q, h) && !q.closed && q.next <= s && s !in q.pending && (wasAppend ==> s == AppendAt(q))
    ensures s !in h.first
    ensures Told(Store(q, s, payload), Remember(h, s, payload, wasAppend))
  {
    var r, g := Store(q, s, payload), Remember(h, s, payload, wasAppend);
    assert s !in h.first;
    assert Faithful(g);
    if g.onlyAppends {
      assert s == q.tail;
      assert forall k :: q.next <= k < q.tail ==> g.appended[k] == h.appended[k];
      assert Fifo(r, g);
    }
  }

  lemma {:induction false} LogSnoc(log: seq<Event>, e: Event)
    requires Ordered(log) && (e.Delivered? ==> e.number == Expected(log))
    ensures Ordered(log + [e]) && Expected(log + [e]) == if e.Delivered? then e.number + 1 else e.number
  {
    var more := log + [e];
    assert forall i :: 0 <= i <= |log| ==> more[..i] == log[..i];
    assert log[..|log|] == log;
  }

  lemma {:induction false} ReadIsTold(q: Queue, b: Budget, h: History)
    requires Sound(q) && Told(q, h) && q.next in q.pending
    ensures Told(Read(q, b).0, h.(log := h.log + [Delivered(q.next, q.pending[q.next])]))
  {
    var e := Delivered(q.next, q.pending[q.next]);
    LogSnoc(h.log, e);
    FaithfulSnoc(h, e);
    if h.onlyAppends {
      FifoRead(q, b, h);
    }
    hide Ordered, Expected, Size, Faithful, Fifo;
  }

  lemma {:induction false} FaithfulSnoc(h: History, e: Event)
    requires Faithful(h) && (e.Delivered? ==> e.number in h.first && h.first[e.number] == e.payload)
    ensures Faithful(h.(log := h.log + [e]))
  {
  }

  lemma {:induction false} FifoRead(q: Queue, b: Budget, h: History)
    requires Fifo(q, h) && q.next in q.pending && q.next < q.tail && !h.dropped
    ensures Fifo(Read(q, b).0, h.(log := h.log + [Delivered(q.next, q.pending[q.next])]))
  {
  }

  lemma {:induction false} ResumeIsTold(q: Queue, b: Budget, h: History, s: nat)
    requires Sound(q) && Told(q, h) && !q.closed && q.next <= s
    ensures Told(Resume(q, b, s).0, h.(log := h.log + [Resumed(s)], onlyAppends := false))
  {
    LogSnoc(h.log, Resumed(s));
    hide Ordered, Expected, Size;
    assert Faithful(h.(log := h.log + [Resumed(s)], onlyAppends := false));
  }

  lemma {:induction false} DiscardIsTold(q: Queue, b: Budget, h: History)
    requires Told(q, h) && q.closed
    ensures Told(Discard(q, b).0, h.(dropped := true))
  {
    hide Ordered, Expected, Size;
    assert Faithful(h.(dropped := true));
  }

  // ------------------------------------------------------------------ any order in, numeric order out

  /** Pushes these numbers in this order; number k carries data[k - start]. */
  function PushAll(q: Queue, b: Budget, order: seq<nat>, start: nat, data: seq<bytes>): (Queue, Budget)
    requires forall i :: 0 <= i < |order| ==> start <= order[i] < start + |data|
    decreases |order|
  {
    if order == [] then (q, b)
    else
      var (r, c, _) := Push(q, b, order[0], data[order[0] - start]);
      PushAll(r, c, order[1..], start, data)
  }

  function ReadAll(q: Queue, b: Budget, n: nat): seq<bytes>
    decreases n
  {
    if n == 0 then []
    else
      var (r, c, p) := Read(q, b);
      if p.None? then [] else [p.value] + ReadAll(r, c, n - 1)
  }

  /** The bytes of the packets with these numbers. */
  function Load(order: seq<nat>, start: nat, data: seq<bytes>): nat
    requires forall i :: 0 <= i < |order| ==> start <= order[i] < start + |data|
    decreases |order|
  {
    if order == [] then 0 else |data[order[0] - start]| + Load(order[1..], start, data)
  }

  /** New numbers, each once, for which there is room under every limit. */
  ghost predicate Fits(q: Queue, b: Budget, order: seq<nat>, start: nat, data: seq<bytes>)
    requires forall i :: 0 <= i < |order| ==> start <= order[i] < start + |data|
  {
    && !q.closed && |q.pending| + |order| <= q.maxPending
    && (forall i :: 0 <= i < |order| ==> q.next <= order[i] && order[i] !in q.pending)
    && (forall i, j :: 0 <= i < j < |order| ==> order[i] != order[j])
    && (q.attached ==> q.held + Load(order, start, data) <= q.byteLimit && b.used + Load(order, start, data) <= b.limit)
  }

  lemma {:induction false} PushOne(q: Queue, b: Budget, s: nat, payload: bytes)
    requires !q.closed && q.next <= s && s !in q.pending && |q.pending| < q.maxPending
    requires q.attached ==> q.held + |payload| <= q.byteLimit && b.used + |payload| <= b.limit
    ensures var (r, c, o) := Push(q, b, s, payload);
            && o == Stored && r == q.(pending := q.pending[s := payload], held := q.held + |payload|, tail := r.tail)
            && |r.pending| == |q.pending| + 1 && c == b.(used := b.used + if q.attached then |payload| else 0)
  {
    Shrinks(q.pending[s := payload], s);
    assert q.pending[s := payload] - {s} == q.pending;
  }

  lemma {:induction false} FitsFirst(q: Queue, b: Budget, order: seq<nat>, start: nat, data: seq<bytes>)
    requires order != [] && (forall i :: 0 <= i < |order| ==> start <= order[i] < start + |data|)
    requires Fits(q, b, order, start, data)
    ensures forall i :: 0 <= i < |order[1..]| ==> start <= order[1..][i] < start + |data|
    ensures var k := order[0];
            var (r, c, _) := Push(q, b, k, data[k - start]);
            && k !in order[1..] && r.next == q.next && r.pending == q.pending[k := data[k - start]]
            && Fits(r, c, order[1..], start, data)
            && PushAll(q, b, order, start, data) == PushAll(r, c, order[1..], start, data)
  {
    PushOne(q, b, order[0], data[order[0] - start]);
    hide Push;
    assert forall i :: 0 <= i < |order[1..]| ==> order[1..][i] == order[i + 1];
  }

  /** These numbers wait with their payloads, and what else waited still does. */
  ghost predicate Joined(before: map<nat, bytes>, after: map<nat, bytes>, order: seq<nat>, start: nat, data: seq<bytes>)
    requires forall i :: 0 <= i < |order| ==> start <= order[i] < start + |data|
  {
    && (forall k :: k in order ==> k in after && after[k] == data[k - start])
    && (forall k :: k in before && k !in order ==> k in after && after[k] == before[k])
  }

  lemma {:induction false} JoinedFirst(before: map<nat, bytes>, after: map<nat, bytes>, order: seq<nat>, start: nat, data: seq<bytes>)
    requires order != [] && (forall i :: 0 <= i < |order| ==> start <= order[i] < start + |data|)
    requires (forall i :: 0 <= i < |order[1..]| ==> start <= order[1..][i] < start + |data|) && order[0] !in order[1..]
    requires Joined(before[order[0] := data[order[0] - start]], after, order[1..], start, data)
    ensures Joined(before, after, order, start, data)
  {
    assert order == [order[0]] + order[1..];
  }

  /** All of them are stored, each under its number, next to what was there. */
  lemma {:induction false} PushAllStores(q: Queue, b: Budget, order: seq<nat>, start: nat, data: seq<bytes>)
    requires (forall i :: 0 <= i < |order| ==> start <= order[i] < start + |data|) && Fits(q, b, order, start, data)
    ensures var r := PushAll(q, b, order, start, data).0; r.next == q.next && Joined(q.pending, r.pending, order, start, data)
    decreases |order|
  {
    if order == [] {
      hide Fits;
    } else {
      var k := order[0];
      hide Fits, Push, Joined, PushAll;
      FitsFirst(q, b, order, start, data);
      var (r, c, _) := Push(q, b, k, data[k - start]);
      PushAllStores(r, c, order[1..], start, data);
      JoinedFirst(q.pending, PushAll(r, c, order[1..], start, data).0.pending, order, start, data);
    }
  }

  lemma {:induction false} ReadAllInOrder(q: Queue, b: Budget, data: seq<bytes>)
    requires forall k: nat :: q.next <= k < q.next + |data| ==> k in q.pending && q.pending[k] == data[k - q.next]
    ensures ReadAll(q, b, |data|) == data
    decreases |data|
  {
    if data != [] {
      assert q.next in q.pending;
      var (r, c, p) := Read(q, b);
      ReadAllInOrder(r, c, data[1..]);
    }
  }

  /**
   Reordering: the next packets, pushed in any order for which there is room, are read in the order of their numbers,
   each with its payload.
   */
  lemma {:induction false} ReordersAll(q: Queue, b: Budget, order: seq<nat>, data: seq<bytes>)
    requires (forall i :: 0 <= i < |order| ==> q.next <= order[i] < q.next + |data|) && Fits(q, b, order, q.next, data)
    requires forall k: nat :: q.next <= k < q.next + |data| ==> k in order
    ensures var (r, c) := PushAll(q, b, order, q.next, data); ReadAll(r, c, |data|) == data
  {
    PushAllStores(q, b, order, q.next, data);
    var (r, c) := PushAll(q, b, order, q.next, data);
    hide PushAll, Fits;
    ReadAllInOrder(r, c, data);
  }

  // ------------------------------------------------------------------ the queue itself

  class SharedBudget {
    var used: int
    const limit: int

    constructor (limit: int)
      ensures used == 0 && this.limit == limit
    {
      used, this.limit := 0, limit;
    }

    function View(): Budget
      reads this
    {
      Budget(used, limit)
    }

    method Take(n: int) returns (ok: bool)
      modifies this
      ensures ok == (old(used) + n <= limit) && used == old(used) + if ok then n else 0
    {
      ok := used + n <= limit;
      if ok {
        used := used + n;
      }
    }

    method Give(n: int)
      modifies this
      ensures used == old(used) - n
    {
      used := used - n;
    }
  }

  class PacketQueue {
    var next: nat
    var pending: map<nat, bytes>
    const maxPending: nat
    var closed: bool
    var tail: nat
    var held: int
    var attached: bool
    var byteLimit: int
    const budget: SharedBudget

    ghost var history: History

    ghost function View(): Queue
      reads this
    {
      Queue(next, pending, maxPending, closed, tail, held, attached, byteLimit)
    }

    ghost predicate Valid()
      reads this
    {
      Sound(View()) && Told(View(), history)
    }

    constructor (maxPending: nat, budget: SharedBudget)
      ensures Valid() && fresh(this) && View() == NewQueue(maxPending) && history == NoHistory() && this.budget == budget
    {
      next, pending, this.maxPending, closed, tail, held, attached, byteLimit := 0, map[], maxPending, false, 0, 0, false, 0;
      this.budget := budget;
      history := NoHistory();
    }

    /** Accounts for a payload to be queued, unless it is over either limit. */
    method ChargeFor(n: nat) returns (ok: bool)
      modifies this`held, budget
      ensures ok == Affordable(old(View()), old(budget.View()), n)
      ensures held == old(held) + (if ok then n else 0)
      ensures budget.View() == if ok then Charge(old(View()), old(budget.View()), n) else old(budget.View())
    {
      if attached {
        if held + n > byteLimit {
          return false;
        }
        ok := budget.Take(n);
        if !ok {
          return;
        }
      }
      held, ok := held + n, true;
    }

    method StorePacket(s: nat, payload: bytes)
      modifies this`pending, this`tail
      ensures pending == old(pending)[s := payload] && tail == if s >= old(tail) then s + 1 else old(tail)
    {
      pending := pending[s := payload];
      if s >= tail {
        tail := s + 1;
      }
    }

    method PushPacket(s: nat, payload: bytes) returns (outcome: Outcome)
      requires Valid()
      modifies this, budget
      ensures Valid()
      ensures (View(), budget.View(), outcome) == Push(old(View()), old(budget.View()), s, payload)
      ensures outcome == Stored ==> s !in old(history).first
      ensures outcome == Stale <==> !old(closed) && s < old(next)
      ensures outcome == Stored <==>
                && !old(closed) && s >= old(next) && s !in old(pending) && |old(pending)| < maxPending
                && (old(attached) ==> old(held) + |payload| <= old(byteLimit) && old(budget.used) + |payload| <= budget.limit)
      ensures outcome == Stored ==> pending == old(pending)[s := payload] && next == old(next) && !closed
      ensures outcome != Stored ==> View() == old(View()) && budget.used == old(budget.used)
      ensures history == if outcome == Stored then Remember(old(history), s, payload, false) else old(history)
    {
      hide Sound, Told;
      PushKeeps(View(), budget.View(), s, payload);
      if closed {
        return Closed;
      }
      if s < next {
        return Stale;
      }
      if s in pending {
        return if pending[s] == payload then Repeated else Conflict;
      }
      if |pending| >= maxPending {
        return Full;
      }
      StoreIsTold(View(), history, s, payload, false);
      var ok := ChargeFor(|payload|);
      if !ok {
        return OverBudget;
      }
      StorePacket(s, payload);
      history := Remember(history, s, payload, false);
      outcome := Stored;
    }

    /** One attempt of a writer that waits with a number of its own: any packet queued under it is an error. */
    method TryPush(s: nat, payload: bytes) returns (outcome: Outcome)
      requires Valid()
      modifies this, budget
      ensures Valid()
      ensures var (q, b, o) := Push(old(View()), old(budget.View()), s, payload);
              View() == q && budget.View() == b && outcome == if o == Repeated then Conflict else o
      ensures outcome == Stored <==>
                && !old(closed) && s >= old(next) && s !in old(pending) && |old(pending)| < maxPending
                && (old(attached) ==> old(held) + |payload| <= old(byteLimit) && old(budget.used) + |payload| <= budget.limit)
      ensures outcome == Stored ==> pending == old(pending)[s := payload] && next == old(next)
      ensures history == if outcome == Stored then Remember(old(history), s, payload, false) else old(history)
    {
      hide Sound, Told;
      outcome := PushPacket(s, payload);
      if outcome == Repeated {
        outcome := Conflict;
      }
    }

    /** One attempt of an appending writer; a writer that gives up after Full or OverBudget has left no trace. */
    method TryAppend(payload: bytes) returns (outcome: Outcome)
      requires Valid()
      modifies this, budget
      ensures Valid()
      ensures (View(), budget.View(), outcome) == Append(old(View()), old(budget.View()), payload)
      ensures outcome == Stored <==>
                && !old(closed) && |old(pending)| < maxPending
                && (old(attached) ==> old(held) + |payload| <= old(byteLimit) && old(budget.used) + |payload| <= budget.limit)
      ensures outcome == Stored ==>
                pending == old(pending)[(if old(tail) < old(next) then old(next) else old(tail)) := payload] && next == old(next)
      ensures outcome != Stored ==> View() == old(View()) && budget.used == old(budget.used)
      ensures history == if outcome == Stored then Remember(old(history), AppendAt(old(View())), payload, true) else old(history)
    {
      hide Sound, Told;
      AppendKeeps(View(), budget.View(), payload);
      if closed {
        return Closed;
      }
      var s := if tail < next then next else tail;
      if |pending| >= maxPending {
        return Full;
      }
      StoreIsTold(View(), history, s, payload, true);
      var ok := ChargeFor(|payload|);
      if !ok {
        return OverBudget;
      }
      StorePacket(s, payload);
      history := Remember(history, s, payload, true);
      outcome := Stored;
    }

    /** Gives the next packet in order, if it is there. */
    method ReadPacket() returns (packet: Option<bytes>)
      requires Valid()
      modifies this, budget
      ensures Valid()
      ensures (View(), budget.View(), packet) == Read(old(View()), old(budget.View()))
      ensures packet == if old(next) in old(pending) then Some(old(pending)[old(next)]) else None
      ensures packet.Some? ==> next == old(next) + 1 && pending == old(pending) - {old(next)}
      ensures history == if packet.Some? then old(history).(log := old(history).log + [Delivered(old(next), packet.value)]) else old(history)
    {
      hide Sound, Told;
      if next !in pending {
        return None;
      }
      ReadKeeps(View(), budget.View());
      ReadIsTold(View(), budget.View(), history);
      var p := pending[next];
      packet := Some(p);
      history := history.(log := history.log + [Delivered(next, p)]);
      pending, next := pending - {next}, next + 1;
      GiveBack(|p|);
    }

    method GiveBack(n: nat)
      modifies this`held, budget
      ensures held == old(held) - n && budget.View() == Charge(old(View()), old(budget.View()), -(n as int))
    {
      held := held - n;
      if attached {
        budget.Give(n);
      }
    }

    /** Removes the payloads under these numbers and gives their bytes back. */
    method Remove(ks: set<nat>)
      modifies this`pending, this`held, budget
      ensures pending == old(pending) - ks && held == old(held) - (Size(old(pending)) - Size(pending))
      ensures budget.View() == Charge(old(View()), old(budget.View()), held - old(held))
    {
      var rest := ks * pending.Keys;
      while rest != {}
        invariant rest <= pending.Keys && pending - rest == old(pending) - ks
        invariant held == old(held) - (Size(old(pending)) - Size(pending))
        invariant budget.View() == Charge(old(View()), old(budget.View()), held - old(held))
        decreases rest
      {
        var k := Pick(rest);
        SizeRemove(pending, k);
        hide Size;
        var p := pending[k];
        GiveBack(|p|);
        pending, rest := pending - {k}, rest - {k};
      }
    }

    method ResumeFrom(s: nat) returns (ok: bool)
      requires Valid()
      modifies this, budget
      ensures Valid()
      ensures (View(), budget.View(), ok) == Resume(old(View()), old(budget.View()), s)
      ensures ok <==> !old(closed) && s >= old(next)
      ensures ok ==> next == s && forall k :: k in pending <==> k in old(pending) && k >= s
      ensures ok ==> forall k :: k in pending ==> pending[k] == old(pending)[k]
      ensures history == if ok then old(history).(log := old(history).log + [Resumed(s)], onlyAppends := false) else old(history)
    {
      if closed || s < next {
        return false;
      }
      ResumeKeeps(View(), budget.View(), s);
      ResumeIsTold(View(), budget.View(), history, s);
      hide Sound, Told, Size;
      Remove(Below(pending, s));
      next, ok := s, true;
      history := history.(log := history.log + [Resumed(s)], onlyAppends := false);
    }

    /** A new session's queue counts against the shared budget until the session has authenticated. */
    method UseBudget(byteLimit: int)
      requires Valid() && pending == map[] && 0 <= byteLimit
      modifies this`attached, this`byteLimit
      ensures Valid() && View() == old(View()).(attached := true, byteLimit := byteLimit)
    {
      assert Size(map[]) == 0;
      attached, this.byteLimit := true, byteLimit;
    }

    method LeaveBudget()
      requires Valid()
      modifies this, budget
      ensures Valid() && history == old(history)
      ensures (View(), budget.View()) == Leave(old(View()), old(budget.View()))
      ensures !attached && pending == old(pending) && budget.used == old(budget.used) - if old(attached) then old(held) else 0
    {
      if attached {
        budget.Give(held);
        attached := false;
      }
    }

    method CloseQueue()
      requires Valid()
      modifies this`closed
      ensures Valid() && View() == old(View()).(closed := true)
    {
      closed := true;
    }

    method DiscardAll()
      requires Valid() && closed
      modifies this, budget
      ensures Valid() && (View(), budget.View()) == Discard(old(View()), old(budget.View())) && history == old(history).(dropped := true)
      ensures pending == map[] && held == 0 && !attached
      ensures budget.used == old(budget.used) - if old(attached) then old(held) else 0
    {
      hide Sound, Told, Size, Discard;
      DiscardKeeps(View(), budget.View());
      DiscardIsTold(View(), budget.View(), history);
      NothingLeft(pending);
      DiscardExactly(View(), budget.View());
      HeldIsSize(View());
      Remove(pending.Keys);
      attached := false;
      history := history.(dropped := true);
    }
  }
}
