/**
 The write side of XTLS Vision: recognising the inner TLS handshake, cutting and padding what is
 written, and ending the padding. The class keeps, as ghost history, everything it was given and
 everything it put on the wire, so that its invariant speaks of whole runs.
 */
module VisionWriter {
  import opened Wire
  import opened VisionReader

  const BUFFER_SIZE := 8192
  const LIMIT := BUFFER_SIZE - FRAME_OVERHEAD
  const APP_DATA: bytes := [0x17, 0x03, 0x03]
  const SERVER_HELLO: bytes := [0x16, 0x03, 0x03]
  const CLIENT_HELLO: bytes := [0x16, 0x03]
  const TLS13_VERSIONS: bytes := [0x00, 0x2b, 0x00, 0x02, 0x03, 0x04]
  const PACKETS_TO_FILTER := 8

  // ------------------------------------------------------------------ TLS records

  lemma {:induction false} AtShorter(s: bytes)
    requires |s| >= 3 && s[|s| - 3..] != APP_DATA
    ensures forall k :: At(s, k, APP_DATA) <==> At(s[..|s| - 1], k, APP_DATA)
  {
    forall k
      ensures At(s, k, APP_DATA) <==> At(s[..|s| - 1], k, APP_DATA)
    {
      if 0 <= k && k + 3 < |s| {
        assert s[..|s| - 1][k..k + 3] == s[k..k + 3];
      } else if k + 3 == |s| {
        assert s[k..k + 3] == s[|s| - 3..];
      }
    }
  }

  /** Where the last application-data record seems to start, or -1. */
  function LastAppData(s: bytes): (i: int)
    ensures -1 <= i && (i >= 0 ==> At(s, i, APP_DATA))
    ensures forall k :: At(s, k, APP_DATA) ==> k <= i
  {
    if |s| < 3 then -1
    else if s[|s| - 3..] == APP_DATA then |s| - 3
    else
      var t := s[..|s| - 1];
      AtShorter(s);
      LastAppData(t)
  }

  /** How much of an overlong p goes into the next chunk: up to a record start, else half a buffer. */
  function CutPoint(p: bytes): (n: nat)
    requires |p| >= LIMIT
    ensures FRAME_OVERHEAD <= n < LIMIT
  {
    var i := LastAppData(p[..LIMIT]);
    if i < FRAME_OVERHEAD || i > LIMIT then BUFFER_SIZE / 2 else i
  }

  /** The cut is the last place between 21 and 8168 where a record seems to start, or else at 4096. */
  lemma {:induction false} CutAtLastRecord(p: bytes)
    requires |p| >= 8171
    ensures var n := CutPoint(p);
            if exists k :: 21 <= k <= 8168 && At(p, k, [0x17, 0x03, 0x03])
            then 21 <= n <= 8168 && At(p, n, [0x17, 0x03, 0x03]) && forall k :: n < k <= 8168 ==> !At(p, k, [0x17, 0x03, 0x03])
            else n == 4096
  {
    forall k
      ensures At(p[..LIMIT], k, APP_DATA) <==> k <= 8168 && At(p, k, APP_DATA)
    {
      if 0 <= k <= 8168 {
        assert p[..LIMIT][k..k + 3] == p[k..k + 3];
      }
    }
  }

  /** The chunks p is sent in: cut at the cut point until the rest fits one frame. */
  function Chunks(p: bytes): (cs: seq<bytes>)
    ensures cs != []
    decreases |p|
  {
    if |p| < LIMIT then [p] else [p[..CutPoint(p)]] + Chunks(p[CutPoint(p)..])
  }

  /** Cutting loses nothing, and every chunk fits one frame with its header and UUID. */
  lemma {:induction false} ChunksFit(p: bytes)
    ensures Concat(Chunks(p)) == p
    ensures forall k :: 0 <= k < |Chunks(p)| ==> |Chunks(p)[k]| < LIMIT
    ensures if |p| < 8171 then Chunks(p) == [p] else Chunks(p)[0] == p[..CutPoint(p)]
    decreases |p|
  {
    if |p| < LIMIT {
      assert Concat([p]) == p + Concat([p][1..]) == p;
    } else {
      var n := CutPoint(p);
      ChunksFit(p[n..]);
      assert Chunks(p)[1..] == Chunks(p[n..]);
      assert p == p[..n] + p[n..];
    }
  }

  method Reshape(data: bytes) returns (out: seq<bytes>)
    ensures out == Chunks(data)
  {
    hide LastAppData, CutPoint;
    var p := data;
    if |p| < LIMIT {
      return [p];
    }
    out := [];
    assert out + Chunks(p) == Chunks(p);
    while |p| >= LIMIT
      invariant p != [] && out + Chunks(p) == Chunks(data)
      decreases |p|
    {
      var n := CutPoint(p);
      assert out + ([p[..n]] + Chunks(p[n..])) == (out + [p[..n]]) + Chunks(p[n..]);
      out, p := out + [p[..n]], p[n..];
    }
    if |p| > 0 {
      out := out + [p];
    }
  }

  function RecordLength(b: bytes): int
    requires |b| >= 5
  {
    5 + FromBe16(b[3], b[4])
  }

  /** b is nothing but whole application-data records. */
  predicate CompleteRecords(b: bytes)
    decreases |b|
  {
    b == [] ||
    (|b| >= 5 && b[..3] == APP_DATA && RecordLength(b) <= |b| && CompleteRecords(b[RecordLength(b)..]))
  }

  method IsCompleteTLSRecord(b: bytes) returns (ok: bool)
    ensures ok == CompleteRecords(b)
  {
    var i := 0;
    while i < |b|
      invariant 0 <= i <= |b|
      invariant CompleteRecords(b) == CompleteRecords(b[i..])
    {
      if |b| - i < 5 {
        return false;
      }
      assert b[i..][..3] == b[i..i + 3];
      if b[i..i + 3] != APP_DATA {
        return false;
      }
      var n := FromBe16(b[i + 3], b[i + 4]);
      assert RecordLength(b[i..]) == 5 + n;
      if i + 5 + n > |b| {
        return false;
      }
      assert b[i..][5 + n..] == b[i + 5 + n..];
      i := i + 5 + n;
    }
    assert b[i..] == [];
    return true;
  }

  function Record(payload: bytes): (b: bytes)
    requires |payload| < 0x1_0000
  {
    APP_DATA + Be16(|payload|) + payload
  }

  function Records(ps: seq<bytes>): (b: bytes)
    requires forall i :: 0 <= i < |ps| ==> |ps[i]| < 0x1_0000
  {
    if ps == [] then [] else Record(ps[0]) + Records(ps[1..])
  }

  /** Whole records are recognised as such ... */
  lemma {:induction false} RecordsAreComplete(ps: seq<bytes>)
    requires forall i :: 0 <= i < |ps| ==> |ps[i]| < 0x1_0000
    ensures CompleteRecords(Records(ps))
    decreases |ps|
  {
    if ps != [] {
      var b := Records(ps);
      assert b[..3] == APP_DATA && RecordLength(b) == |Record(ps[0])|;
      assert b[RecordLength(b)..] == Records(ps[1..]);
      RecordsAreComplete(ps[1..]);
    }
  }

  /** ... and nothing else is. */
  lemma {:induction false} CompleteAreRecords(b: bytes) returns (ps: seq<bytes>)
    requires CompleteRecords(b)
    ensures forall i :: 0 <= i < |ps| ==> |ps[i]| < 0x1_0000
    ensures Records(ps) == b
    decreases |b|
  {
    if b == [] {
      ps := [];
    } else {
      var n := RecordLength(b);
      var rest := CompleteAreRecords(b[n..]);
      ps := [b[5..n]] + rest;
      assert ps[1..] == rest;
      assert Record(b[5..n]) == b[..n];
      assert b == b[..n] + b[n..];
    }
  }

  // ------------------------------------------------------------------ what goes on the wire

  datatype Chunk = Padded(frame: Frame) | Raw(data: bytes) {
    predicate Valid() { Padded? ==> frame.Valid() }

    function Payload(): bytes { if Padded? then frame.content else data }

    function OnWire(): bytes
      requires Valid()
    {
      if Padded? then FrameBytes(frame) else data
    }
  }

  predicate ValidChunks(cs: seq<Chunk>) { forall i :: 0 <= i < |cs| ==> cs[i].Valid() }

  function Payload(cs: seq<Chunk>): (b: bytes) {
    if cs == [] then [] else Payload(cs[..|cs| - 1]) + cs[|cs| - 1].Payload()
  }

  function OnWire(cs: seq<Chunk>): (b: bytes)
    requires ValidChunks(cs)
  {
    if cs == [] then [] else OnWire(cs[..|cs| - 1]) + cs[|cs| - 1].OnWire()
  }

  predicate IsContinue(c: Chunk) { c.Padded? && c.frame.command == CONTINUE }

  /** Padding that goes on: nothing but continue frames. */
  predicate StillPadding(cs: seq<Chunk>) { forall i :: 0 <= i < |cs| ==> IsContinue(cs[i]) }

  /** Padding that ended in chunk k: continue frames, the ending frame, raw data. */
  predicate EndsAt(cs: seq<Chunk>, k: int, direct: bool) {
    && 0 <= k < |cs|
    && StillPadding(cs[..k])
    && cs[k].Padded? && cs[k].frame.command == (if direct then DIRECT else END)
    && forall i :: k < i < |cs| ==> cs[i].Raw?
  }

  ghost predicate Shaped(cs: seq<Chunk>, padding: bool, direct: bool) {
    if padding then StillPadding(cs) && !direct else exists k :: EndsAt(cs, k, direct)
  }

  lemma {:induction false} SnocFacts(cs: seq<Chunk>, c: Chunk)
    requires ValidChunks(cs) && c.Valid()
    ensures ValidChunks(cs + [c])
    ensures Payload(cs + [c]) == Payload(cs) + c.Payload()
    ensures OnWire(cs + [c]) == OnWire(cs) + c.OnWire()
  {
    assert (cs + [c])[..|cs|] == cs;
  }

  lemma {:induction false} ShapedRaw(cs: seq<Chunk>, direct: bool, b: bytes)
    requires Shaped(cs, false, direct)
    ensures Shaped(cs + [Raw(b)], false, direct)
  {
    var k :| EndsAt(cs, k, direct);
    assert (cs + [Raw(b)])[..k] == cs[..k];
    assert EndsAt(cs + [Raw(b)], k, direct);
  }

  lemma {:induction false} ShapedEnd(cs: seq<Chunk>, f: Frame, direct: bool)
    requires StillPadding(cs) && f.command == (if direct then DIRECT else END)
    ensures Shaped(cs + [Padded(f)], false, direct)
  {
    assert (cs + [Padded(f)])[..|cs|] == cs;
    assert EndsAt(cs + [Padded(f)], |cs|, direct);
  }

  // ------------------------------------------------------------------ TLS recognition

  /** What recognition has established so far. */
  datatype Tls = Tls(packets: int, enableXtls: bool, isTLS: bool, tls12: bool, cipher: int, serverHello: int)

  predicate Contains(b: bytes, pattern: bytes) {
    exists i :: 0 <= i <= |b| && At(b, i, pattern)
  }

  /** TLS 1.3 suites, without the one whose tag is only eight bytes. */
  predicate StrongCipher(c: int) { 0x1301 <= c <= 0x1304 }

  function SessionIdLength(b: bytes): int
    requires |b| >= 79
  {
    b[43]
  }

  /** The hello, if b starts with one, as it changes the state. */
  function SeeHello(t: Tls, b: bytes): Tls {
    if |b| < 6 then t
    else if b[..3] == SERVER_HELLO && b[5] == 2 then
      var due := FromBe16(b[3], b[4]) + 5;
      var u := t.(serverHello := due, tls12 := true, isTLS := true);
      if |b| < 79 || due < 79 then u
      else
        var suite := 44 + SessionIdLength(b);
        if suite + 2 <= |b| then u.(cipher := FromBe16(b[suite], b[suite + 1])) else u
    else if b[..2] == CLIENT_HELLO && b[5] == 1 then t.(isTLS := true)
    else t
  }

  function Filter(t: Tls, b: bytes): Tls {
    var u := SeeHello(t.(packets := t.packets - 1), b);
    if u.serverHello <= 0 then u
    else
      var end := Min(u.serverHello, |b|);
      var v := u.(serverHello := u.serverHello - |b|);
      if Contains(b[..end], TLS13_VERSIONS) then
        v.(enableXtls := v.enableXtls || StrongCipher(v.cipher), packets := 0)
      else if v.serverHello <= 0 then v.(packets := 0)
      else v
  }

  /** Direct mode is only ever enabled behind a server hello, hence for TLS 1.2 or later. */
  predicate Sound(t: Tls) {
    && (t.enableXtls ==> t.tls12) && (t.serverHello > 0 ==> t.tls12) && (t.tls12 ==> t.isTLS)
    && (!t.tls12 ==> t.cipher == 0)
  }

  const UNSEEN := Tls(PACKETS_TO_FILTER, false, false, false, 0, -1)

  function FilterAll(bs: seq<bytes>): Tls {
    if bs == [] then UNSEEN else Filter(FilterAll(bs[..|bs| - 1]), bs[|bs| - 1])
  }

  lemma {:induction false} FilterStaysSound(bs: seq<bytes>)
    ensures Sound(FilterAll(bs))
    decreases |bs|
  {
    if bs != [] {
      FilterStaysSound(bs[..|bs| - 1]);
    }
  }

  // ------------------------------------------------------------------ the writer

  /** How much padding a frame gets; r is any random number. */
  function PaddingLength(length: nat, long: bool, r: nat): (n: nat)
    requires length < LIMIT
    ensures length + n <= LIMIT
    ensures if long && length < 900 then 900 <= length + n < 1400 else n < 256
    ensures !long && length + 255 <= 8171 ==> n == r % 256
  {
    var wanted := if length < 900 && long then r % 500 + 900 - length else r % 256;
    Min(wanted, LIMIT - length)
  }

  /** What a connection was given to write, and the chunks that went out for it. */
  datatype Log = Log(uuid: bytes, written: bytes, chunks: seq<Chunk>) {
    /** Every byte sent so far. */
    function Emitted(): bytes
      requires ValidChunks(chunks)
    {
      if chunks == [] then [] else uuid + OnWire(chunks)
    }

    /** What was written is on the wire exactly once. */
    predicate Accounted() {
      |uuid| <= 16 && ValidChunks(chunks) && Payload(chunks) == written
    }

    function Add(c: Chunk): Log { Log(uuid, written + c.Payload(), chunks + [c]) }
  }

  /** From one log to a later one: p more was written, b more was sent. */
  ghost predicate Grows(l: Log, m: Log, p: bytes, b: bytes) {
    && l.Accounted() && m.Accounted() && m.uuid == l.uuid
    && m.written == l.written + p && m.Emitted() == l.Emitted() + b
  }

  lemma {:induction false} GrowsAdd(l: Log, c: Chunk)
    requires l.Accounted() && c.Valid()
    ensures Grows(l, l.Add(c), c.Payload(), (if l.chunks == [] then l.uuid else []) + c.OnWire())
  {
    hide OnWire, Payload, Chunk.OnWire, Chunk.Payload;
    SnocFacts(l.chunks, c);
    NothingOnWire();
    var w := c.OnWire();
    WithoutFirst(w);
    WithoutFirst(l.uuid + w);
    Assoc(l.uuid, OnWire(l.chunks), w);
  }

  lemma {:induction false} NothingOnWire()
    ensures OnWire([]) == []
  {
  }

  lemma {:induction false} WithoutFirst(w: bytes)
    ensures [] + w == w
  {
  }

  lemma {:induction false} GrowsNothing(l: Log)
    requires l.Accounted()
    ensures Grows(l, l, [], [])
  {
    assert l.written + [] == l.written && l.Emitted() + [] == l.Emitted();
  }

  lemma {:induction false} GrowsTwice(l: Log, m: Log, n: Log, p: bytes, b: bytes, q: bytes, c: bytes)
    requires Grows(l, m, p, b) && Grows(m, n, q, c)
    ensures Grows(l, n, p + q, b + c)
  {
    assert l.written + p + q == l.written + (p + q);
    assert l.Emitted() + b + c == l.Emitted() + (b + c);
  }

  lemma {:induction false} GrowsByChunk(l: Log, m: Log, k: Log, cs: seq<bytes>, n: nat, frames: seq<bytes>, frame: bytes)
    requires n < |cs| && Grows(l, m, Concat(cs[..n]), Concat(frames)) && Grows(m, k, cs[n], frame)
    ensures Grows(l, k, Concat(cs[..n + 1]), Concat(frames + [frame]))
  {
    GrowsTwice(l, m, k, Concat(cs[..n]), Concat(frames), cs[n], frame);
    assert cs[..n + 1] == cs[..n] + [cs[n]];
    ConcatSnoc(cs[..n], cs[n]);
    ConcatSnoc(frames, frame);
  }

  lemma {:induction false} GrowsByRest(l: Log, m: Log, k: Log, cs: seq<bytes>, n: nat, frames: seq<bytes>)
    requires n <= |cs| && Grows(l, m, Concat(cs[..n]), Concat(frames)) && Grows(m, k, Concat(cs[n..]), Concat(cs[n..]))
    ensures Grows(l, k, Concat(cs), Concat(frames + cs[n..]))
  {
    GrowsTwice(l, m, k, Concat(cs[..n]), Concat(frames), Concat(cs[n..]), Concat(cs[n..]));
    assert cs[..n] + cs[n..] == cs;
    ConcatAppend(cs[..n], cs[n..]);
    ConcatAppend(frames, cs[n..]);
  }

  class VisionWriter {
    var tls: Tls
    var isPadding: bool
    var writerDirect: bool
    var writeOnceUUID: bytes
    ghost var log: Log

    /** Everything written is on the wire once, framed as the flags say. */
    ghost predicate Valid()
      reads this
    {
      && log.Accounted()
      && writeOnceUUID == (if log.chunks == [] then log.uuid else [])
      && Sound(tls)
      && Shaped(log.chunks, isPadding, writerDirect)
    }

    constructor (uuid: bytes)
      requires |uuid| == 16 || uuid == []
      ensures Valid() && isPadding && !writerDirect && log == Log(uuid, [], []) && tls == Tls(8, false, false, false, 0, -1)
    {
      tls, isPadding, writerDirect, writeOnceUUID := UNSEEN, true, false, uuid;
      log := Log(uuid, [], []);
    }

    /** One frame: the UUID once, the header, the content, zeros. */
    method Pad(content: bytes, command: byte, long: bool, r: nat) returns (frame: bytes, ghost f: Frame)
      requires |content| < LIMIT && log.Accounted()
      requires writeOnceUUID == (if log.chunks == [] then log.uuid else [])
      modifies this`writeOnceUUID, this`log
      ensures |frame| <= BUFFER_SIZE && writeOnceUUID == []
      ensures f.Valid() && f.command == command && f.content == content
      ensures log == old(log).Add(Padded(f)) && Grows(old(log), log, content, frame)
    {
      var n := PaddingLength(|content|, long, r);
      var zeros := seq(n, _ => 0);
      f := Frame(command, content, zeros);
      frame := writeOnceUUID + ([command] + Be16(|content|) + Be16(n) + content + zeros);
      assert frame == writeOnceUUID + FrameBytes(f);
      GrowsAdd(log, Padded(f));
      writeOnceUUID, log := [], log.Add(Padded(f));
    }

    /** One chunk of a write. `early` says that non-TLS traffic ends its padding here and now. */
    method PadChunk(chunk: bytes, last: bool, complete: bool, long: bool, r: nat) returns (frame: bytes, early: bool)
      requires log.Accounted() && writeOnceUUID == (if log.chunks == [] then log.uuid else [])
      requires Sound(tls) && StillPadding(log.chunks) && |chunk| < LIMIT
      requires writerDirect <==> !isPadding && tls.enableXtls
      modifies this`isPadding, this`writerDirect, this`writeOnceUUID, this`log
      ensures |frame| <= BUFFER_SIZE && writeOnceUUID == [] && log.chunks != []
      ensures Grows(old(log), log, chunk, frame) && log.Accounted()
      ensures early <==> !InnerData(tls, chunk, complete) && !tls.tls12 && tls.packets <= 1
      ensures isPadding <==> old(isPadding) && !early && !InnerData(tls, chunk, complete)
      ensures writerDirect <==> !isPadding && tls.enableXtls
      ensures if early || last then Shaped(log.chunks, isPadding, writerDirect) else StillPadding(log.chunks)
    {
      hide OnWire, Payload, Grows;
      ghost var before := log.chunks;
      ghost var f: Frame;
      early := false;
      if InnerData(tls, chunk, complete) {
        if tls.enableXtls {
          writerDirect := true;
        }
        var command := if !last then CONTINUE else if tls.enableXtls then DIRECT else END;
        frame, f := Pad(chunk, command, true, r);
        isPadding := false;
      } else if !tls.tls12 && tls.packets <= 1 {
        isPadding, early := false, true;
        frame, f := Pad(chunk, END, long, r);
      } else {
        var command := if !last || isPadding then CONTINUE else if tls.enableXtls then DIRECT else END;
        frame, f := Pad(chunk, command, long, r);
      }
      if f.command != CONTINUE {
        ShapedEnd(before, f, writerDirect);
      }
    }

    /** Where a padded write stands after its first n chunks; `start` is the log it began with. */
    ghost predicate Progress(start: Log, cs: seq<bytes>, complete: bool, n: nat, frames: seq<bytes>, early: bool)
      reads this
    {
      && n <= |cs| && (early ==> n > 0 && !tls.tls12 && tls.packets <= 1)
      && Sound(tls)
      && Grows(start, log, Concat(cs[..n]), Concat(frames))
      && writeOnceUUID == (if log.chunks == [] then log.uuid else []) && (n > 0 ==> log.chunks != [])
      && (forall i :: 0 <= i < |frames| ==> |frames[i]| <= BUFFER_SIZE)
      && (!isPadding <==> early || exists j :: 0 <= j < n && InnerData(tls, cs[j], complete))
      && (n > 0 && !tls.tls12 && tls.packets <= 1 ==> !isPadding)
      && (writerDirect <==> !isPadding && tls.enableXtls)
      && (if n < |cs| && !early then StillPadding(log.chunks) else Shaped(log.chunks, isPadding, writerDirect))
    }

    method PadNext(ghost start: Log, cs: seq<bytes>, complete: bool, n: nat, frames: seq<bytes>, long: bool, r: nat)
      returns (frames': seq<bytes>, early: bool)
      requires n < |cs| && |cs[n]| < LIMIT && Progress(start, cs, complete, n, frames, false)
      modifies this`isPadding, this`writerDirect, this`writeOnceUUID, this`log
      ensures Progress(start, cs, complete, n + 1, frames', early)
    {
      ghost var before := log;
      var frame: bytes;
      frame, early := PadChunk(cs[n], n == |cs| - 1, complete, long, r);
      hide Grows, Shaped, StillPadding, InnerData, Sound, Concat;
      GrowsByChunk(start, before, log, cs, n, frames, frame);
      frames' := frames + [frame];
    }

    /** Pads chunk after chunk, all of them or until non-TLS traffic ends its padding; n were framed. */
    method PadChunks(cs: seq<bytes>, complete: bool, rnd: seq<nat>) returns (frames: seq<bytes>, n: nat, early: bool)
      requires Valid() && isPadding && cs != [] && forall k :: 0 <= k < |cs| ==> |cs[k]| < LIMIT
      modifies this`isPadding, this`writerDirect, this`writeOnceUUID, this`log
      ensures Progress(old(log), cs, complete, n, frames, early)
      ensures n == |cs| || early
    {
      GrowsNothing(log);
      assert cs[..0] == [];
      var long := tls.isTLS;
      frames, n, early := [], 0, false;
      assert Progress(old(log), cs, complete, n, frames, early);
      hide Progress;
      while n < |cs| && !early
        invariant 0 <= n <= |cs| && Progress(old(log), cs, complete, n, frames, early)
        decreases |cs| - n
      {
        frames, early := PadNext(old(log), cs, complete, n, frames, long, if n < |rnd| then rnd[n] else 0);
        long := long && !InnerData(tls, cs[n], complete);
        n := n + 1;
      }
    }

    /** Data that is no longer framed. */
    ghost method Unframed(b: bytes)
      requires Valid() && !isPadding && log.chunks != []
      modifies this`log
      ensures Valid() && log.chunks != [] && Grows(old(log), log, b, b)
    {
      GrowsAdd(log, Raw(b));
      ShapedRaw(log.chunks, writerDirect, b);
      assert [] + b == b;
      log := log.Add(Raw(b));
    }

    ghost method Rest(cs: seq<bytes>)
      requires Valid() && !isPadding && log.chunks != []
      modifies this`log
      ensures Valid() && log.chunks != [] && Grows(old(log), log, Concat(cs), Concat(cs))
      decreases |cs|
    {
      if cs == [] {
        GrowsNothing(log);
      } else {
        ghost var start := log;
        Unframed(cs[0]);
        ghost var mid := log;
        Rest(cs[1..]);
        GrowsTwice(start, mid, log, cs[0], cs[0], Concat(cs[1..]), Concat(cs[1..]));
      }
    }

    /** Cuts p, pads the pieces and decides where the padding ends. `rnd` stands for the random source. */
    method BuildPaddedFrames(p: bytes, rnd: seq<nat>) returns (frames: seq<bytes>)
      requires Valid() && isPadding
      modifies this`isPadding, this`writerDirect, this`writeOnceUUID, this`log
      ensures Valid() && Grows(old(log), log, p, Concat(frames))
      ensures forall i :: 0 <= i < |frames| ==> |frames[i]| <= BUFFER_SIZE
      ensures !isPadding <==> EndsPadding(tls, p)
      ensures writerDirect <==> EndsPadding(tls, p) && tls.enableXtls
    {
      var cs := Reshape(p);
      ChunksFit(p);
      var complete := IsCompleteTLSRecord(p);
      var n, early;
      frames, n, early := PadChunks(cs, complete, rnd);
      assert log.Accounted();
      hide Shaped, InnerData, OnWire, Payload, Chunks, CompleteRecords, Concat, Grows, StillPadding, Sound;
      ghost var mid := log;
      if n < |cs| {
        Rest(cs[n..]);
        GrowsByRest(old(log), mid, log, cs, n, frames);
        frames := frames + cs[n..];
      } else {
        assert cs[..n] == cs;
      }
    }

    /** The read side shows what it has unpadded to the recognition both directions share. */
    method Observe(b: bytes)
      requires Valid()
      modifies this`tls
      ensures Valid() && tls == if old(tls).packets <= 0 || b == [] then old(tls) else Filter(old(tls), b)
    {
      if tls.packets > 0 && b != [] {
        tls := Filter(tls, b);
      }
    }

    /** A write: direct, unpadded or padded, once the TLS recognition has seen the data. */
    method Write(p: bytes, rnd: seq<nat>) returns (frames: seq<bytes>)
      requires Valid()
      modifies this
      ensures Valid() && Grows(old(log), log, p, Concat(frames))
      ensures tls == if old(writerDirect) || old(tls).packets <= 0 then old(tls) else Filter(old(tls), p)
      ensures !isPadding <==> !old(isPadding) || EndsPadding(tls, p)
      ensures !isPadding <==> !old(isPadding) || (!tls.tls12 && tls.packets <= 1) || (tls.isTLS && |p| >= 6 && WholeRecords(p))
      ensures !old(isPadding) ==> frames == [p] && writerDirect == old(writerDirect)
      ensures old(isPadding) ==> (writerDirect <==> !isPadding && tls.enableXtls)
    {
      if writerDirect {
        frames := SendRaw(p);
        return;
      }
      if tls.packets > 0 {
        tls := Filter(tls, p);
      }
      EndsPaddingExactly(tls, p);
      hide EndsPadding, WholeRecords;
      if !isPadding {
        frames := SendRaw(p);
        return;
      }
      frames := BuildPaddedFrames(p, rnd);
    }

    method SendRaw(p: bytes) returns (frames: seq<bytes>)
      requires Valid() && !isPadding
      modifies this`log
      ensures Valid() && frames == [p] && Grows(old(log), log, p, Concat(frames))
    {
      Unframed(p);
      ConcatSnoc([], p);
      assert [] + [p] == [p];
      return [p];
    }
  }

  /** A chunk that opens an application-data record, in a write made of whole records. */
  predicate InnerData(t: Tls, chunk: bytes, complete: bool) {
    t.isTLS && |chunk| >= 6 && chunk[..3] == APP_DATA && complete
  }

  /** A write ends the padding when it carries inner application data, or filtering of non-TLS runs out. */
  predicate EndsPadding(t: Tls, p: bytes) {
    || (!t.tls12 && t.packets <= 1)
    || exists j :: 0 <= j < |Chunks(p)| && InnerData(t, Chunks(p)[j], CompleteRecords(p))
  }

  /** The data is whole application-data records. */
  ghost predicate WholeRecords(p: bytes) {
    exists rs :: (forall i :: 0 <= i < |rs| ==> |rs[i]| < 0x1_0000) && Records(rs) == p
  }

  lemma {:induction false} CompleteIsWhole(p: bytes)
    ensures CompleteRecords(p) <==> WholeRecords(p)
  {
    if CompleteRecords(p) {
      var rs := CompleteAreRecords(p);
    }
    if WholeRecords(p) {
      var rs :| (forall i :: 0 <= i < |rs| ==> |rs[i]| < 0x1_0000) && Records(rs) == p;
      RecordsAreComplete(rs);
    }
  }

  /**
   Exactly when a write ends the padding: recognition of traffic that is not TLS 1.2 or later has run out, or the
   traffic is TLS and the write is whole application-data records, not just a single empty one.
   */
  lemma {:induction false} EndsPaddingExactly(t: Tls, p: bytes)
    ensures EndsPadding(t, p) <==> (!t.tls12 && t.packets <= 1) || (t.isTLS && |p| >= 6 && WholeRecords(p))
  {
    CompleteIsWhole(p);
    var cs := Chunks(p);
    if t.isTLS && |p| >= 6 && CompleteRecords(p) {
      assert cs[0][..3] == p[..3];
      assert InnerData(t, cs[0], CompleteRecords(p));
    }
    ChunksFit(p);
    if j :| 0 <= j < |cs| && InnerData(t, cs[j], CompleteRecords(p)) {
      PartIsShorter(cs, j);
    }
  }

  lemma {:induction false} PartIsShorter(cs: seq<bytes>, j: nat)
    requires j < |cs|
    ensures |cs[j]| <= |Concat(cs)|
  {
    if j > 0 {
      PartIsShorter(cs[1..], j - 1);
    }
  }

  // ------------------------------------------------------------------ the two sides together

  function FramesOf(cs: seq<Chunk>): (fs: seq<Frame>)
    requires StillPadding(cs) && ValidChunks(cs)
    ensures AllValid(fs) && AllContinue(fs)
  {
    if cs == [] then [] else FramesOf(cs[..|cs| - 1]) + [cs[|cs| - 1].frame]
  }

  lemma {:induction false} StreamSnoc(fs: seq<Frame>, f: Frame)
    requires AllValid(fs) && f.Valid()
    ensures StreamBytes(fs + [f]) == StreamBytes(fs) + FrameBytes(f)
    ensures Contents(fs + [f]) == Contents(fs) + f.content
    decreases |fs|
  {
    if fs == [] {
      assert fs + [f] == [f] && [f][1..] == [];
      assert FrameBytes(f) + [] == FrameBytes(f) && f.content + [] == f.content;
    } else {
      assert (fs + [f])[1..] == fs[1..] + [f];
      StreamSnoc(fs[1..], f);
      assert FrameBytes(fs[0]) + (StreamBytes(fs[1..]) + FrameBytes(f)) == StreamBytes(fs) + FrameBytes(f);
      assert fs[0].content + (Contents(fs[1..]) + f.content) == Contents(fs) + f.content;
    }
  }

  /** The frames of a write log are what its continue chunks put on the wire. */
  lemma {:induction false} FramesOnWire(cs: seq<Chunk>)
    requires StillPadding(cs) && ValidChunks(cs)
    ensures StreamBytes(FramesOf(cs)) == OnWire(cs) && Contents(FramesOf(cs)) == Payload(cs)
    decreases |cs|
  {
    if cs != [] {
      FramesOnWire(cs[..|cs| - 1]);
      StreamSnoc(FramesOf(cs[..|cs| - 1]), cs[|cs| - 1].frame);
    }
  }

  lemma {:induction false} RawTail(cs: seq<Chunk>, k: nat) returns (tail: bytes)
    requires k <= |cs| && ValidChunks(cs) && forall i :: k <= i < |cs| ==> cs[i].Raw?
    ensures OnWire(cs) == OnWire(cs[..k]) + tail && Payload(cs) == Payload(cs[..k]) + tail
    decreases |cs|
  {
    if k == |cs| {
      tail := [];
      assert cs[..k] == cs;
      assert OnWire(cs) + [] == OnWire(cs) && Payload(cs) + [] == Payload(cs);
    } else {
      var n := |cs| - 1;
      var t := RawTail(cs[..n], k);
      assert cs[..n][..k] == cs[..k];
      tail := t + cs[n].data;
      Assoc(OnWire(cs[..k]), t, cs[n].data);
      Assoc(Payload(cs[..k]), t, cs[n].data);
    }
  }

  /** The bytes a connection has sent once its padding is over, as a stream for the peer to read. */
  lemma {:induction false} AsStream(l: Log, direct: bool) returns (st: Stream)
    requires l.Accounted() && |l.uuid| == 16 && Shaped(l.chunks, false, direct)
    ensures st.Valid() && st.Bytes() == l.Emitted() && st.uuid == l.uuid
    ensures Contents(st.fs) + st.last.content + st.tail == l.written
    ensures st.last.command == (if direct then DIRECT else END)
  {
    var k :| EndsAt(l.chunks, k, direct);
    var fs, f := FramesOf(l.chunks[..k]), l.chunks[k].frame;
    var tail := EndedOnWire(l.chunks, k, direct);
    st := Stream(l.uuid, fs, f, tail);
    Assoc(l.uuid, StreamBytes(fs) + FrameBytes(f), tail);
  }

  lemma {:induction false} EndedOnWire(cs: seq<Chunk>, k: nat, direct: bool) returns (tail: bytes)
    requires ValidChunks(cs) && EndsAt(cs, k, direct)
    ensures OnWire(cs) == StreamBytes(FramesOf(cs[..k])) + FrameBytes(cs[k].frame) + tail
    ensures Payload(cs) == Contents(FramesOf(cs[..k])) + cs[k].frame.content + tail
  {
    hide OnWire, Payload, StreamBytes, Contents, FrameBytes, FramesOf, IsContinue;
    tail := RawTail(cs, k + 1);
    FramesOnWire(cs[..k]);
    SnocFacts(cs[..k], cs[k]);
    assert cs[..k] + [cs[k]] == cs[..k + 1];
  }

  /**
   Vision round trip: whatever writes were made, and however the peer's reads cut what was sent, the peer's
   read side hands up exactly the bytes written, if and only if it never reads behind a spoiling cut and never
   takes raw bytes for a first frame.
   */
  lemma {:induction false} VisionRoundTrip(l: Log, direct: bool, candidates: seq<bytes>, ps: seq<Piece>) returns (st: Stream)
    requires l.Accounted() && |l.uuid| == 16 && Shaped(l.chunks, false, direct)
    requires l.uuid in candidates && ProperPieces(ps) && Received(ps) == l.Emitted()
    ensures st.Valid() && st.Bytes() == l.Emitted()
    ensures HandedUp(Run(candidates, ps)) == l.written <==> Undisturbed(candidates, st, ps)
  {
    st := AsStream(l, direct);
    ReadsBackExactly(candidates, st, ps);
  }

  /** While padding goes on, everything written is in the frames already sent. */
  lemma {:induction false} PaddedSoFar(l: Log)
    requires l.Accounted() && |l.uuid| == 16 && StillPadding(l.chunks) && l.chunks != []
    ensures Feed(FIRST_HEAD, l.Emitted()[16..]) == (HEAD, l.written)
  {
    FramesOnWire(l.chunks);
    FeedContinues(FIRST_HEAD, FramesOf(l.chunks));
    assert l.Emitted()[16..] == OnWire(l.chunks);
  }
}
