/**
 What TLS recognition makes of a handshake: hellos laid out as sections 4.1.2 and 4.1.3 of RFC 8446 lay them out, whole
 or in several packets, and what a write behind them does.
 */
module VisionHello {
  import opened Wire
  import opened VisionReader
  import opened VisionWriter

  /** The fields of a server hello. */
  datatype Hello = Hello(random: bytes, session: bytes, suite: u16, compression: byte, extensions: bytes) {
    predicate Valid() { |random| == 32 && |session| <= 32 && |extensions| < 0xff00 }

    function Body(): bytes
      requires Valid()
    {
      [3, 3] + random + [|session|] + session + Be16(suite) + [compression] + Be16(|extensions|) + extensions
    }

    /** The record with the handshake message: type, version, length; message type 2 and a 24-bit length. */
    function Bytes(): (b: bytes)
      requires Valid()
      ensures |b| == 49 + |session| + |extensions|
    {
      [22, 3, 3] + Be16(|Body()| + 4) + ([2, 0] + Be16(|Body()|) + Body())
    }
  }

  lemma {:induction false} Layout(h: Hello)
    requires h.Valid()
    ensures var b, n := h.Bytes(), |h.session|;
            && b[..3] == [22, 3, 3] && b[5] == 2 && 256 * (b[3] as int) + (b[4] as int) + 5 == |b| && b[43] == n
            && 256 * (b[44 + n] as int) + (b[45 + n] as int) == h.suite && b[49 + n..] == h.extensions
  {
    var b, n := h.Bytes(), |h.session|;
    var body := h.Body();
    assert b[9..] == body;
    assert body[34] == n && b[43] == body[34];
    assert body[35 + n] == Be16(h.suite)[0] && body[36 + n] == Be16(h.suite)[1];
    assert b[44 + n] == body[35 + n] && b[45 + n] == body[36 + n];
    assert body[40 + n..] == h.extensions;
    assert b[49 + n..] == body[40 + n..];
  }

  // ------------------------------------------------------------------ one packet at a time

  /** What reading or writing a packet does to recognition. */
  function See(t: Tls, b: bytes): Tls { if t.packets <= 0 then t else Filter(t, b) }

  function SeeAll(t: Tls, ps: seq<bytes>): Tls
    decreases |ps|
  {
    if ps == [] then t else SeeAll(See(t, ps[0]), ps[1..])
  }

  /** The packet opens like a client or server hello. */
  predicate Opens(b: bytes) {
    |b| >= 6 && ((b[..3] == [22, 3, 3] && b[5] == 2) || (b[..2] == [22, 3] && b[5] == 1))
  }

  /** The supported_versions extension of a server hello that selects TLS 1.3. */
  const SELECTS_13: bytes := [0, 43, 0, 2, 3, 4]

  predicate Strong(suite: int) { suite == 0x1301 || suite == 0x1302 || suite == 0x1303 || suite == 0x1304 }

  lemma {:induction false} ClientHelloSeen(t: Tls, b: bytes)
    requires Sound(t) && !t.tls12 && t.packets > 0 && |b| >= 6 && b[..2] == [22, 3] && b[5] == 1
    ensures See(t, b) == t.(packets := t.packets - 1, isTLS := true)
  {
  }

  lemma {:induction false} OtherDataSeen(t: Tls, b: bytes)
    requires Sound(t) && !t.tls12 && t.packets > 0 && !Opens(b)
    ensures See(t, b) == t.(packets := t.packets - 1)
  {
  }

  /** A packet that goes on with a hello of which `due` bytes are missing. */
  lemma {:induction false} GoesOn(t: Tls, b: bytes)
    requires t.packets > 0 && t.serverHello > 0 && !Opens(b)
    ensures var u, found := See(t, b), Contains(b[..Min(t.serverHello, |b|)], SELECTS_13);
            && u.isTLS == t.isTLS && u.tls12 == t.tls12 && u.cipher == t.cipher && u.serverHello == t.serverHello - |b|
            && u.packets == (if found || |b| >= t.serverHello then 0 else t.packets - 1)
            && u.enableXtls == (t.enableXtls || (found && Strong(t.cipher)))
  {
  }

  /** The packet a server hello begins in. */
  lemma {:induction false} Begins(t: Tls, h: Hello, b: bytes)
    requires Sound(t) && !t.tls12 && t.packets > 0 && h.Valid() && |b| >= 6
    requires forall k :: 0 <= k < |b| && k < |h.Bytes()| ==> b[k] == h.Bytes()[k]
    ensures var u, n := See(t, b), |h.Bytes()|;
            var found := Contains(b[..Min(n, |b|)], SELECTS_13);
            && u.isTLS && u.tls12 && u.serverHello == n - |b|
            && u.cipher == (if n >= 79 && |b| >= 79 && |b| >= 46 + |h.session| then h.suite else 0)
            && u.packets == (if found || |b| >= n then 0 else t.packets - 1)
            && u.enableXtls == (found && Strong(u.cipher))
  {
    Layout(h);
    var c := h.Bytes();
    assert b[..3] == c[..3] && b[5] == c[5];
    hide Contains, Hello.Bytes;
  }

  // ------------------------------------------------------------------ a whole hello

  /** The packets have at least this many bytes. */
  predicate Covers(ps: seq<bytes>, due: int)
    decreases |ps|
  {
    ps != [] && (|ps[0]| >= due || Covers(ps[1..], due - |ps[0]|))
  }

  /** One of the packets has the extension in its part of the first `due` bytes. */
  predicate Selects(ps: seq<bytes>, due: nat)
    decreases |ps|
  {
    && ps != []
    && (Contains(ps[0][..Min(due, |ps[0]|)], SELECTS_13) || (|ps[0]| < due && Selects(ps[1..], due - |ps[0]|)))
  }

  lemma {:induction false} DoneSeeing(t: Tls, ps: seq<bytes>)
    requires t.packets <= 0
    ensures SeeAll(t, ps) == t
    decreases |ps|
  {
    if ps != [] {
      DoneSeeing(t, ps[1..]);
    }
  }

  lemma {:induction false} RestOfHello(t: Tls, ps: seq<bytes>, due: nat)
    requires t.serverHello == due > 0 && t.isTLS && t.tls12 && t.packets >= |ps| && Covers(ps, due)
    requires forall i :: 0 <= i < |ps| ==> !Opens(ps[i])
    ensures var u := SeeAll(t, ps);
            u.isTLS && u.tls12 && u.packets == 0 && (u.enableXtls <==> t.enableXtls || (Strong(t.cipher) && Selects(ps, due)))
    decreases |ps|
  {
    hide Filter, Opens, Contains, See;
    GoesOn(t, ps[0]);
    var u := See(t, ps[0]);
    if u.packets == 0 {
      DoneSeeing(u, ps[1..]);
    } else {
      RestOfHello(u, ps[1..], due - |ps[0]|);
    }
  }

  lemma {:induction false} PrefixCovers(ps: seq<bytes>, b: bytes)
    requires b <= Concat(ps) && b != []
    ensures Covers(ps, |b|)
    decreases |ps|
  {
    if |ps[0]| < |b| {
      assert b[|ps[0]|..] <= Concat(ps[1..]);
      PrefixCovers(ps[1..], b[|ps[0]|..]);
    }
  }

  /**
   A server hello, arriving whole or in several packets, is recognised: the traffic is TLS 1.2 or later and recognition
   is over. Direct mode is enabled exactly if the hello has at least 79 bytes, the first packet reaches the cipher suite
   and has 79 of them, the suite is one of the four strong ones, and the extension that selects TLS 1.3 lies within one
   of the packets.
   */
  lemma {:induction false} HelloRecognised(t: Tls, h: Hello, ps: seq<bytes>)
    requires Sound(t) && !t.tls12 && t.packets >= |ps| && h.Valid()
    requires ps != [] && |ps[0]| >= 6 && h.Bytes() <= Concat(ps) && forall i :: 0 < i < |ps| ==> !Opens(ps[i])
    ensures var u, n := SeeAll(t, ps), |h.Bytes()|;
            && u.isTLS && u.tls12 && u.packets == 0
            && (u.enableXtls <==>
                  n >= 79 && |ps[0]| >= 79 && |ps[0]| >= 46 + |h.session| && Strong(h.suite) && Selects(ps, n))
  {
    var b := h.Bytes();
    PrefixCovers(ps, b);
    assert forall k :: 0 <= k < |ps[0]| && k < |b| ==> ps[0][k] == Concat(ps)[k] == b[k];
    hide Filter, Opens, Contains, See, Concat, Hello.Bytes;
    Begins(t, h, ps[0]);
    var u := See(t, ps[0]);
    if u.packets == 0 {
      DoneSeeing(u, ps[1..]);
    } else {
      RestOfHello(u, ps[1..], |b| - |ps[0]|);
    }
  }

  /** In one packet, with or without data behind it. */
  lemma {:induction false} WholeHelloRecognised(t: Tls, h: Hello, rest: bytes)
    requires Sound(t) && !t.tls12 && t.packets > 0 && h.Valid()
    ensures var u := See(t, h.Bytes() + rest);
            && u.isTLS && u.tls12 && u.packets == 0
            && (u.enableXtls <==> |h.Bytes()| >= 79 && Strong(h.suite) && Contains(h.Bytes(), SELECTS_13))
  {
    var b := h.Bytes() + rest;
    assert b[..|h.Bytes()|] == h.Bytes();
    Begins(t, h, b);
    hide Filter, Contains, Hello.Bytes;
  }

  /** A hello that has the extension is one that contains it. */
  lemma {:induction false} ExtensionIsContained(h: Hello, before: bytes, after: bytes)
    requires h.Valid() && h.extensions == before + SELECTS_13 + after
    ensures Contains(h.Bytes(), SELECTS_13)
  {
    Layout(h);
    var b, i := h.Bytes(), 49 + |h.session| + |before|;
    hide Hello.Bytes;
    assert b[49 + |h.session|..][|before|..|before| + 6] == SELECTS_13;
    assert b[i..i + 6] == b[49 + |h.session|..][|before|..|before| + 6];
    assert At(b, i, SELECTS_13);
  }

  /** The bytes are looked for anywhere: in the random number they are taken for the extension. */
  lemma {:induction false} RandomTakenForExtension(t: Tls)
    requires Sound(t) && !t.tls12 && t.packets > 0
    ensures var h := Hello(SELECTS_13 + seq(26, _ => 0), seq(32, _ => 0), 0x1301, 0, []);
            h.Valid() && See(t, h.Bytes()).enableXtls
  {
    var h := Hello(SELECTS_13 + seq(26, _ => 0), seq(32, _ => 0), 0x1301, 0, []);
    var b := h.Bytes();
    assert h.Body()[2..8] == SELECTS_13;
    assert b[11..17] == h.Body()[2..8];
    assert At(b, 11, SELECTS_13);
    WholeHelloRecognised(t, h, []);
    assert b + [] == b;
  }

  // ------------------------------------------------------------------ what the writer does behind it

  lemma {:induction false} HelloIsNotRecords(h: Hello, rest: bytes)
    requires h.Valid()
    ensures !CompleteRecords(h.Bytes() + rest)
  {
    Layout(h);
    assert (h.Bytes() + rest)[0] == h.Bytes()[..3][0];
    OpensOtherwise(h.Bytes() + rest);
  }

  lemma {:induction false} OpensOtherwise(b: bytes)
    requires b != [] && b[0] != 0x17
    ensures !CompleteRecords(b)
  {
    assert |b| >= 3 ==> b[..3][0] == b[0];
  }

  /**
   A hello with a strong suite and TLS 1.3 selected, and behind it a write of whole application records: the padding
   ends with that write, in a Direct frame.
   */
  method DirectBehindHello(w: VisionWriter, h: Hello, records: seq<bytes>, rnd: seq<nat>, more: seq<nat>)
    requires w.Valid() && w.isPadding && !w.tls.tls12 && w.tls.packets > 0
    requires h.Valid() && |h.Bytes()| >= 79 && Strong(h.suite) && Contains(h.Bytes(), SELECTS_13)
    requires records != [] && records[0] != [] && forall i :: 0 <= i < |records| ==> |records[i]| < 0x1_0000
    modifies w
    ensures w.Valid() && !w.isPadding && w.writerDirect && w.log.written == old(w.log.written) + h.Bytes() + Records(records)
    ensures exists k :: EndsAt(w.log.chunks, k, true)
  {
    WholeHelloRecognised(w.tls, h, []);
    assert h.Bytes() + [] == h.Bytes();
    HelloIsNotRecords(h, []);
    CompleteIsWhole(h.Bytes());
    assert |Records(records)| >= 6 && WholeRecords(Records(records));
    hide Filter, Contains, Hello.Bytes, WholeRecords, Records, EndsPadding, EndsAt, StillPadding;
    var _ := w.Write(h.Bytes(), rnd);
    var _ := w.Write(Records(records), more);
  }
}
