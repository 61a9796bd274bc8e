/**
 The write side of a Shadowsocks 2022 session: a response header that waits for the first data, goes
 out with it exactly once and before everything else, and declares that data's length.
 */
module Ss2022Response {
  import opened Wire
  import opened Aead
  import opened BlockStream
  import opened ShadowStreams

  const SERVER_HEADER: byte := 1
  const MAX_READ := 0xFFFF

  function BeBytes(n: nat, v: nat): (b: bytes)
    ensures |b| == n
  {
    if n == 0 then [] else BeBytes(n - 1, v / 256) + [v % 256]
  }

  /** Type, timestamp, the request's salt, the length of the first block. */
  function FixedHeader(now: nat, reqSalt: bytes, first: bytes): (b: bytes)
    requires |first| < 0x1_0000
    ensures |b| == 1 + 8 + |reqSalt| + 2
  {
    [SERVER_HEADER] + BeBytes(8, now) + reqSalt + Be16(|first|)
  }

  /** What one successful write to the connection carried. */
  datatype Packet = Head(now: nat, first: bytes) | Data(chunk: bytes)

  function Carried(p: Packet): bytes { if p.Head? then p.first else p.chunk }

  datatype Session = Session(cipher: Cipher, salt: bytes, reqSalt: bytes)

  /** A data packet carries something, a header may go out alone. */
  predicate Fits(p: Packet) { |Carried(p)| <= CHUNK_LIMIT && (p.Data? ==> Carried(p) != []) }

  function PacketBytes(s: Session, k: nat, p: Packet): bytes
    requires Fits(p)
  {
    if p.Head? then s.salt + s.cipher.seal(Nonce(k), FixedHeader(p.now, s.reqSalt, p.first)) + s.cipher.seal(Nonce(Inc(k)), p.first)
    else EncodeBlock(s.cipher, k, p.chunk)
  }

  predicate Sized(ps: seq<Packet>) {
    forall i :: 0 <= i < |ps| ==> Fits(ps[i])
  }

  function PacketsBytes(s: Session, k: nat, ps: seq<Packet>): bytes
    requires Sized(ps)
    decreases |ps|
  {
    if ps == [] then [] else PacketBytes(s, k, ps[0]) + PacketsBytes(s, Inc(Inc(k)), ps[1..])
  }

  function AllCarried(ps: seq<Packet>): bytes {
    if ps == [] then [] else Carried(ps[0]) + AllCarried(ps[1..])
  }

  /** One header, first. */
  predicate HeaderFirst(ps: seq<Packet>) {
    forall i :: 0 <= i < |ps| ==> (ps[i].Head? <==> i == 0)
  }

  lemma {:induction false} PacketsSnoc(s: Session, k: nat, ps: seq<Packet>, p: Packet)
    requires Sized(ps) && Fits(p)
    ensures Sized(ps + [p])
    ensures PacketsBytes(s, k, ps + [p]) == PacketsBytes(s, k, ps) + PacketBytes(s, After(k, |ps|), p)
    ensures After(k, |ps| + 1) == Inc(Inc(After(k, |ps|)))
    decreases |ps|
  {
    hide PacketBytes;
    assert forall i :: 0 <= i < |ps| ==> (ps + [p])[i] == ps[i];
    if ps == [] {
      assert ps + [p] == [p] && [p][1..] == ps;
      assert PacketBytes(s, k, p) + [] == PacketBytes(s, k, p);
    } else {
      assert (ps + [p])[1..] == ps[1..] + [p];
      PacketsSnoc(s, Inc(Inc(k)), ps[1..], p);
      Assoc(PacketBytes(s, k, ps[0]), PacketsBytes(s, Inc(Inc(k)), ps[1..]), PacketBytes(s, After(k, |ps|), p));
    }
  }

  lemma {:induction false} CarriedSnoc(ps: seq<Packet>, p: Packet)
    ensures AllCarried(ps + [p]) == AllCarried(ps) + Carried(p)
  {
    if ps == [] {
      assert ps + [p] == [p] && [p][1..] == ps;
      assert Carried(p) + [] == Carried(p);
    } else {
      assert (ps + [p])[1..] == ps[1..] + [p];
      CarriedSnoc(ps[1..], p);
      Assoc(Carried(ps[0]), AllCarried(ps[1..]), Carried(p));
    }
  }

  // ------------------------------------------------------------------ the client's side

  datatype Greeting = Greeting(now: nat, echo: bytes, first: bytes, rest: bytes)

  function BeValue(b: bytes): nat {
    if b == [] then 0 else BeValue(b[..|b| - 1]) * 256 + b[|b| - 1]
  }

  lemma {:induction false} BeRoundTrip(n: nat, v: nat)
    requires v < Power256(n)
    ensures BeValue(BeBytes(n, v)) == v
  {
    if n > 0 {
      BeRoundTrip(n - 1, v / 256);
      var b := BeBytes(n, v);
      assert b[..|b| - 1] == BeBytes(n - 1, v / 256);
    }
  }

  /**
   How a client opens a response: a salt of the key's length, the sealed fixed header, and then one
   sealed block of exactly the declared length.
   */
  function OpenResponse(c: Cipher, keyLen: nat, s: bytes): Option<Greeting> {
    var fixedEnd := keyLen + (1 + 8 + keyLen + 2) + TAG;
    if |s| < fixedEnd then None
    else
      var fixed := c.open(Nonce(0), s[keyLen..fixedEnd]);
      if fixed.None? || |fixed.value| != 1 + 8 + keyLen + 2 || fixed.value[0] != SERVER_HEADER then None
      else
        var h := fixed.value;
        var end := fixedEnd + FromBe16(h[9 + keyLen], h[10 + keyLen]) + TAG;
        if |s| < end then None
        else
          var first := c.open(Nonce(1), s[fixedEnd..end]);
          if first.None? then None else Some(Greeting(BeValue(h[1..9]), h[9..9 + keyLen], first.value, s[end..]))
  }

  lemma {:induction false} FixedHeaderFields(now: nat, reqSalt: bytes, first: bytes)
    requires |first| < 0x1_0000 && now < WRAP
    ensures var h, n := FixedHeader(now, reqSalt, first), |reqSalt|;
            && h[0] == SERVER_HEADER && BeValue(h[1..9]) == now && h[9..9 + n] == reqSalt
            && FromBe16(h[9 + n], h[10 + n]) == |first|
  {
    var h, n := FixedHeader(now, reqSalt, first), |reqSalt|;
    assert Power256(8) == WRAP by {
      assert Power256(4) == 0x1_0000_0000;
    }
    BeRoundTrip(8, now);
    assert h[1..9] == BeBytes(8, now);
    hide BeBytes, BeValue, Power256;
    assert h[9..9 + n] == reqSalt;
    assert h[9 + n] == Be16(|first|)[0] && h[10 + n] == Be16(|first|)[1];
    Be16RoundTrip(|first|);
  }

  /** The declared length is the first block's: a client recovers header and first block and nothing beyond. */
  lemma {:induction false} ClientOpensHeader(s: Session, p: Packet, rest: bytes)
    requires s.cipher.Good() && |s.salt| == |s.reqSalt| && p.Head? && Fits(p) && p.now < WRAP
    ensures OpenResponse(s.cipher, |s.salt|, PacketBytes(s, 0, p) + rest) == Some(Greeting(p.now, s.reqSalt, p.first, rest))
  {
    var c, n := s.cipher, |s.salt|;
    var fixed, first := c.seal(Nonce(0), FixedHeader(p.now, s.reqSalt, p.first)), c.seal(Nonce(1), p.first);
    FixedHeaderFields(p.now, s.reqSalt, p.first);
    hide BeBytes, BeValue, Power256, LeBytes, FixedHeader;
    var w := PacketBytes(s, 0, p) + rest;
    assert Inc(0) == 1;
    assert w == s.salt + fixed + first + rest;
    assert w[n..n + |fixed|] == fixed;
    assert w[n + |fixed|..n + |fixed| + |first|] == first;
    assert w[n + |fixed| + |first|..] == rest;
  }

  function Chunks(ps: seq<Packet>): seq<bytes> {
    if ps == [] then [] else [Carried(ps[0])] + Chunks(ps[1..])
  }

  lemma {:induction false} DataIsBlocks(s: Session, k: nat, ps: seq<Packet>)
    requires Sized(ps) && forall i :: 0 <= i < |ps| ==> ps[i].Data?
    ensures BlockSized(Chunks(ps), CHUNK_LIMIT) && Concat(Chunks(ps)) == AllCarried(ps)
    ensures PacketsBytes(s, k, ps) == EncodeBlocks(s.cipher, k, Chunks(ps))
    decreases |ps|
  {
    if ps != [] {
      DataIsBlocks(s, Inc(Inc(k)), ps[1..]);
      assert Chunks(ps)[1..] == Chunks(ps[1..]);
    }
  }

  /**
   Whatever a session has sent in full, a client opens: one header, then every block in order, and
   header block and blocks together are the data written.
   */
  lemma {:induction false} ClientReadsAll(s: Session, ps: seq<Packet>)
    requires s.cipher.Good() && |s.salt| == |s.reqSalt|
    requires Sized(ps) && HeaderFirst(ps) && ps != [] && ps[0].now < WRAP
    ensures Consumes(Decode(s.cipher, MAX_READ))
    ensures var g := OpenResponse(s.cipher, |s.salt|, PacketsBytes(s, 0, ps));
            && g.Some? && g.value.echo == s.reqSalt
            && var (data, clean) := Drain(Decode(s.cipher, MAX_READ), 2, g.value.rest);
               clean && g.value.first + data == AllCarried(ps)
  {
    assert Inc(Inc(0)) == 2;
    ClientOpensHeader(s, ps[0], PacketsBytes(s, 2, ps[1..]));
    DataIsBlocks(s, 2, ps[1..]);
    DrainEncoded(s.cipher, MAX_READ, 2, Chunks(ps[1..]));
  }

  // ------------------------------------------------------------------ the connection

  class ResponseWriter {
    const session: Session
    /** The header is still due. */
    var headerDue: bool
    var writeNonce: nat

    /** Writes that reached the connection, whether none ever failed, and the bytes they put there. */
    ghost var sent: seq<Packet>
    ghost var unbroken: bool
    ghost var wire: bytes

    ghost predicate Valid()
      reads this
    {
      && Sized(sent) && HeaderFirst(sent)
      && (headerDue <==> sent == [])
      && (unbroken ==> writeNonce == After(0, |sent|) && wire == PacketsBytes(session, 0, sent))
    }

    constructor (session: Session)
      ensures Valid() && headerDue && unbroken && sent == [] && wire == [] && this.session == session
    {
      this.session := session;
      headerDue, writeNonce := true, 0;
      sent, unbroken, wire := [], true, [];
    }

    /** Seals one packet under the next two counters and gives it to the connection, which may fail. */
    method Send(p: Packet, ok: bool) returns (out: bytes)
      requires Valid() && Fits(p) && (p.Head? <==> headerDue)
      modifies this
      ensures Valid() && writeNonce == Inc(Inc(old(writeNonce)))
      ensures sent == (if ok then old(sent) + [p] else old(sent)) && unbroken == (old(unbroken) && ok)
      ensures wire == (if ok then old(wire) + out else old(wire))
      ensures out == PacketBytes(session, old(writeNonce), p)
      ensures AllCarried(sent) == AllCarried(old(sent)) + (if ok then Carried(p) else [])
    {
      CarriedSnoc(sent, p);
      PacketsSnoc(session, 0, sent, p);
      assert AllCarried(sent) + [] == AllCarried(sent);
      hide PacketBytes, PacketsBytes, AllCarried, Inc, After;
      out := PacketBytes(session, writeNonce, p);
      if ok {
        headerDue, sent, wire := false, sent + [p], wire + out;
      } else {
        unbroken := false;
      }
      writeNonce := Inc(Inc(writeNonce));
    }

    /** A write of `data`, of whose writes to the connection only `good` succeed. */
    method Write(data: bytes, now: nat, good: nat) returns (written: nat, failed: bool)
      requires Valid()
      modifies this
      ensures Valid() && old(sent) <= sent && written <= |data|
      ensures AllCarried(sent) == AllCarried(old(sent)) + data[..written]
      ensures written == Min(|data|, 16383 * good) && (failed <==> written < |data|)
      ensures !failed ==> unbroken == old(unbroken)
      ensures data != [] && good > 0 ==> !headerDue
    {
      hide PacketBytes, PacketsBytes, AllCarried, Inc, After, HeaderFirst;
      written, failed := 0, false;
      assert AllCarried(sent) + data[..0] == AllCarried(sent);
      if data == [] {
        return;
      }
      var left := good;
      if headerDue {
        written := Min(|data|, CHUNK_LIMIT);
        failed := left == 0;
        var _ := Send(Head(now, data[..written]), !failed);
        if failed {
          return 0, true;
        }
        left := left - 1;
      }
      while written < |data|
        invariant Valid() && old(sent) <= sent && written <= |data| && !headerDue
        invariant AllCarried(sent) == AllCarried(old(sent)) + data[..written]
        invariant !failed && unbroken == old(unbroken)
        invariant 0 <= left <= good && (written == 16383 * (good - left) || (written == |data| && written <= 16383 * good))
      {
        var chunk := data[written..written + Min(|data| - written, CHUNK_LIMIT)];
        failed := left == 0;
        var _ := Send(Data(chunk), !failed);
        if failed {
          return;
        }
        assert data[..written + |chunk|] == data[..written] + chunk;
        Assoc(AllCarried(old(sent)), data[..written], chunk);
        left, written := left - 1, written + |chunk|;
      }
    }

    /** Half-closing sends the header with an empty first block if no data ever did. */
    method CloseWrite(now: nat, ok: bool) returns (failed: bool)
      requires Valid()
      modifies this
      ensures Valid() && AllCarried(sent) == AllCarried(old(sent))
      ensures failed <==> old(headerDue) && !ok
      ensures !failed ==> !headerDue && unbroken == old(unbroken)
      ensures !old(headerDue) ==> sent == old(sent) && !failed
    {
      failed := false;
      if headerDue {
        assert AllCarried(sent) + [] == AllCarried(sent);
        var _ := Send(Head(now, []), ok);
        failed := !ok;
      }
    }
  }
}
