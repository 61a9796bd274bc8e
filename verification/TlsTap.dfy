/**
 The tap under a TLS connection that hands bytes up one TLS record at a time (record header as in
 section 5.1 of RFC 8446: type, version, two length bytes), so that switching to direct reading can
 return exactly the bytes that were read from the socket and not yet handed up.
 */
module TlsTap {
  import opened Wire

  /** Where a record parser stands: header bytes seen, or body bytes still due. */
  datatype Rec = Rec(hdr: bytes, bodyLeft: nat) {
    predicate Valid() {
      |hdr| <= 5 && (|hdr| == 5 <==> bodyLeft > 0)
    }

    predicate AtBoundary() { hdr == [] }
  }

  const START := Rec([], 0)

  /** One byte further. */
  function Next(r: Rec, b: byte): (q: Rec)
    requires r.Valid()
    ensures q.Valid()
  {
    if |r.hdr| < 4 then Rec(r.hdr + [b], 0)
    else if |r.hdr| == 4 then
      var n := FromBe16(r.hdr[3], b);
      if n == 0 then START else Rec(r.hdr + [b], n)
    else if r.bodyLeft == 1 then START
    else r.(bodyLeft := r.bodyLeft - 1)
  }

  function Parse(r: Rec, s: bytes): (q: Rec)
    requires r.Valid()
    ensures q.Valid()
    decreases |s|
  {
    if s == [] then r else Next(Parse(r, s[..|s| - 1]), s[|s| - 1])
  }

  lemma {:induction false} ParseAppend(r: Rec, a: bytes, b: bytes)
    requires r.Valid()
    ensures Parse(r, a + b) == Parse(Parse(r, a), b)
    decreases |b|
  {
    if b == [] {
      assert a + b == a;
    } else {
      assert (a + b)[..|a + b| - 1] == a + b[..|b| - 1];
      ParseAppend(r, a, b[..|b| - 1]);
    }
  }

  lemma {:induction false} ParseOne(r: Rec, b: byte)
    requires r.Valid()
    ensures Parse(r, [b]) == Next(r, b)
  {
    assert [b][..0] == [];
  }

  /** A stretch of body bytes. */
  lemma {:induction false} ParseBody(r: Rec, s: bytes)
    requires r.Valid() && |r.hdr| == 5 && |s| <= r.bodyLeft
    ensures Parse(r, s) == if |s| == r.bodyLeft then START else r.(bodyLeft := r.bodyLeft - |s|)
    decreases |s|
  {
    if s != [] {
      ParseBody(r, s[..|s| - 1]);
    }
  }

  /** n bytes of s reach the end of the current record, or all of s falls short of it. */
  ghost predicate RecordEnd(r: Rec, s: bytes, n: nat)
    requires r.Valid()
  {
    && n <= |s| && (s != [] ==> n > 0)
    && (forall i :: 0 < i < n ==> !Parse(r, s[..i]).AtBoundary())
    && (n < |s| ==> Parse(r, s[..n]).AtBoundary())
  }

  /** There is only one such place. */
  lemma {:induction false} RecordEndUnique(r: Rec, s: bytes, n: nat, m: nat)
    requires r.Valid() && RecordEnd(r, s, n) && RecordEnd(r, s, m)
    ensures n == m
  {
    var k := Min(n, m);
    assert k < |s| || n == m;
  }

  /** It is where the record of the byte layout ends: five header bytes and as many as they announce. */
  lemma {:induction false} RecordEndOfRecord(header: bytes, body: bytes, rest: bytes)
    requires |header| == 5 && |body| == FromBe16(header[3], header[4])
    ensures RecordEnd(START, header + body + rest, 5 + |body|)
  {
    var s := header + body + rest;
    forall i | 0 < i < 5
      ensures Parse(START, s[..i]) == Rec(header[..i], 0)
    {
      HeaderBytes(s, i);
    }
    HeaderBytes(s, 4);
    assert s[..5] == s[..4] + [s[4]];
    ParseAppend(START, s[..4], [s[4]]);
    ParseOne(Rec(s[..4], 0), s[4]);
    assert s[..5] == header && s[..4][3] == header[3];
    assert Parse(START, header) == if body == [] then START else Rec(header, |body|);
    forall i | 5 < i <= 5 + |body|
      ensures Parse(START, s[..i]) == if i == 5 + |body| then START else Rec(header, |body| - (i - 5))
    {
      assert s[..i] == s[..5] + s[5..i];
      ParseAppend(START, s[..5], s[5..i]);
      ParseBody(Rec(header, |body|), s[5..i]);
    }
  }

  lemma {:induction false} HeaderBytes(s: bytes, i: nat)
    requires i < 5 && i <= |s|
    ensures Parse(START, s[..i]) == Rec(s[..i], 0)
    decreases i
  {
    if i == 0 {
      assert s[..0] == [];
    } else {
      hide Parse;
      HeaderBytes(s, i - 1);
      NextByte(START, s, i - 1);
      assert s[..i - 1] + [s[i - 1]] == s[..i];
    }
  }

  lemma {:induction false} NextByte(r: Rec, b: bytes, i: nat)
    requires r.Valid() && i < |b|
    ensures Parse(r, b[..i + 1]) == Next(Parse(r, b[..i]), b[i])
  {
    ParseAppend(r, b[..i], [b[i]]);
    ParseOne(Parse(r, b[..i]), b[i]);
    assert b[..i] + [b[i]] == b[..i + 1];
  }

  /** Bytes of a record's body count it down. */
  lemma {:induction false} BodyStretch(r: Rec, b: bytes, i: nat, take: nat)
    requires r.Valid() && i + take <= |b|
    requires var p := Parse(r, b[..i]); |p.hdr| == 5 && take <= p.bodyLeft
    ensures var p := Parse(r, b[..i]);
            forall k :: i < k <= i + take ==>
                          Parse(r, b[..k]) == if k - i == p.bodyLeft then START else p.(bodyLeft := p.bodyLeft - (k - i))
  {
    hide Parse;
    var p := Parse(r, b[..i]);
    forall k | i < k <= i + take
      ensures Parse(r, b[..k]) == if k - i == p.bodyLeft then START else p.(bodyLeft := p.bodyLeft - (k - i))
    {
      assert b[..k] == b[..i] + b[i..k];
      ParseAppend(r, b[..i], b[i..k]);
      ParseBody(p, b[i..k]);
    }
  }

  lemma {:induction false} EndIsBoundary(r: Rec, s: bytes, n: nat)
    requires r.Valid() && s != [] && RecordEnd(r, s, n)
    ensures 0 < n <= |s| && (n < |s| ==> Parse(r, s[..n]).AtBoundary())
    ensures forall i :: 0 < i < n ==> !Parse(r, s[..i]).AtBoundary()
  {
    hide Parse;
  }

  lemma {:induction false} CutIn(before: bytes, net: bytes, limit: nat)
    requires limit <= |net|
    ensures before + net == before + net[..limit] + net[limit..] && (limit == |net| ==> net[..limit] == net)
  {
  }

  class Tap {
    var aligned: bool
    var switched: bool
    var buf: bytes
    var readErr: bool
    const hdr: array<byte>
    var hdrHave: nat
    var bodyLeft: nat

    /** History: all the socket gave, and all that was handed up. */
    ghost var received: bytes
    ghost var delivered: bytes

    ghost function Position(): Rec
      requires hdrHave <= hdr.Length
      reads this, hdr
    {
      Rec(hdr[..hdrHave], bodyLeft)
    }

    /** Nothing is lost or reordered; while aligned, the parser has seen exactly what was handed up. */
    ghost predicate Valid()
      reads this, hdr
    {
      && hdr.Length == 5 && hdrHave <= 5 && Position().Valid()
      && (!switched ==> delivered + buf == received)
      && (aligned ==> Position() == Parse(START, delivered))
    }

    constructor ()
      ensures Valid() && aligned && !switched && received == [] && delivered == [] && fresh(hdr)
    {
      aligned, switched, buf, readErr := true, false, [], false;
      hdr := new byte[5];
      hdrHave, bodyLeft := 0, 0;
      received, delivered := [], [];
    }

    /** How many bytes of b belong to the current record. */
    method RecordEndOf(b: bytes) returns (n: nat)
      requires Valid()
      ensures RecordEnd(Position(), b, n)
    {
      var h, have := hdr[..hdrHave], hdrHave;
      var left: nat := bodyLeft;
      var i := 0;
      ghost var r := Position();
      assert b[..0] == [];
      while i < |b|
        invariant 0 <= i <= |b| && have == |h| && Rec(h, left).Valid()
        invariant Parse(r, b[..i]) == Rec(h, left)
        invariant forall k :: 0 < k <= i ==> !Parse(r, b[..k]).AtBoundary()
        decreases |b| - i
      {
        hide Parse;
        if have < 5 {
          NextByte(r, b, i);
          h, have, i := h + [b[i]], have + 1, i + 1;
          if have == 5 {
            left := FromBe16(h[3], h[4]);
            if left == 0 {
              return i;
            }
          }
        } else {
          var take := Min(left, |b| - i);
          BodyStretch(r, b, i, take);
          i, left := i + take, left - take;
          if left == 0 {
            return i;
          }
        }
      }
      return |b|;
    }

    /** Counts bytes handed up. */
    method Advance(b: bytes)
      requires hdr.Length == 5 && hdrHave <= 5 && Position().Valid()
      modifies this`hdrHave, this`bodyLeft, hdr
      ensures hdrHave <= 5 && Position() == Parse(old(Position()), b)
    {
      ghost var r := Position();
      var i := 0;
      assert b[..0] == [];
      while i < |b|
        invariant 0 <= i <= |b| && hdrHave <= 5 && Position().Valid()
        invariant Position() == Parse(r, b[..i])
        decreases |b| - i
      {
        hide Parse;
        ghost var p := Position();
        if hdrHave < 5 {
          NextByte(r, b, i);
          hdr[hdrHave] := b[i];
          hdrHave, i := hdrHave + 1, i + 1;
          assert hdr[..hdrHave] == p.hdr + [b[i - 1]];
          if hdrHave == 5 {
            bodyLeft := FromBe16(hdr[3], hdr[4]);
            if bodyLeft == 0 {
              hdrHave := 0;
            }
          }
        } else {
          var take := Min(bodyLeft, |b| - i);
          BodyStretch(r, b, i, take);
          i, bodyLeft := i + take, bodyLeft - take;
          if bodyLeft == 0 {
            hdrHave := 0;
          }
        }
      }
      assert b[..|b|] == b;
    }

    /** Hands up held bytes, at most `room` of them, and while aligned never past the end of a record. */
    method Deliver(room: nat) returns (out: bytes)
      requires Valid() && !switched && buf != []
      modifies this, hdr
      ensures Valid() && received == old(received) && delivered == old(delivered) + out
      ensures aligned == old(aligned) && !switched && readErr == old(readErr)
      ensures |out| <= room && out <= old(buf) && (room > 0 ==> out != [])
      ensures |out| < room && |out| < |old(buf)| ==> aligned && Parse(START, delivered).AtBoundary()
      ensures aligned ==> forall i :: 0 < i < |out| ==> !Parse(START, old(delivered) + out[..i]).AtBoundary()
    {
      var limit := |buf|;
      if aligned {
        limit := RecordEndOf(buf);
      }
      var n := Min(room, limit);
      out := buf[..n];
      ghost var before := delivered;
      if aligned {
        forall i | 0 < i < |out|
          ensures !Parse(START, before + out[..i]).AtBoundary()
        {
          ParseAppend(START, before, out[..i]);
          assert out[..i] == buf[..i];
        }
        ParseAppend(START, before, out);
        Advance(out);
      }
      assert before + out + buf[n..] == received;
      delivered, buf := delivered + out, buf[n..];
    }

    /** A read from the socket that gave `net`: up to the end of the current record goes up, the rest is held. */
    method ReadAligned(net: bytes, err: bool) returns (out: bytes, failed: bool)
      requires Valid() && aligned && !switched && buf == [] && !readErr && net != []
      modifies this, hdr
      ensures Valid() && aligned && !switched && out != [] && out <= net
      ensures received == old(received) + net && delivered == old(delivered) + out
      ensures forall i :: 0 < i < |out| ==> !Parse(START, old(delivered) + out[..i]).AtBoundary()
      ensures out < net ==> Parse(START, delivered).AtBoundary() && readErr == err && !failed
      ensures out == net ==> failed == err && !readErr
    {
      hide Parse, RecordEnd;
      var limit := RecordEndOf(net);
      ghost var before := delivered;
      EndIsBoundary(Position(), net, limit);
      CutIn(before, net, limit);
      ParseAppend(START, before, net[..limit]);
      forall i | 0 < i < limit
        ensures !Parse(START, before + net[..limit][..i]).AtBoundary()
      {
        assert net[..limit][..i] == net[..i];
        ParseAppend(START, before, net[..i]);
      }
      out, failed := net[..limit], false;
      Advance(out);
      received, delivered := received + net, delivered + out;
      if limit < |net| {
        buf, readErr := net[limit..], err;
      } else {
        failed := err;
      }
    }

    /**
     One read by the TLS connection into room for `room` bytes. `net` is what the socket would give now,
     `err` whether it reports an error with it.
     */
    method Read(room: nat, net: bytes, err: bool) returns (out: bytes, failed: bool)
      requires Valid() && |net| <= room
      modifies this, hdr
      ensures Valid() && delivered == old(delivered) + out && |out| <= room
      ensures aligned == old(aligned) && switched == old(switched)
      ensures old(switched) ==> out == [] && failed
      ensures received == if old(switched) || old(buf) != [] || old(readErr) then old(received) else old(received) + net
      ensures !switched && (old(buf) != [] || !old(readErr)) && (old(buf) == [] ==> net != []) && room > 0 ==> out != []
      ensures aligned ==> forall i :: 0 < i < |out| ==> !Parse(START, old(delivered) + out[..i]).AtBoundary()
    {
      hide Parse;
      out, failed := [], false;
      assert delivered + [] == delivered;
      if switched {
        failed := true;
      } else if buf != [] {
        out := Deliver(room);
      } else if readErr {
        failed := true;
      } else if !aligned {
        assert delivered + [] + net == delivered + net + [];
        received, delivered := received + net, delivered + net;
        out, failed := net, err;
      } else if net == [] {
        assert received + net == received;
        failed := err;
      } else {
        out, failed := ReadAligned(net, err);
      }
    }

    /** Record boundaries no longer matter. */
    method Passthrough()
      requires Valid()
      modifies this`aligned
      ensures Valid() && !aligned
    {
      aligned := false;
    }

    /** Stops the TLS connection from reading and returns what it was never given. */
    method SwitchDirect() returns (out: bytes)
      requires Valid()
      modifies this`switched, this`buf
      ensures Valid() && switched
      ensures !old(switched) ==> delivered + out == received
    {
      switched := true;
      out, buf := buf, [];
    }
  }
}
