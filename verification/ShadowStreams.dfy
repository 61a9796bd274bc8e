/**
 Shadowsocks streams: blocks of an encrypted length and an encrypted payload under counter nonces.
 */
module ShadowStreams {
  import opened Wire
  import opened Aead
  import opened BlockStream

  const CHUNK_LIMIT := 16 * 1024 - 1
  const WRAP := 0x1_0000_0000_0000_0000

  // ------------------------------------------------------------------ counter nonces

  /** The n lowest bytes of v, least significant first. */
  function LeBytes(n: nat, v: nat): (b: bytes)
    ensures |b| == n
  {
    if n == 0 then [] else [v % 256] + LeBytes(n - 1, v / 256)
  }

  function LeValue(b: bytes): nat {
    if b == [] then 0 else b[0] + 256 * LeValue(b[1..])
  }

  function Power256(n: nat): nat { if n == 0 then 1 else 256 * Power256(n - 1) }

  lemma {:induction false} LeRoundTrip(n: nat, v: nat)
    requires v < Power256(n)
    ensures LeValue(LeBytes(n, v)) == v
  {
    if n > 0 {
      LeRoundTrip(n - 1, v / 256);
      assert LeBytes(n, v)[1..] == LeBytes(n - 1, v / 256);
    }
  }

  lemma {:induction false} LeZero(n: nat)
    ensures LeBytes(n, 0) == seq(n, _ => 0)
  {
    if n > 0 {
      LeZero(n - 1);
    }
  }

  function Nonce(counter: nat): bytes { LeBytes(12, counter) }

  /** Byte i of a number, counting from the least significant. */
  function ByteAt(v: nat, i: nat): nat { if i == 0 then v % 256 else ByteAt(v / 256, i - 1) }

  /** Byte i of the nonce is byte i of the counter. */
  lemma {:induction false} NonceBytes(n: nat, v: nat, i: nat)
    requires i < n
    ensures LeBytes(n, v)[i] == ByteAt(v, i)
  {
    if i > 0 {
      NonceBytes(n - 1, v / 256, i - 1);
    }
  }

  /** Two different 64-bit counters never give the same nonce. */
  lemma {:induction false} NoncesDiffer(i: nat, j: nat)
    requires i < WRAP && j < WRAP && i != j
    ensures Nonce(i) != Nonce(j)
  {
    assert Power256(12) > WRAP by {
      assert Power256(4) == 0x1_0000_0000;
      assert Power256(8) == WRAP;
    }
    LeRoundTrip(12, i);
    LeRoundTrip(12, j);
  }

  /** Writes a counter into a nonce buffer, stopping at its highest byte. */
  method FillNonce(nonce: array<byte>, value: nat)
    requires nonce.Length == 12
    modifies nonce
    ensures nonce[..] == Nonce(value)
  {
    for i := 0 to 12
      invariant forall k :: 0 <= k < i ==> nonce[k] == 0
    {
      nonce[i] := 0;
    }
    var v, i := value, 0;
    while i < 12 && v != 0
      invariant 0 <= i <= 12
      invariant nonce[..i] + LeBytes(12 - i, v) == Nonce(value)
      invariant forall k :: i <= k < 12 ==> nonce[k] == 0
      decreases 12 - i
    {
      ghost var done := nonce[..i];
      nonce[i] := v % 256;
      assert nonce[..i + 1] == done + [v % 256];
      Assoc(done, [v % 256], LeBytes(12 - i - 1, v / 256));
      v, i := v / 256, i + 1;
    }
    if i < 12 {
      LeZero(12 - i);
      assert nonce[..] == nonce[..i] + nonce[i..] && nonce[i..] == LeBytes(12 - i, 0);
    } else {
      assert nonce[..] == nonce[..12] + [];
    }
  }

  // ------------------------------------------------------------------ blocks

  /** A 64-bit counter. */
  function Inc(counter: nat): nat { if counter + 1 >= WRAP then 0 else counter + 1 }

  function EncodeBlock(c: Cipher, k: nat, plain: bytes): bytes
    requires |plain| < 0x1_0000
  {
    c.seal(Nonce(k), Be16(|plain|)) + c.seal(Nonce(Inc(k)), plain)
  }

  predicate BlockSized(cs: seq<bytes>, limit: nat) { forall i :: 0 <= i < |cs| ==> 0 < |cs[i]| <= limit }

  function EncodeBlocks(c: Cipher, k: nat, cs: seq<bytes>): (b: bytes)
    requires BlockSized(cs, CHUNK_LIMIT)
    decreases |cs|
  {
    if cs == [] then [] else EncodeBlock(c, k, cs[0]) + EncodeBlocks(c, Inc(Inc(k)), cs[1..])
  }

  /** Takes one block off a connection; `most` is the longest payload accepted. */
  function DecodeBlock(c: Cipher, most: nat, k: nat, s: bytes): Decoded<nat> {
    if s == [] then End
    else if |s| < 2 + TAG then Broken
    else
      var head := c.open(Nonce(k), s[..2 + TAG]);
      if head.None? || |head.value| != 2 then Broken
      else
        var length := FromBe16(head.value[0], head.value[1]);
        var end := 2 + TAG + length + TAG;
        if length == 0 || length > most || |s| < end then Broken
        else
          var plain := c.open(Nonce(Inc(k)), s[2 + TAG..end]);
          if plain.None? then Broken else Block(plain.value, Inc(Inc(k)), s[end..])
  }

  function Decode(c: Cipher, most: nat): Decoder<nat> { (k: nat, s: bytes) => DecodeBlock(c, most, k, s) }

  lemma {:induction false} DecodeConsumes(c: Cipher, most: nat)
    requires c.Good()
    ensures Consumes(Decode(c, most))
  {
  }

  lemma {:induction false} DecodeUndoesEncode(c: Cipher, most: nat, k: nat, plain: bytes, rest: bytes)
    requires c.Good() && 0 < |plain| <= most && |plain| < 0x1_0000
    ensures DecodeBlock(c, most, k, EncodeBlock(c, k, plain) + rest) == Block(plain, Inc(Inc(k)), rest)
  {
    var head, body := c.seal(Nonce(k), Be16(|plain|)), c.seal(Nonce(Inc(k)), plain);
    var s := EncodeBlock(c, k, plain) + rest;
    Be16RoundTrip(|plain|);
    assert s[..2 + TAG] == head;
    assert s[2 + TAG..2 + TAG + |body|] == body;
    assert s[2 + TAG + |body|..] == rest;
  }

  lemma {:induction false} DrainEncoded(c: Cipher, most: nat, k: nat, cs: seq<bytes>)
    requires c.Good() && BlockSized(cs, CHUNK_LIMIT) && CHUNK_LIMIT <= most
    ensures Consumes(Decode(c, most)) && Drain(Decode(c, most), k, EncodeBlocks(c, k, cs)) == (Concat(cs), true)
    decreases |cs|
  {
    DecodeConsumes(c, most);
    if cs != [] {
      var rest := EncodeBlocks(c, Inc(Inc(k)), cs[1..]);
      DecodeUndoesEncode(c, most, k, cs[0], rest);
      DrainEncoded(c, most, Inc(Inc(k)), cs[1..]);
    }
  }

  /** The counter n blocks later. */
  function After(k: nat, n: nat): nat
    decreases n
  {
    if n == 0 then k else After(Inc(Inc(k)), n - 1)
  }

  /** A block takes two counters; the counters of a stream are consecutive until they wrap around. */
  lemma {:induction false} AfterIsConsecutive(k: nat, n: nat)
    requires k + 2 * n < WRAP
    ensures After(k, n) == k + 2 * n
    decreases n
  {
    if n > 0 {
      AfterIsConsecutive(k + 2, n - 1);
    }
  }

  /** So all the nonces of the first 2^63 blocks of one direction differ. */
  lemma {:induction false} BlocksUseFreshNonces(i: nat, j: nat)
    requires i < j && 2 * j + 1 < WRAP
    ensures var a, b := After(0, i), After(0, j);
            && Nonce(a) != Nonce(Inc(a)) && Nonce(a) != Nonce(b) && Nonce(a) != Nonce(Inc(b))
            && Nonce(Inc(a)) != Nonce(b) && Nonce(Inc(a)) != Nonce(Inc(b))
  {
    AfterIsConsecutive(0, i);
    AfterIsConsecutive(0, j);
    var a, b := After(0, i), After(0, j);
    hide LeBytes, After;
    NoncesDiffer(a, Inc(a));
    NoncesDiffer(a, b);
    NoncesDiffer(a, Inc(b));
    NoncesDiffer(Inc(a), b);
    NoncesDiffer(Inc(a), Inc(b));
  }

  /** The i-th block of a stream: its length sealed under counter 2i, its content under the next. */
  lemma {:induction false} BlockLayout(c: Cipher, i: nat, plain: bytes)
    requires c.Good() && |plain| < 0x1_0000 && 2 * i + 1 < WRAP
    ensures var w := EncodeBlock(c, After(0, i), plain);
            && |w| == |plain| + 34
            && c.open(LeBytes(12, 2 * i), w[..18]) == Some([|plain| / 256, |plain| % 256])
            && c.open(LeBytes(12, 2 * i + 1), w[18..]) == Some(plain)
  {
    AfterIsConsecutive(0, i);
    var head, body := c.seal(Nonce(2 * i), Be16(|plain|)), c.seal(Nonce(2 * i + 1), plain);
    var w := EncodeBlock(c, After(0, i), plain);
    assert w == head + body && w[..18] == head && w[18..] == body;
  }

  /** A block cut short is an error, never an end or other data. */
  lemma {:induction false} TruncatedIsBroken(c: Cipher, most: nat, k: nat, plain: bytes, n: nat)
    requires c.Good() && 0 < |plain| <= most && |plain| < 0x1_0000 && 0 < n < |EncodeBlock(c, k, plain)|
    ensures DecodeBlock(c, most, k, EncodeBlock(c, k, plain)[..n]) == Broken
  {
    var head := c.seal(Nonce(k), Be16(|plain|));
    var s := EncodeBlock(c, k, plain)[..n];
    Be16RoundTrip(|plain|);
    assert n >= 18 ==> s[..2 + TAG] == head;
  }

  lemma {:induction false} EncodeAppend(c: Cipher, k: nat, a: seq<bytes>, b: seq<bytes>)
    requires BlockSized(a, CHUNK_LIMIT) && BlockSized(b, CHUNK_LIMIT)
    ensures BlockSized(a + b, CHUNK_LIMIT)
    ensures EncodeBlocks(c, k, a + b) == EncodeBlocks(c, k, a) + EncodeBlocks(c, After(k, |a|), b)
    decreases |a|
  {
    hide EncodeBlock, Inc;
    if a == [] {
      assert a + b == b;
      assert [] + EncodeBlocks(c, k, b) == EncodeBlocks(c, k, b);
    } else {
      var next := Inc(Inc(k));
      var head := EncodeBlock(c, k, a[0]);
      EncodeAppend(c, next, a[1..], b);
      assert (a + b)[1..] == a[1..] + b && (a + b)[0] == a[0];
      assert EncodeBlocks(c, k, a + b) == head + EncodeBlocks(c, next, a[1..] + b);
      assert EncodeBlocks(c, k, a) == head + EncodeBlocks(c, next, a[1..]);
      assert After(k, |a|) == After(next, |a[1..]|);
      hide EncodeBlocks, After;
      Assoc(head, EncodeBlocks(c, next, a[1..]), EncodeBlocks(c, After(k, |a|), b));
    }
  }

  /** Everything a writer sends for a sequence of writes. */
  function Output(c: Cipher, k: nat, writes: seq<bytes>): bytes
    decreases |writes|
  {
    if writes == [] then []
    else
      var cs := Split(writes[0], CHUNK_LIMIT);
      EncodeBlocks(c, k, cs) + Output(c, After(k, |cs|), writes[1..])
  }

  lemma {:induction false} OutputIsBlocks(c: Cipher, k: nat, writes: seq<bytes>)
    ensures Output(c, k, writes) == EncodeBlocks(c, k, AllChunks(writes, CHUNK_LIMIT))
    decreases |writes|
  {
    if writes != [] {
      var cs := Split(writes[0], CHUNK_LIMIT);
      OutputIsBlocks(c, After(k, |cs|), writes[1..]);
      EncodeAppend(c, k, cs, AllChunks(writes[1..], CHUNK_LIMIT));
    }
  }

  /** Shadowsocks round trip, for every partition into writes and every sequence of read sizes. */
  lemma {:induction false} ShadowsocksRoundTrip(c: Cipher, writes: seq<bytes>, rooms: seq<nat>)
    requires c.Good() && (forall i :: 0 <= i < |rooms| ==> rooms[i] > 0) && |rooms| > |Concat(writes)|
    ensures ReadMany(Decode(c, CHUNK_LIMIT), Reader(0, [], false, Output(c, 0, writes)), rooms) == (Concat(writes), Eof)
  {
    var cs := AllChunks(writes, CHUNK_LIMIT);
    OutputIsBlocks(c, 0, writes);
    AllChunksLoseNothing(writes, CHUNK_LIMIT);
    DrainEncoded(c, CHUNK_LIMIT, 0, cs);
    hide EncodeBlocks, Output, Drain, ReadMany, Consumes, Concat, AllChunks;
    ReadsAll(Decode(c, CHUNK_LIMIT), 0, Output(c, 0, writes), Concat(writes), rooms);
  }

  // ------------------------------------------------------------------ the stream itself

  class SsStream {
    const aead: Cipher
    const writeAEAD: Cipher
    const most: nat
    const inPlace: bool
    var conn: bytes
    var readNonce: nat
    var pending: bytes
    var done: bool
    var writeNonce: nat
    const nonce: array<byte>

    ghost predicate Valid()
      reads this
    {
      aead.Good() && writeAEAD.Good() && nonce.Length == 12
    }

    ghost function Model(): Reader<nat>
      reads this
    {
      Reader(readNonce, pending, done, conn)
    }

    constructor (aead: Cipher, writeAEAD: Cipher, most: nat, inPlace: bool, conn: bytes)
      requires aead.Good() && writeAEAD.Good()
      ensures Valid() && fresh(nonce) && this.aead == aead && this.writeAEAD == writeAEAD && this.most == most
      ensures Model() == Reader(0, [], false, conn) && writeNonce == 0
    {
      this.aead, this.writeAEAD, this.most, this.inPlace, this.conn := aead, writeAEAD, most, inPlace, conn;
      readNonce, writeNonce, pending, done := 0, 0, [], false;
      nonce := new byte[12];
    }

    /** Takes one block off the connection. */
    method NextBlock() returns (d: Decoded<nat>, frameLen: nat)
      requires Valid()
      modifies this`conn, this`readNonce, nonce
      ensures d == DecodeBlock(aead, most, old(readNonce), old(conn))
      ensures d.Block? ==> conn == d.rest && readNonce == d.next && |d.plain| <= frameLen
    {
      frameLen := 0;
      if |conn| < 2 + TAG {
        return if conn == [] then End else Broken, 0;
      }
      ghost var k := readNonce;
      FillNonce(nonce, readNonce);
      var head := aead.open(nonce[..], conn[..2 + TAG]);
      readNonce := Inc(readNonce);
      if head.None? || |head.value| != 2 {
        return Broken, 0;
      }
      var length := FromBe16(head.value[0], head.value[1]);
      frameLen := length + TAG;
      var end := 2 + TAG + frameLen;
      if length == 0 || length > most || |conn| < end {
        return Broken, 0;
      }
      FillNonce(nonce, readNonce);
      var plain := aead.open(nonce[..], conn[2 + TAG..end]);
      readNonce := Inc(readNonce);
      if plain.None? {
        return Broken, frameLen;
      }
      conn := conn[end..];
      d := Block(plain.value, readNonce, conn);
    }

    /** The classic stream decrypts in place when the caller's buffer holds the whole block; both ways agree. */
    method Read(room: nat) returns (out: bytes, status: Status)
      requires Valid()
      modifies this, nonce
      ensures Valid() && writeNonce == old(writeNonce)
      ensures var (r, o, s) := BlockStream.Read(Decode(aead, most), old(Model()), room);
              status == s && out == o && (status == Ok ==> Model() == r)
      ensures status == Eof ==> done && pending == []
    {
      hide DecodeBlock;
      out := [];
      if pending != [] {
        var n := Min(room, |pending|);
        out, pending := pending[..n], pending[n..];
        return out, Ok;
      }
      if done {
        return out, Eof;
      }
      var d, frameLen := NextBlock();
      if d.End? {
        done := true;
        return out, Eof;
      }
      if d.Broken? {
        return out, Failed;
      }
      status := Ok;
      if inPlace && room >= frameLen {
        out := d.plain;
        assert d.plain[|d.plain|..] == [];
      } else {
        var n := Min(room, |d.plain|);
        out, pending := d.plain[..n], d.plain[n..];
      }
    }

    method Write(data: bytes) returns (out: bytes)
      requires Valid()
      modifies this`writeNonce, nonce
      ensures out == EncodeBlocks(writeAEAD, old(writeNonce), Split(data, CHUNK_LIMIT))
      ensures writeNonce == After(old(writeNonce), |Split(data, CHUNK_LIMIT)|)
    {
      var rest := data;
      ghost var k, all := writeNonce, Split(data, CHUNK_LIMIT);
      out := [];
      assert out + EncodeBlocks(writeAEAD, k, all) == EncodeBlocks(writeAEAD, k, all);
      while rest != []
        invariant out + EncodeBlocks(writeAEAD, writeNonce, Split(rest, CHUNK_LIMIT)) == EncodeBlocks(writeAEAD, k, all)
        invariant After(writeNonce, |Split(rest, CHUNK_LIMIT)|) == After(k, |all|)
        decreases |rest|
      {
        var chunk := rest[..Min(|rest|, CHUNK_LIMIT)];
        EncodeStep(writeAEAD, writeNonce, rest);
        hide EncodeBlocks, After, Split, LeBytes;
        ghost var before := writeNonce;
        FillNonce(nonce, writeNonce);
        var head := writeAEAD.seal(nonce[..], Be16(|chunk|));
        writeNonce := Inc(writeNonce);
        FillNonce(nonce, writeNonce);
        var body := writeAEAD.seal(nonce[..], chunk);
        writeNonce := Inc(writeNonce);
        Assoc(out, head + body, EncodeBlocks(writeAEAD, writeNonce, Split(rest[|chunk|..], CHUNK_LIMIT)));
        out, rest := out + (head + body), rest[|chunk|..];
      }
      assert out + [] == out;
    }
  }

  lemma {:induction false} EncodeStep(c: Cipher, k: nat, rest: bytes)
    requires rest != []
    ensures var n := Min(|rest|, CHUNK_LIMIT);
            && EncodeBlocks(c, k, Split(rest, CHUNK_LIMIT)) ==
               EncodeBlock(c, k, rest[..n]) + EncodeBlocks(c, Inc(Inc(k)), Split(rest[n..], CHUNK_LIMIT))
            && After(k, |Split(rest, CHUNK_LIMIT)|) == After(Inc(Inc(k)), |Split(rest[n..], CHUNK_LIMIT)|)
  {
    var n := Min(|rest|, CHUNK_LIMIT);
    assert Split(rest, CHUNK_LIMIT)[1..] == Split(rest[n..], CHUNK_LIMIT);
  }
}
