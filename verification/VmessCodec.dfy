/**
 The VMess chunk codec: length-prefixed chunks, optionally encrypted, with lengths masked and
 padding lengths drawn from one SHAKE stream that both ends must consume in step.
 */
module VmessCodec {
  import opened Wire
  import opened Aead
  import opened BlockStream

  const STREAM_CHUNK := 15000
  const MAX_PADDING := 64
  const PACKET_CHUNK := 65535 - TAG - MAX_PADDING

  // ------------------------------------------------------------------ 16-bit masks

  /** Exclusive or of the lowest n bits. */
  function Xor(n: nat, a: nat, b: nat): (c: nat) {
    if n == 0 then 0 else 2 * Xor(n - 1, a / 2, b / 2) + (if a % 2 == b % 2 then 0 else 1)
  }

  function Power2(n: nat): nat { if n == 0 then 1 else 2 * Power2(n - 1) }

  /** Masking twice with the same word restores a length; with nothing, changes nothing. */
  lemma {:induction false} XorTwice(n: nat, a: nat, m: nat)
    requires a < Power2(n)
    ensures Xor(n, a, m) < Power2(n) && Xor(n, Xor(n, a, m), m) == a && Xor(n, a, 0) == a
  {
    if n > 0 {
      XorTwice(n - 1, a / 2, m / 2);
      var bit: nat := if a % 2 == m % 2 then 0 else 1;
      Halves(Xor(n - 1, a / 2, m / 2), bit);
      Halves(a / 2, a % 2);
    }
  }

  lemma {:induction false} Halves(x: nat, bit: nat)
    requires bit < 2
    ensures (2 * x + bit) / 2 == x && (2 * x + bit) % 2 == bit
  {
  }

  function Xor16(a: u16, b: u16): (c: u16) {
    assert Power2(16) == 0x1_0000 by { assert Power2(8) == 256; }
    XorTwice(16, a, b);
    Xor(16, a, b)
  }

  lemma {:induction false} Xor16Twice(a: u16, m: u16)
    ensures Xor16(Xor16(a, m), m) == a
  {
    assert Power2(16) == 0x1_0000 by { assert Power2(8) == 256; }
    XorTwice(16, a, m);
  }

  /** Bit i of a number. */
  function Bit(a: nat, i: nat): nat { if i == 0 then a % 2 else Bit(a / 2, i - 1) }

  /** A masked length differs from the length in exactly the bits the mask has. */
  lemma {:induction false} XorBits(n: nat, a: nat, b: nat, i: nat)
    requires i < n
    ensures Bit(Xor(n, a, b), i) == if Bit(a, i) == Bit(b, i) then 0 else 1
  {
    Halves(Xor(n - 1, a / 2, b / 2), if a % 2 == b % 2 then 0 else 1);
    if i > 0 {
      XorBits(n - 1, a / 2, b / 2, i - 1);
    }
  }

  // ------------------------------------------------------------------ the wire format

  /**
   What both ends agree on. `shake` is the SHAKE-128 output in 16-bit steps; `filler` the random bytes
   a writer pads with, which no reader looks at.
   */
  datatype Params = Params(cipher: Option<Cipher>, masked: bool, padded: bool, packet: bool,
                           nonce: bytes, shake: nat -> u16, filler: (nat, nat) -> byte)
  {
    ghost predicate Valid() {
      |nonce| == 12 && (padded ==> masked && (cipher.Some? || packet)) && (cipher.Some? ==> cipher.value.Good())
    }

    function Overhead(): nat { if cipher.Some? then TAG else 0 }

    function Limit(): nat { if packet then PACKET_CHUNK else STREAM_CHUNK }
  }

  /** How far an end has come: chunks sealed (a 16-bit counter) and SHAKE words consumed. */
  datatype Turn = Turn(count: nat, words: nat)

  /** Padding is drawn first, then the mask. */
  function PadLength(p: Params, t: Turn): (n: nat)
    ensures n < MAX_PADDING
  {
    if p.padded then p.shake(t.words) % MAX_PADDING else 0
  }

  function AfterPadding(p: Params, t: Turn): nat { if p.padded then t.words + 1 else t.words }

  function Mask(p: Params, t: Turn): u16 { if p.masked then p.shake(AfterPadding(p, t)) else 0 }

  function NextTurn(p: Params, t: Turn): Turn {
    Turn(if p.cipher.Some? then (t.count + 1) % 0x1_0000 else t.count,
         if p.masked then AfterPadding(p, t) + 1 else AfterPadding(p, t))
  }

  function Nonce(p: Params, t: Turn): bytes
    requires |p.nonce| == 12
  {
    Be16(t.count % 0x1_0000) + p.nonce[2..]
  }

  function Sealed(p: Params, t: Turn, plain: bytes): bytes
    requires |p.nonce| == 12
  {
    if p.cipher.Some? then p.cipher.value.seal(Nonce(p, t), plain) else plain
  }

  function Filler(p: Params, t: Turn): (b: bytes)
    ensures |b| == PadLength(p, t)
  {
    seq(PadLength(p, t), i requires 0 <= i => p.filler(t.words, i))
  }

  /** A chunk that one length field can announce. */
  ghost predicate Fits(p: Params, plain: bytes) { |plain| <= PACKET_CHUNK }

  lemma {:induction false} SealedLength(p: Params, t: Turn, plain: bytes)
    requires p.Valid()
    ensures |Sealed(p, t, plain)| == |plain| + p.Overhead()
  {
  }

  /** No data chunk's length overflows its field, or looks like the empty chunk that ends the stream. */
  lemma {:induction false} LengthFits(p: Params, t: Turn, plain: bytes)
    requires p.Valid() && Fits(p, plain)
    ensures var n := |Sealed(p, t, plain)| + PadLength(p, t);
            n < 0x1_0000 && (n == p.Overhead() + PadLength(p, t) <==> plain == [])
  {
    SealedLength(p, t, plain);
  }

  function EncodeChunk(p: Params, t: Turn, plain: bytes): bytes
    requires |p.nonce| == 12 && |Sealed(p, t, plain)| + PadLength(p, t) < 0x1_0000
  {
    Be16(Xor16(|Sealed(p, t, plain)| + PadLength(p, t), Mask(p, t))) + Sealed(p, t, plain) + Filler(p, t)
  }

  ghost predicate AllFit(p: Params, cs: seq<bytes>) { forall i :: 0 <= i < |cs| ==> Fits(p, cs[i]) }

  function Turns(p: Params, t: Turn, n: nat): Turn
    decreases n
  {
    if n == 0 then t else Turns(p, NextTurn(p, t), n - 1)
  }

  /** What has been drawn and counted when n chunks have gone. */
  lemma {:induction false} TurnsAt(p: Params, t: Turn, n: nat)
    requires t.count < 0x1_0000
    ensures var u := Turns(p, t, n);
            && u.count == (if p.cipher.Some? then (t.count + n) % 0x1_0000 else t.count)
            && u.words == t.words + (if p.padded then n else 0) + (if p.masked then n else 0)
    decreases n
  {
    if n == 0 {
      ModSmall(t.count);
    } else {
      ModStep(t.count, n - 1);
      TurnsAt(p, NextTurn(p, t), n - 1);
    }
  }

  lemma {:induction false} ModSmall(c: nat)
    requires c < 0x1_0000
    ensures c % 0x1_0000 == c
  {
  }

  /** Counting on from a counter that may have wrapped around. */
  lemma {:induction false} ModStep(c: nat, k: nat)
    requires c < 0x1_0000
    ensures ((c + 1) % 0x1_0000 + k) % 0x1_0000 == (c + 1 + k) % 0x1_0000 && (c + 1) % 0x1_0000 < 0x1_0000
  {
  }

  lemma {:induction false} ModDiffers(i: nat, j: nat)
    requires i < j < i + 0x1_0000
    ensures i % 0x1_0000 != j % 0x1_0000
  {
    var a, b := i / 0x1_0000, j / 0x1_0000;
    assert i == 0x1_0000 * a + i % 0x1_0000 && j == 0x1_0000 * b + j % 0x1_0000;
  }

  /**
   The i-th chunk of a stream on the wire: the length, masked with the word drawn after the one that gives the padding
   length; the text, sealed under the counter i in the first two bytes of the nonce; the padding.
   */
  lemma {:induction false} ChunkLayout(p: Params, i: nat, plain: bytes)
    requires p.Valid() && Fits(p, plain)
    ensures var t := Turns(p, Turn(0, 0), i);
            && |Sealed(p, t, plain)| + PadLength(p, t) < 0x1_0000
            && var w := EncodeChunk(p, t, plain);
               var pad := if p.padded then p.shake(2 * i) % 64 else 0;
               var mask: u16 := if p.masked then p.shake(if p.padded then 2 * i + 1 else i) else 0;
               var body := if p.cipher.Some? then p.cipher.value.seal([i / 256 % 256, i % 256] + p.nonce[2..], plain) else plain;
               && |w| == 2 + |body| + pad && w[2..2 + |body|] == body && |body| + pad < 0x1_0000
               && 256 * (w[0] as int) + (w[1] as int) == Xor16(|body| + pad, mask)
  {
    hide Xor16, Mask, PadLength, Nonce, Turns, EncodeChunk;
    var t := Turns(p, Turn(0, 0), i);
    DrawnAt(p, i);
    LengthFits(p, t, plain);
    ChunkBytes(p, t, plain);
  }

  lemma {:induction false} DrawnAt(p: Params, i: nat)
    requires p.Valid()
    ensures var t := Turns(p, Turn(0, 0), i);
            && PadLength(p, t) == (if p.padded then p.shake(2 * i) % 64 else 0)
            && Mask(p, t) == (if p.masked then p.shake(if p.padded then 2 * i + 1 else i) else 0)
            && (p.cipher.Some? ==> Nonce(p, t) == [i / 256 % 256, i % 256] + p.nonce[2..])
  {
    TurnsAt(p, Turn(0, 0), i);
    CounterBytes(i);
    hide Turns;
    if p.cipher.Some? {
      ModSmall(i % 0x1_0000);
    }
  }

  lemma {:induction false} ChunkBytes(p: Params, t: Turn, plain: bytes)
    requires |p.nonce| == 12 && |Sealed(p, t, plain)| + PadLength(p, t) < 0x1_0000
    ensures var w, body := EncodeChunk(p, t, plain), Sealed(p, t, plain);
            && |w| == 2 + |body| + PadLength(p, t) && w[2..2 + |body|] == body
            && 256 * (w[0] as int) + (w[1] as int) == Xor16(|body| + PadLength(p, t), Mask(p, t))
  {
    hide Xor16, Mask, PadLength, Sealed;
    var w, body := EncodeChunk(p, t, plain), Sealed(p, t, plain);
    assert w[2..2 + |body|] == body;
  }

  lemma {:induction false} CounterBytes(i: nat)
    ensures Be16(i % 0x1_0000) == [i / 256 % 256, i % 256]
  {
    var q, r := i / 0x1_0000, i % 0x1_0000;
    assert i == 256 * (256 * q + r / 256) + r % 256;
    assert i / 256 == 256 * q + r / 256;
  }

  /** No nonce comes again within 2^16 chunks. */
  lemma {:induction false} NoncesDiffer(p: Params, i: nat, j: nat)
    requires p.Valid() && p.cipher.Some? && i < j < i + 0x1_0000
    ensures Nonce(p, Turns(p, Turn(0, 0), i)) != Nonce(p, Turns(p, Turn(0, 0), j))
  {
    hide Turns, Nonce, Be16;
    TurnsAt(p, Turn(0, 0), i);
    TurnsAt(p, Turn(0, 0), j);
    var a, b := Turns(p, Turn(0, 0), i), Turns(p, Turn(0, 0), j);
    ModDiffers(i, j);
    NonceStarts(p, a);
    NonceStarts(p, b);
    Be16Differ(i % 0x1_0000, j % 0x1_0000);
  }

  lemma {:induction false} NonceStarts(p: Params, t: Turn)
    requires |p.nonce| == 12 && t.count < 0x1_0000
    ensures |Nonce(p, t)| == 12 && Nonce(p, t)[..2] == Be16(t.count)
  {
    ModSmall(t.count);
  }

  lemma {:induction false} Be16Differ(m: u16, n: u16)
    requires m != n
    ensures Be16(m) != Be16(n)
  {
    hide Be16;
  }

  ghost function Encode(p: Params, t: Turn, cs: seq<bytes>): (b: bytes)
    requires p.Valid() && AllFit(p, cs)
    decreases |cs|
  {
    if cs == [] then []
    else
      LengthFits(p, t, cs[0]);
      EncodeChunk(p, t, cs[0]) + Encode(p, NextTurn(p, t), cs[1..])
  }

  // ------------------------------------------------------------------ decoding

  /** Takes one chunk off a connection; an empty chunk, or nothing at all, is the end. */
  function DecodeChunk(p: Params, t: Turn, s: bytes): Decoded<Turn> {
    if s == [] then End
    else if |s| < 2 || |p.nonce| != 12 then Broken
    else
      var length := Xor16(FromBe16(s[0], s[1]), Mask(p, t));
      var pad := PadLength(p, t);
      if length < p.Overhead() + pad || |s| < 2 + length then Broken
      else if length == p.Overhead() + pad then End
      else
        var text := s[2..2 + length - pad];
        var plain := if p.cipher.Some? then p.cipher.value.open(Nonce(p, t), text) else Some(text);
        if plain.None? then Broken else Block(plain.value, NextTurn(p, t), s[2 + length..])
  }

  function Decode(p: Params): Decoder<Turn> { (t: Turn, s: bytes) => DecodeChunk(p, t, s) }

  lemma {:induction false} DecodeConsumes(p: Params)
    requires p.Valid()
    ensures Consumes(Decode(p))
  {
  }

  /** Decoding a chunk undoes encoding it, whatever follows. */
  lemma {:induction false} DecodeUndoesEncode(p: Params, t: Turn, plain: bytes, rest: bytes)
    requires p.Valid() && Fits(p, plain)
    ensures |Sealed(p, t, plain)| + PadLength(p, t) < 0x1_0000
    ensures DecodeChunk(p, t, EncodeChunk(p, t, plain) + rest) ==
            if plain == [] then End else Block(plain, NextTurn(p, t), rest)
  {
    hide Xor16, Mask, PadLength, NextTurn;
    LengthFits(p, t, plain);
    var body, pad := Sealed(p, t, plain), PadLength(p, t);
    var n := |body| + pad;
    var s := EncodeChunk(p, t, plain) + rest;
    Be16RoundTrip(Xor16(n, Mask(p, t)));
    Xor16Twice(n, Mask(p, t));
    assert s[0] == Be16(Xor16(n, Mask(p, t)))[0] && s[1] == Be16(Xor16(n, Mask(p, t)))[1];
    assert s[2..2 + n - pad] == body;
    assert s[2 + n..] == rest;
  }

  /** A chunk cut short is an error, never an end or other data. */
  lemma {:induction false} TruncatedIsBroken(p: Params, t: Turn, plain: bytes, n: nat)
    requires p.Valid() && Fits(p, plain)
    ensures |Sealed(p, t, plain)| + PadLength(p, t) < 0x1_0000
    ensures 0 < n < |EncodeChunk(p, t, plain)| ==> DecodeChunk(p, t, EncodeChunk(p, t, plain)[..n]) == Broken
  {
    hide Xor16, Mask, PadLength, NextTurn;
    LengthFits(p, t, plain);
    var length := |Sealed(p, t, plain)| + PadLength(p, t);
    var w := EncodeChunk(p, t, plain);
    Be16RoundTrip(Xor16(length, Mask(p, t)));
    Xor16Twice(length, Mask(p, t));
    assert w[0] == Be16(Xor16(length, Mask(p, t)))[0] && w[1] == Be16(Xor16(length, Mask(p, t)))[1];
  }

  // ------------------------------------------------------------------ writing

  lemma {:induction false} EncodeAppend(p: Params, t: Turn, a: seq<bytes>, b: seq<bytes>)
    requires p.Valid() && AllFit(p, a) && AllFit(p, b)
    ensures AllFit(p, a + b)
    ensures Encode(p, t, a + b) == Encode(p, t, a) + Encode(p, Turns(p, t, |a|), b)
    ensures Turns(p, t, |a| + |b|) == Turns(p, Turns(p, t, |a|), |b|)
    decreases |a|
  {
    hide EncodeChunk, Sealed, NextTurn, PadLength, Fits;
    if a == [] {
      assert a + b == b;
    } else {
      var next := NextTurn(p, t);
      LengthFits(p, t, a[0]);
      var head := EncodeChunk(p, t, a[0]);
      EncodeAppend(p, next, a[1..], b);
      assert (a + b)[1..] == a[1..] + b && (a + b)[0] == a[0];
      assert Encode(p, t, a + b) == head + Encode(p, next, a[1..] + b);
      assert Encode(p, t, a) == head + Encode(p, next, a[1..]);
      assert Turns(p, t, |a|) == Turns(p, next, |a| - 1) && Turns(p, t, |a| + |b|) == Turns(p, next, |a| - 1 + |b|);
      hide Encode, Turns;
      Assoc(head, Encode(p, next, a[1..]), Encode(p, Turns(p, t, |a|), b));
    }
  }

  class ChunkWriter {
    const p: Params
    var count: nat
    var words: nat

    constructor (p: Params)
      ensures this.p == p && At() == Turn(0, 0)
    {
      this.p := p;
      count, words := 0, 0;
    }

    function At(): Turn
      reads this
    {
      Turn(count, words)
    }

    /** Draws the padding length, then the mask, and seals one chunk. */
    method WriteChunk(plain: bytes) returns (out: bytes)
      requires p.Valid() && Fits(p, plain)
      modifies this
      ensures |Sealed(p, old(At()), plain)| + PadLength(p, old(At())) < 0x1_0000
      ensures out == EncodeChunk(p, old(At()), plain) && At() == NextTurn(p, old(At()))
    {
      ghost var t := At();
      LengthFits(p, t, plain);
      var body := plain;
      if p.cipher.Some? {
        body := p.cipher.value.seal(Be16(count % 0x1_0000) + p.nonce[2..], plain);
        count := (count + 1) % 0x1_0000;
      }
      var pad, drawn := 0, words;
      if p.padded {
        pad := p.shake(words) % MAX_PADDING;
        words := words + 1;
      }
      var length: u16 := |body| + pad;
      Xor16None(length);
      if p.masked {
        length := Xor16(length, p.shake(words));
        words := words + 1;
      }
      out := Be16(length) + body + seq(pad, i requires 0 <= i => p.filler(drawn, i));
      assert out == EncodeChunk(p, t, plain);
    }

    method Write(data: bytes) returns (out: bytes)
      requires p.Valid()
      modifies this
      ensures AllFit(p, Split(data, p.Limit()))
      ensures out == Encode(p, old(At()), Split(data, p.Limit()))
      ensures At() == Turns(p, old(At()), |Split(data, p.Limit())|)
    {
      var rest := data;
      ghost var t, all := At(), Split(data, p.Limit());
      LimitFits(p, data);
      out := [];
      assert out + Encode(p, t, all) == Encode(p, t, all);
      while rest != []
        invariant AllFit(p, Split(rest, p.Limit()))
        invariant out + Encode(p, At(), Split(rest, p.Limit())) == Encode(p, t, all)
        invariant Turns(p, At(), |Split(rest, p.Limit())|) == Turns(p, t, |all|)
        decreases |rest|
      {
        var n := Min(|rest|, p.Limit());
        EncodeStep(p, At(), rest);
        hide Encode, EncodeChunk, Turns, Split;
        var piece := WriteChunk(rest[..n]);
        Assoc(out, piece, Encode(p, At(), Split(rest[n..], p.Limit())));
        out, rest := out + piece, rest[n..];
      }
      assert out + [] == out;
    }
  }

  lemma {:induction false} LimitFits(p: Params, data: bytes)
    ensures AllFit(p, Split(data, p.Limit()))
  {
  }

  lemma {:induction false} EncodeStep(p: Params, t: Turn, rest: bytes)
    requires p.Valid() && rest != []
    ensures var n := Min(|rest|, p.Limit());
            && Fits(p, rest[..n]) && |Sealed(p, t, rest[..n])| + PadLength(p, t) < 0x1_0000
            && AllFit(p, Split(rest, p.Limit())) && AllFit(p, Split(rest[n..], p.Limit()))
            && Encode(p, t, Split(rest, p.Limit())) ==
               EncodeChunk(p, t, rest[..n]) + Encode(p, NextTurn(p, t), Split(rest[n..], p.Limit()))
            && Turns(p, t, |Split(rest, p.Limit())|) == Turns(p, NextTurn(p, t), |Split(rest[n..], p.Limit())|)
  {
    var n := Min(|rest|, p.Limit());
    LengthFits(p, t, rest[..n]);
    assert Split(rest, p.Limit())[1..] == Split(rest[n..], p.Limit());
  }

  lemma {:induction false} Xor16None(a: u16)
    ensures Xor16(a, 0) == a
  {
    assert Power2(16) == 0x1_0000 by { assert Power2(8) == 256; }
    XorTwice(16, a, 0);
  }

  // ------------------------------------------------------------------ reading

  class ChunkReader {
    const p: Params
    var upstream: bytes
    var count: nat
    var words: nat
    var pending: bytes
    var done: bool

    ghost function Model(): Reader<Turn>
      reads this
    {
      Reader(Turn(count, words), pending, done, upstream)
    }

    constructor (p: Params, upstream: bytes)
      ensures this.p == p && Model() == Reader(Turn(0, 0), [], false, upstream)
    {
      this.p, this.upstream := p, upstream;
      count, words, pending, done := 0, 0, [], false;
    }

    /** The length field of the next chunk, unmasked, and its padding: the SHAKE words are drawn in the writer's order. */
    method NextLength(raw: bytes) returns (length: u16, pad: nat)
      requires |raw| == 2
      modifies this`words
      ensures pad == PadLength(p, old(Model().state)) && length == Xor16(FromBe16(raw[0], raw[1]), Mask(p, old(Model().state)))
      ensures Turn(count, words) == NextTurn(p, old(Model().state)).(count := count)
    {
      pad := 0;
      if p.padded {
        pad := p.shake(words) % MAX_PADDING;
        words := words + 1;
      }
      length := FromBe16(raw[0], raw[1]);
      Xor16None(length);
      if p.masked {
        length := Xor16(length, p.shake(words));
        words := words + 1;
      }
    }

    /** The plaintext of a chunk body. */
    method OpenBody(text: bytes, ghost t: Turn) returns (plain: Option<bytes>)
      requires |p.nonce| == 12 && t.count == count
      modifies this`count
      ensures plain == if p.cipher.Some? then p.cipher.value.open(Nonce(p, t), text) else Some(text)
      ensures count == NextTurn(p, t).count
    {
      plain := Some(text);
      if p.cipher.Some? {
        plain := p.cipher.value.open(Be16(count % 0x1_0000) + p.nonce[2..], text);
        count := (count + 1) % 0x1_0000;
      }
    }

    /** Takes one chunk off the connection; `length` is what its length field announced. */
    method NextChunk() returns (d: Decoded<Turn>, length: nat)
      requires p.Valid()
      modifies this`upstream, this`count, this`words
      ensures d == DecodeChunk(p, old(Model().state), old(upstream))
      ensures d.Block? ==> upstream == d.rest && Turn(count, words) == d.next && |d.plain| <= length
    {
      hide Xor16, Mask, PadLength, NextTurn, Nonce;
      length := 0;
      if |upstream| < 2 {
        return if upstream == [] then End else Broken, 0;
      }
      ghost var t := Turn(count, words);
      var n, pad := NextLength(upstream[..2]);
      length := n;
      if length == p.Overhead() + pad {
        if |upstream| < 2 + length {
          return Broken, length;
        }
        upstream := upstream[2 + length..];
        return End, length;
      }
      if length < p.Overhead() + pad || |upstream| < 2 + length {
        return Broken, length;
      }
      var plain := OpenBody(upstream[2..2 + length - pad], t);
      if plain.None? {
        return Broken, length;
      }
      upstream := upstream[2 + length..];
      d := Block(plain.value, Turn(count, words), upstream);
    }

    method Read(room: nat) returns (out: bytes, status: Status)
      requires p.Valid()
      modifies this
      ensures var (r, o, s) := BlockStream.Read(Decode(p), old(Model()), room);
              status == s && out == o && (status == Ok ==> Model() == r)
      ensures status == Eof ==> done && pending == []
    {
      hide DecodeChunk, NextTurn;
      out := [];
      if pending != [] {
        var n := Min(room, |pending|);
        out, pending := pending[..n], pending[n..];
        return out, Ok;
      }
      if done {
        return out, Eof;
      }
      var d, length := NextChunk();
      if d.End? {
        done := true;
        return out, Eof;
      }
      if d.Broken? {
        return out, Failed;
      }
      status := Ok;
      if room >= length {
        // The caller's buffer holds the whole chunk: it was decrypted there.
        out := d.plain;
        assert d.plain[|d.plain|..] == [];
      } else {
        var n := Min(room, |d.plain|);
        out, pending := d.plain[..n], d.plain[n..];
      }
    }
  }

  // ------------------------------------------------------------------ the two ends together

  /** The empty chunk that ends a stream. */
  function Terminator(p: Params, t: Turn): bytes
    requires |p.nonce| == 12 && |Sealed(p, t, [])| + PadLength(p, t) < 0x1_0000
  {
    EncodeChunk(p, t, [])
  }

  ghost predicate EndsWith(p: Params, t: Turn, tail: bytes)
    requires p.Valid()
  {
    LengthFits(p, t, []);
    tail == [] || tail == Terminator(p, t)
  }

  lemma {:induction false} NothingIsEnd(p: Params, t: Turn)
    ensures DecodeChunk(p, t, []) == End
  {
  }

  /** Encoded chunks decode to their contents, up to the proper end of the stream. */
  lemma {:induction false} DrainEncoded(p: Params, t: Turn, cs: seq<bytes>, tail: bytes)
    requires p.Valid() && AllFit(p, cs) && (forall i :: 0 <= i < |cs| ==> cs[i] != [])
    requires EndsWith(p, Turns(p, t, |cs|), tail)
    ensures Consumes(Decode(p)) && Drain(Decode(p), t, Encode(p, t, cs) + tail) == (Concat(cs), true)
    decreases |cs|
  {
    hide DecodeChunk, EncodeChunk, Sealed, PadLength, NextTurn, Consumes;
    DecodeConsumes(p);
    if cs == [] {
      assert [] + tail == tail;
      NothingIsEnd(p, t);
      DecodeUndoesEncode(p, t, [], []);
      assert Terminator(p, t) + [] == Terminator(p, t);
    } else {
      LengthFits(p, t, cs[0]);
      var rest := Encode(p, NextTurn(p, t), cs[1..]);
      Assoc(EncodeChunk(p, t, cs[0]), rest, tail);
      DecodeUndoesEncode(p, t, cs[0], rest + tail);
      DrainEncoded(p, NextTurn(p, t), cs[1..], tail);
    }
  }

  /** What a fresh writer puts out for a sequence of writes, ended by the empty chunk or by closing alone. */
  ghost function Output(p: Params, t: Turn, writes: seq<bytes>, ended: bool): (b: bytes)
    requires p.Valid()
    decreases |writes|
  {
    LengthFits(p, t, []);
    if writes == [] then if ended then Terminator(p, t) else []
    else
      LimitFits(p, writes[0]);
      var cs := Split(writes[0], p.Limit());
      Encode(p, t, cs) + Output(p, Turns(p, t, |cs|), writes[1..], ended)
  }

  lemma {:induction false} OutputOfNone(p: Params, t: Turn, ended: bool)
    requires p.Valid()
    ensures AllChunks([], p.Limit()) == [] && AllFit(p, []) && Encode(p, t, []) == [] && Turns(p, t, 0) == t
    ensures EndsWith(p, t, Output(p, t, [], ended)) && Output(p, t, [], ended) == [] + Output(p, t, [], ended)
  {
  }

  lemma {:induction false} OutputFirst(p: Params, t: Turn, writes: seq<bytes>, ended: bool)
    requires p.Valid() && writes != []
    ensures var first, rest := Split(writes[0], p.Limit()), AllChunks(writes[1..], p.Limit());
            && AllFit(p, first) && AllFit(p, rest) && AllChunks(writes, p.Limit()) == first + rest
            && Output(p, t, writes, ended) == Encode(p, t, first) + Output(p, Turns(p, t, |first|), writes[1..], ended)
  {
    LimitFits(p, writes[0]);
    hide Encode, Turns, Split;
  }

  lemma {:induction false} OutputIsChunks(p: Params, t: Turn, writes: seq<bytes>, ended: bool)
    requires p.Valid()
    ensures var cs := AllChunks(writes, if p.packet then 65455 else 15000);
            && AllFit(p, cs)
            && exists tail :: EndsWith(p, Turns(p, t, |cs|), tail) && Output(p, t, writes, ended) == Encode(p, t, cs) + tail
    decreases |writes|
  {
    hide Output, AllChunks, Encode, Turns, EndsWith, AllFit, Split, Params.Valid;
    var cs := AllChunks(writes, p.Limit());
    if writes == [] {
      OutputOfNone(p, t, ended);
    } else {
      OutputFirst(p, t, writes, ended);
      var first, rest := Split(writes[0], p.Limit()), AllChunks(writes[1..], p.Limit());
      var next := Turns(p, t, |first|);
      OutputIsChunks(p, next, writes[1..], ended);
      var tail :| EndsWith(p, Turns(p, next, |rest|), tail) && Output(p, next, writes[1..], ended) == Encode(p, next, rest) + tail;
      EncodeAppend(p, t, first, rest);
      Assoc(Encode(p, t, first), Encode(p, next, rest), tail);
      assert EndsWith(p, Turns(p, t, |cs|), tail) && Output(p, t, writes, ended) == Encode(p, t, cs) + tail;
    }
  }

  /**
   VMess round trip: for every choice of options, every partition of the data into writes and every sequence of
   positive read sizes, the reader hands up exactly the bytes written and then reports the end of the stream, whether
   the writer ended with the empty chunk or the connection was closed behind the last one.
   */
  lemma {:induction false} VmessRoundTrip(p: Params, writes: seq<bytes>, ended: bool, rooms: seq<nat>)
    requires p.Valid() && (forall i :: 0 <= i < |rooms| ==> rooms[i] > 0) && |rooms| > |Concat(writes)|
    ensures ReadMany(Decode(p), Reader(Turn(0, 0), [], false, Output(p, Turn(0, 0), writes, ended)), rooms)
            == (Concat(writes), Eof)
  {
    var t := Turn(0, 0);
    var cs := AllChunks(writes, p.Limit());
    OutputIsChunks(p, t, writes, ended);
    AllChunksLoseNothing(writes, p.Limit());
    var tail :| EndsWith(p, Turns(p, t, |cs|), tail) && Output(p, t, writes, ended) == Encode(p, t, cs) + tail;
    DrainEncoded(p, t, cs, tail);
    hide Encode, Output, Drain, ReadMany, Consumes, Turns, Concat;
    ReadsAll(Decode(p), t, Output(p, t, writes, ended), Concat(writes), rooms);
  }
}
