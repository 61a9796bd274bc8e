/**
 The read side of XTLS Vision: the unpadding state machine, the connection's read loop around it,
 and why the bytes it hands up are the bytes the peer wrote, wherever the stream is cut.
 */
module VisionReader {
  import opened Wire

  const CONTINUE: byte := 0
  const END: byte := 1
  const DIRECT: byte := 2

  /** Command header plus the 16-byte UUID of the first frame. */
  const FRAME_OVERHEAD := 21

  // ---------------------------------------------------------------- frames

  datatype Frame = Frame(command: byte, content: bytes, padding: bytes) {
    predicate Valid() { |content| < 0x1_0000 && |padding| < 0x1_0000 }
  }

  function Header(f: Frame): (h: bytes)
    requires f.Valid()
    ensures |h| == 5
  {
    [f.command] + Be16(|f.content|) + Be16(|f.padding|)
  }

  function FrameBytes(f: Frame): (b: bytes)
    requires f.Valid()
    ensures |b| == 5 + |f.content| + |f.padding|
  {
    Header(f) + f.content + f.padding
  }

  /** A frame on the wire: command, two lengths with the high byte first, content, padding. */
  lemma {:induction false} FrameLayout(f: Frame)
    requires f.Valid()
    ensures var b, n := FrameBytes(f), |f.content|;
            && b[0] == f.command && 256 * (b[1] as int) + (b[2] as int) == n && 256 * (b[3] as int) + (b[4] as int) == |f.padding|
            && b[5..5 + n] == f.content && b[5 + n..] == f.padding
  {
    var b := FrameBytes(f);
    assert b[..5] == Header(f) && b[5..5 + |f.content|] == f.content && b[5 + |f.content|..] == f.padding;
    assert forall i :: 0 <= i < 5 ==> b[i] == b[..5][i];
  }

  predicate AllValid(fs: seq<Frame>) { forall i :: 0 <= i < |fs| ==> fs[i].Valid() }

  function StreamBytes(fs: seq<Frame>): (b: bytes)
    requires AllValid(fs)
  {
    if fs == [] then [] else FrameBytes(fs[0]) + StreamBytes(fs[1..])
  }

  function Contents(fs: seq<Frame>): (b: bytes) {
    if fs == [] then [] else fs[0].content + Contents(fs[1..])
  }

  predicate AllContinue(fs: seq<Frame>) { forall i :: 0 <= i < |fs| ==> fs[i].command == CONTINUE }

  // ------------------------------------------------- the byte-level reference

  /** Where the parser stands: header bytes still due, then content, then padding. */
  datatype Pos = Pos(cmd: int, content: int, padding: int, command: int) {
    predicate Running() {
      || (4 <= cmd <= 5 && -1 <= content && -1 <= padding)
      || (2 <= cmd <= 3 && 0 <= content && (cmd == 3 ==> content % 256 == 0) && -1 <= padding)
      || (cmd == 1 && 0 <= content && 0 <= padding && padding % 256 == 0)
      || (cmd == 0 && 0 <= content && 0 <= padding && content + padding > 0)
    }

    predicate Ended() { cmd == -1 && content == -1 && padding == -1 }
  }

  const HEAD := Pos(5, 0, 0, 0)

  /** The first header, right after the UUID: the length counters still hold their initial -1. */
  const FIRST_HEAD := Pos(5, -1, -1, 0)

  function EndedPos(command: int): Pos { Pos(-1, -1, -1, command) }

  /** A block that has nothing left opens the next header, or ends the padding. */
  function Settle(p: Pos): Pos {
    if p.cmd <= 0 && p.content <= 0 && p.padding <= 0
    then if p.command == 0 then p.(cmd := 5) else EndedPos(p.command)
    else p
  }

  /** One header byte. The low length bytes are or-ed onto a multiple of 256, which is addition. */
  function HeaderByte(p: Pos, b: byte): Pos
    requires 1 <= p.cmd <= 5
  {
    var q := match p.cmd
      case 5 => p.(command := b)
      case 4 => p.(content := b * 256)
      case 3 => p.(content := p.content + b)
      case 2 => p.(padding := b * 256)
      case _ => p.(padding := p.padding + b);
    q.(cmd := p.cmd - 1)
  }

  function Step(p: Pos, b: byte): (r: (Pos, bytes))
    requires p.Running() || p.Ended()
    ensures r.0.Running() || r.0.Ended()
    ensures p.Running() && r.0.Ended() ==> r.0.command != 0
  {
    if p.Ended() then (p, [b])
    else if p.cmd > 0 then (Settle(HeaderByte(p, b)), [])
    else if p.content > 0 then (Settle(p.(content := p.content - 1)), [b])
    else (Settle(p.(padding := p.padding - 1)), [])
  }

  function Feed(p: Pos, s: bytes): (r: (Pos, bytes))
    requires p.Running() || p.Ended()
    ensures r.0.Running() || r.0.Ended()
    ensures p.Ended() ==> r.0 == p
    ensures p.Running() && r.0.Ended() ==> r.0.command != 0
    decreases |s|
  {
    if s == [] then (p, [])
    else
      var (q, o) := Step(p, s[0]);
      var (z, rest) := Feed(q, s[1..]);
      (z, o + rest)
  }

  lemma {:induction false} FeedAppend(p: Pos, a: bytes, b: bytes)
    requires p.Running() || p.Ended()
    ensures Feed(p, a + b) == (Feed(Feed(p, a).0, b).0, Feed(p, a).1 + Feed(Feed(p, a).0, b).1)
    decreases |a|
  {
    if a == [] {
      assert a + b == b;
      assert [] + Feed(p, b).1 == Feed(p, b).1;
    } else {
      assert (a + b)[1..] == a[1..] + b;
      var (q, o) := Step(p, a[0]);
      FeedAppend(q, a[1..], b);
      assert o + (Feed(q, a[1..]).1 + Feed(Feed(q, a[1..]).0, b).1)
          == (o + Feed(q, a[1..]).1) + Feed(Feed(q, a[1..]).0, b).1;
    }
  }

  lemma {:induction false} FeedNothing()
    ensures forall p: Pos :: p.Running() || p.Ended() ==> Feed(p, []) == (p, [])
  {
  }

  /** Feeding on from where the parser is. */
  lemma {:induction false} FeedOn(start: Pos, done: bytes, p: Pos, out: bytes, b: bytes, n: nat, q: Pos, taken: bytes)
    requires (start.Running() || start.Ended()) && n <= |b| && Feed(start, done) == (p, out) && Feed(p, b[..n]) == (q, taken)
    ensures Feed(start, done + b[..n]) == (q, out + taken) && done + b == done + b[..n] + b[n..]
    ensures (q.Running() || q.Ended()) && (n == |b| ==> b[..n] == b && b[n..] == [])
  {
    hide Feed;
    FeedAppend(start, done, b[..n]);
  }

  lemma {:induction false} FeedEnded(p: Pos, s: bytes)
    requires p.Ended()
    ensures Feed(p, s) == (p, s)
    decreases |s|
  {
    if s != [] {
      FeedEnded(p, s[1..]);
      assert [s[0]] + s[1..] == s;
    }
  }

  /** A run of content bytes is handed up unchanged. */
  lemma {:induction false} FeedContent(p: Pos, s: bytes)
    requires p.cmd == 0 && 0 < |s| <= p.content && 0 <= p.padding
    ensures Feed(p, s) == (Settle(p.(content := p.content - |s|)), s)
    decreases |s|
  {
    var q := Step(p, s[0]).0;
    assert [s[0]] + s[1..] == s;
    if |s| > 1 {
      FeedContent(q, s[1..]);
    }
  }

  /** A run of padding bytes is dropped. */
  lemma {:induction false} FeedPadding(p: Pos, s: bytes)
    requires p.cmd == 0 && p.content == 0 && 0 < |s| <= p.padding
    ensures Feed(p, s) == (Settle(p.(padding := p.padding - |s|)), [])
    decreases |s|
  {
    var q := Step(p, s[0]).0;
    if |s| > 1 {
      FeedPadding(q, s[1..]);
    }
    var none: bytes := [];
    assert none + none == none;
  }

  // ---------------------------------------------------------- frames through the parser

  lemma {:induction false} FeedHeader(p: Pos, f: Frame)
    requires f.Valid() && p.Running() && p.cmd == 5
    ensures Feed(p, Header(f)) == (Settle(Pos(0, |f.content|, |f.padding|, f.command)), [])
  {
    var h := Header(f);
    var p1 := p.(cmd := 4, command := f.command);
    var p2 := p1.(cmd := 3, content := |f.content| / 256 * 256);
    var p3 := p2.(cmd := 2, content := |f.content|);
    var p4 := p3.(cmd := 1, padding := |f.padding| / 256 * 256);
    assert Step(p, h[0]) == (p1, []);
    assert Step(p1, h[1]) == (p2, []);
    assert Step(p2, h[2]) == (p3, []);
    assert Step(p3, h[3]) == (p4, []);
    var r := (Settle(Pos(0, |f.content|, |f.padding|, f.command)), []);
    FeedSingle(p4, h[4]);
    assert Feed(p4, h[4..]) == r by { assert h[4..] == [h[4]]; }
    FeedQuiet(p3, h[3..], p4);
    FeedQuiet(p2, h[2..], p3);
    FeedQuiet(p1, h[1..], p2);
    FeedQuiet(p, h, p1);
    assert h[3..][1..] == h[4..] && h[2..][1..] == h[3..] && h[1..][1..] == h[2..];
  }

  lemma {:induction false} FeedQuiet(p: Pos, s: bytes, q: Pos)
    requires p.Running() && s != [] && Step(p, s[0]) == (q, [])
    ensures Feed(p, s) == Feed(q, s[1..])
  {
    assert [] + Feed(q, s[1..]).1 == Feed(q, s[1..]).1;
  }

  lemma {:induction false} FeedOne(p: Pos, b: byte, rest: bytes)
    requires p.Running()
    ensures Feed(p, [b] + rest) == (Feed(Step(p, b).0, rest).0, Step(p, b).1 + Feed(Step(p, b).0, rest).1)
  {
    assert ([b] + rest)[1..] == rest;
  }

  lemma {:induction false} FeedSingle(p: Pos, b: byte)
    requires p.Running() || p.Ended()
    ensures Feed(p, [b]) == Step(p, b)
  {
    assert [b][1..] == [];
    assert Step(p, b).1 + [] == Step(p, b).1;
  }

  /** Parsing one frame yields its content and lands on the next header, or ends the padding. */
  lemma {:induction false} FeedFrame(p: Pos, f: Frame)
    requires f.Valid() && p.Running() && p.cmd == 5
    ensures Feed(p, FrameBytes(f)) ==
            (if f.command == CONTINUE then HEAD else EndedPos(f.command), f.content)
  {
    FeedNothing();
    hide Feed, Header;
    var p0 := Pos(0, |f.content|, |f.padding|, f.command);
    FeedHeader(p, f);
    FeedAppend(p, Header(f) + f.content, f.padding);
    FeedAppend(p, Header(f), f.content);
    if f.content != [] {
      FeedContent(p0, f.content);
    }
    assert Feed(p, Header(f) + f.content).1 == f.content;
    if f.padding != [] {
      FeedPadding(p0.(content := 0), f.padding);
    }
    assert f.content + [] == f.content;
  }

  lemma {:induction false} FeedContinues(p: Pos, fs: seq<Frame>)
    requires AllValid(fs) && AllContinue(fs) && p.Running() && p.cmd == 5
    ensures Feed(p, StreamBytes(fs)) == (if fs == [] then p else HEAD, Contents(fs))
    decreases |fs|
  {
    if fs != [] {
      FeedFrame(p, fs[0]);
      FeedAppend(p, FrameBytes(fs[0]), StreamBytes(fs[1..]));
      FeedContinues(HEAD, fs[1..]);
    }
  }

  /** A whole padded stream and the raw bytes behind it parse back to what was framed. */
  lemma {:induction false} FeedStream(fs: seq<Frame>, last: Frame, tail: bytes)
    requires AllValid(fs) && AllContinue(fs) && last.Valid() && last.command != CONTINUE
    ensures Feed(FIRST_HEAD, StreamBytes(fs) + FrameBytes(last) + tail) ==
            (EndedPos(last.command), Contents(fs) + last.content + tail)
  {
    FeedContinues(FIRST_HEAD, fs);
    FeedFrame(if fs == [] then FIRST_HEAD else HEAD, last);
    FeedAppend(FIRST_HEAD, StreamBytes(fs), FrameBytes(last));
    FeedAppend(FIRST_HEAD, StreamBytes(fs) + FrameBytes(last), tail);
    FeedEnded(EndedPos(last.command), tail);
  }

  // ------------------------------------------------------------------- unpad

  /** What one connection remembers between two calls of unpad. */
  datatype Reader = Reader(pos: Pos, user: Option<bytes>, probed: bool, notVision: bool,
                           within: bool, direct: bool)
  {
    predicate Valid() { pos.Running() || pos.Ended() }
  }

  const FRESH := Reader(EndedPos(0), None, false, false, true, false)

  /** A first frame: an authorised UUID followed by one of the three commands. */
  predicate Matches(candidates: seq<bytes>, b: bytes) {
    |b| >= FRAME_OVERHEAD && b[16] <= DIRECT && exists i :: 0 <= i < |candidates| && candidates[i] == b[..16]
  }

  /** The flags as left at the end of a call: read off the current command, whatever is still due. */
  function Flags(r: Reader): Reader {
    if r.pos.content > 0 || r.pos.padding > 0 || r.pos.command == 0 then r.(within := true)
    else if r.pos.command == 1 then r.(within := false)
    else if r.pos.command == 2 then r.(within := false, direct := true)
    else r
  }

  function UnpadSpec(candidates: seq<bytes>, r: Reader, b: bytes): (res: (Reader, bytes))
    requires r.Valid()
    ensures res.0.Valid()
  {
    if r.notVision then (r, b)
    else if r.pos.Ended() && !Matches(candidates, b) then
      (if r.probed || |b| >= FRAME_OVERHEAD then r.(notVision := true) else r, b)
    else if r.pos.Ended() then
      var (p, out) := Feed(FIRST_HEAD.(command := r.pos.command), b[16..]);
      (Flags(r.(user := Some(b[..16]), probed := true, pos := p)), out)
    else
      var (p, out) := Feed(r.pos, b);
      (Flags(r.(pos := p)), out)
  }

  /** The unpadding state of one connection, updated in place. */
  class VisionState {
    const candidates: seq<bytes>
    var userUUID: Option<bytes>
    var probed: bool
    var notVision: bool
    var withinPaddingBuffers: bool
    var remainingCommand: int
    var remainingContent: int
    var remainingPadding: int
    var currentCommand: int
    var readerDirect: bool

    ghost function Position(): Pos
      reads this
    {
      Pos(remainingCommand, remainingContent, remainingPadding, currentCommand)
    }

    ghost function Model(): Reader
      reads this
    {
      Reader(Position(), userUUID, probed, notVision, withinPaddingBuffers, readerDirect)
    }

    constructor (candidates: seq<bytes>)
      ensures this.candidates == candidates && Model() == FRESH
    {
      this.candidates := candidates;
      userUUID, probed, notVision := None, false, false;
      withinPaddingBuffers, readerDirect := true, false;
      remainingCommand, remainingContent, remainingPadding, currentCommand := -1, -1, -1, 0;
    }

    /** The first authorised UUID that opens b, provided a legal command follows it. */
    method MatchCandidate(b: bytes) returns (m: Option<bytes>)
      ensures m.Some? <==> Matches(candidates, b)
      ensures m.Some? <==> |b| >= 21 && b[16] <= 2 && b[..16] in candidates
      ensures m.Some? ==> m.value == b[..16]
    {
      if |b| < FRAME_OVERHEAD || b[16] > DIRECT {
        return None;
      }
      for i := 0 to |candidates|
        invariant forall j :: 0 <= j < i ==> candidates[j] != b[..16]
      {
        if candidates[i] == b[..16] {
          return Some(candidates[i]);
        }
      }
      return None;
    }

    method TakeHeaderByte(b: byte)
      requires Position().Running() && remainingCommand > 0
      modifies this
      ensures Position() == HeaderByte(old(Position()), b)
      ensures Model() == old(Model()).(pos := Position())
    {
      var data: int := b;
      match remainingCommand {
        case 5 => currentCommand := data;
        case 4 => remainingContent := data * 256;
        case 3 => remainingContent := remainingContent + data;
        case 2 => remainingPadding := data * 256;
        case _ => remainingPadding := remainingPadding + data;
      }
      remainingCommand := remainingCommand - 1;
    }

    /** Consumes what the current header, content or padding can take from b. */
    method TakeBlock(b: bytes) returns (n: nat, out: bytes)
      requires b != [] && Position().Running()
      modifies this
      ensures 0 < n <= |b|
      ensures Feed(old(Position()), b[..n]) == (Position(), out)
      ensures Model() == old(Model()).(pos := Position())
    {
      ghost var p := Position();
      if remainingCommand > 0 {
        n, out := 1, [];
        FeedSingle(p, b[0]);
        assert b[..1] == [b[0]];
        TakeHeaderByte(b[0]);
      } else if remainingContent > 0 {
        n := Min(remainingContent, |b|);
        out := b[..n];
        FeedContent(p, out);
        remainingContent := remainingContent - n;
      } else {
        n, out := Min(remainingPadding, |b|), [];
        FeedPadding(p, b[..n]);
        remainingPadding := remainingPadding - n;
      }
      if remainingCommand <= 0 && remainingContent <= 0 && remainingPadding <= 0 {
        if currentCommand == 0 {
          remainingCommand := 5;
        } else {
          remainingCommand, remainingContent, remainingPadding := -1, -1, -1;
        }
      }
    }

    /** Block after block; what follows the end of the padding is raw content. */
    method Strip(piece: bytes) returns (out: bytes)
      requires Position().Running()
      modifies this
      ensures Feed(old(Position()), piece) == (Position(), out)
      ensures Model() == old(Model()).(pos := Position())
    {
      var b := piece;
      ghost var start := Position();
      ghost var done: bytes := [];
      out := [];
      while b != []
        invariant piece == done + b
        invariant Model() == old(Model()).(pos := Position())
        invariant Position().Running() || (Position().Ended() && b == [])
        invariant Feed(start, done) == (Position(), out)
        decreases |b|
      {
        hide Feed;
        ghost var p := Position();
        var n, taken := TakeBlock(b);
        FeedOn(start, done, p, out, b, n, Position(), taken);
        done := done + b[..n];
        out, b := out + taken, b[n..];
        if remainingCommand == -1 {
          FeedEnded(Position(), b);
          assert b[..|b|] == b;
          FeedOn(start, done, Position(), out, b, |b|, Position(), b);
          done, out, b := done + b, out + b, [];
        }
      }
      assert done == piece;
    }

    /** Strips the padding of one piece of the stream. */
    method Unpad(piece: bytes) returns (out: bytes)
      requires Model().Valid()
      modifies this
      ensures (Model(), out) == UnpadSpec(candidates, old(Model()), piece)
    {
      if notVision {
        return piece;
      }
      var b := piece;
      if remainingCommand == -1 && remainingContent == -1 && remainingPadding == -1 {
        var matched := MatchCandidate(b);
        if matched.None? {
          if probed || |b| >= FRAME_OVERHEAD {
            notVision := true;
          }
          return piece;
        }
        userUUID, probed := matched, true;
        b := b[16..];
        remainingCommand := 5;
      }
      out := Strip(b);
      if remainingContent > 0 || remainingPadding > 0 || currentCommand == 0 {
        withinPaddingBuffers := true;
      } else if currentCommand == 1 {
        withinPaddingBuffers := false;
      } else if currentCommand == 2 {
        withinPaddingBuffers, readerDirect := false, true;
      }
    }
  }

  // ------------------------------------------------------- where the padding ends

  /**
   The flags of a call are read off the current command even in mid-header: a piece that stops here
   is taken for the end of the padding although the frame has only begun.
   */
  predicate Premature(p: Pos) {
    p.Running() && p.command != 0 && p.content <= 0 && p.padding <= 0
  }

  lemma {:induction false} HeaderDue(p: Pos, s: bytes)
    requires p.Running() && |s| < p.cmd
    ensures Feed(p, s).0.Running() && Feed(p, s).0.cmd == p.cmd - |s|
    decreases |s|
  {
    if s != [] {
      HeaderDue(Step(p, s[0]).0, s[1..]);
    }
  }

  lemma {:induction false} BodyDue(p: Pos, s: bytes)
    requires p.Running() && p.cmd == 0 && |s| < p.content + p.padding
    ensures Feed(p, s).0.Running() && Feed(p, s).0.cmd == 0
    decreases |s|
  {
    if s != [] {
      BodyDue(Step(p, s[0]).0, s[1..]);
    }
  }

  lemma {:induction false} FrameDue(p: Pos, f: Frame, n: nat)
    requires f.Valid() && p.Running() && p.cmd == 5 && n < |FrameBytes(f)|
    ensures var q := Feed(p, FrameBytes(f)[..n]).0; q.Running() && (n >= 5 ==> q.cmd == 0)
  {
    var b := FrameBytes(f);
    if n < 5 {
      HeaderDue(p, b[..n]);
    } else {
      assert b[..n] == Header(f) + b[5..n];
      FeedHeader(p, f);
      FeedAppend(p, Header(f), b[5..n]);
      BodyDue(Pos(0, |f.content|, |f.padding|, f.command), b[5..n]);
    }
  }

  /** Once a frame announces the end of padding, no later position forgets it. */
  lemma {:induction false} CommandSticks(p: Pos, s: bytes)
    requires ((p.Running() && p.cmd < 5) || p.Ended()) && p.command != 0
    ensures Feed(p, s).0.command != 0
    decreases |s|
  {
    if s != [] {
      CommandSticks(Step(p, s[0]).0, s[1..]);
    }
  }

  lemma {:induction false} NonZeroIsPastHead(p: Pos, s: bytes)
    requires p.Running() && (p.cmd == 5 ==> p.command == 0)
    ensures var q := Feed(p, s).0; q.Ended() || (q.cmd == 5 ==> q.command == 0)
    decreases |s|
  {
    if s != [] && Step(p, s[0]).0.Running() {
      NonZeroIsPastHead(Step(p, s[0]).0, s[1..]);
    }
  }

  lemma {:induction false} PrefixCommand(fs: seq<Frame>, j: nat)
    requires AllValid(fs) && AllContinue(fs) && j <= |StreamBytes(fs)|
    ensures Feed(FIRST_HEAD, StreamBytes(fs)[..j]).0.command == 0
  {
    var body := StreamBytes(fs);
    FeedContinues(FIRST_HEAD, fs);
    assert body == body[..j] + body[j..];
    FeedAppend(FIRST_HEAD, body[..j], body[j..]);
    NonZeroIsPastHead(FIRST_HEAD, body[..j]);
    var q := Feed(FIRST_HEAD, body[..j]).0;
    if q.command != 0 {
      CommandSticks(q, body[j..]);
      assert false;
    }
  }

  /** Every strict prefix of the padded part is still running. */
  lemma {:induction false} PrefixRunning(fs: seq<Frame>, last: Frame, j: nat)
    requires AllValid(fs) && AllContinue(fs) && last.Valid()
    requires j < |StreamBytes(fs) + FrameBytes(last)|
    ensures Feed(FIRST_HEAD, (StreamBytes(fs) + FrameBytes(last))[..j]).0.Running()
  {
    var body, b := StreamBytes(fs), (StreamBytes(fs) + FrameBytes(last))[..j];
    if j <= |body| {
      assert b == body[..j];
      PrefixCommand(fs, j);
    } else {
      var n := j - |body|;
      assert b == body + FrameBytes(last)[..n];
      FeedContinues(FIRST_HEAD, fs);
      FeedAppend(FIRST_HEAD, body, FrameBytes(last)[..n]);
      FrameDue(if fs == [] then FIRST_HEAD else HEAD, last, n);
    }
  }

  // --------------------------------------------------------- the read loop around unpad

  /** A connection being read: bytes held until the first 21 are in, and everything handed up so far. */
  datatype Conn = Conn(reader: Reader, pending: bytes, out: bytes)

  /** One read from the outer connection; `filtering` says TLS recognition is still going on. */
  datatype Piece = Piece(chunk: bytes, filtering: bool, eof: bool)

  function Deliver(candidates: seq<bytes>, c: Conn, p: Piece): (d: Conn)
    requires c.reader.Valid()
    ensures d.reader.Valid()
  {
    var need := !c.reader.direct && (c.reader.within || p.filtering);
    var held := c.pending + p.chunk;
    if need && c.reader.pos.Ended() && |held| < FRAME_OVERHEAD && !p.eof then c.(pending := held)
    else if need then
      var (r, out) := UnpadSpec(candidates, c.reader, held);
      Conn(r, [], c.out + out)
    else Conn(c.reader, [], c.out + held)
  }

  function Run(candidates: seq<bytes>, ps: seq<Piece>): (c: Conn)
    ensures c.reader.Valid()
  {
    if ps == [] then Conn(FRESH, [], [])
    else Deliver(candidates, Run(candidates, ps[..|ps| - 1]), ps[|ps| - 1])
  }

  function Received(ps: seq<Piece>): (b: bytes) {
    if ps == [] then [] else Received(ps[..|ps| - 1]) + ps[|ps| - 1].chunk
  }

  /** What a connection that has received `got` must look like. */
  ghost predicate Agrees(c: Conn, got: bytes) {
    if |got| < FRAME_OVERHEAD then c == Conn(FRESH, got, [])
    else
      var (p, o) := Feed(FIRST_HEAD, got[16..]);
      && c.reader.pos == p
      && c.reader.probed
      && c.out + c.pending == o
      && (p.Running() ==>
            && c.pending == [] && !c.reader.direct && !c.reader.notVision
            && p.command <= 2 && (c.reader.within <==> !Premature(p)))
      && (p.Ended() ==>
            && (c.reader.direct <==> p.command == 2)
            && (c.reader.within <==> p.command !in {1, 2})
            && |c.pending| <= |got| - 16
            && c.pending == got[|got| - |c.pending|..]
            && Feed(FIRST_HEAD, got[16..|got| - |c.pending|]).0.Ended())
  }

  /** A legal command, and no premature switch to direct reading. */
  predicate Harmless(p: Pos) {
    0 <= p.command <= 2 && (p.command == 2 ==> !Premature(p))
  }

  lemma {:induction false} DeliverStart(candidates: seq<bytes>, c: Conn, got: bytes, p: Piece)
    requires Agrees(c, got) && |got| < FRAME_OVERHEAD && p.chunk != []
    requires !p.eof || |got + p.chunk| >= FRAME_OVERHEAD
    requires |got + p.chunk| >= FRAME_OVERHEAD ==> Matches(candidates, got + p.chunk)
    requires |got + p.chunk| >= FRAME_OVERHEAD ==> Harmless(Feed(FIRST_HEAD, (got + p.chunk)[16..]).0)
    ensures Agrees(Deliver(candidates, c, p), got + p.chunk)
  {
    var now := got + p.chunk;
    if |now| >= FRAME_OVERHEAD {
      var (q, o) := Feed(FIRST_HEAD, now[16..]);
      assert Deliver(candidates, c, p).out == o;
      assert now[16..|now|] == now[16..];
      assert o + [] == o;
    }
  }

  lemma {:induction false} DeliverRunning(candidates: seq<bytes>, c: Conn, got: bytes, p: Piece)
    requires Agrees(c, got) && |got| >= FRAME_OVERHEAD && Feed(FIRST_HEAD, got[16..]).0.Running()
    requires c.reader.within || p.filtering
    requires Harmless(Feed(FIRST_HEAD, (got + p.chunk)[16..]).0)
    ensures Agrees(Deliver(candidates, c, p), got + p.chunk)
  {
    hide Feed;
    var now := got + p.chunk;
    assert now[16..] == got[16..] + p.chunk;
    FeedAppend(FIRST_HEAD, got[16..], p.chunk);
    var d := Deliver(candidates, c, p);
    assert c.pending + p.chunk == p.chunk;
    assert d.out == Feed(FIRST_HEAD, now[16..]).1;
    assert d.out + [] == d.out;
    assert now[16..|now|] == now[16..];
  }

  /** The read side takes what it has for another first frame. */
  predicate Reprobed(candidates: seq<bytes>, c: Conn, p: Piece) {
    && !c.reader.direct && (c.reader.within || p.filtering) && !c.reader.notVision
    && Matches(candidates, c.pending + p.chunk)
  }

  /** Past the end of the padding a piece that is not taken for a first frame goes through untouched. */
  lemma {:induction false} DeliverRaw(candidates: seq<bytes>, c: Conn, p: Piece)
    requires c.reader.pos.Ended() && c.reader.probed && !Reprobed(candidates, c, p)
    ensures var d := Deliver(candidates, c, p);
            && d.reader == c.reader.(notVision := d.reader.notVision)
            && d.out + d.pending == c.out + (c.pending + p.chunk)
            && (d.pending == [] || (d.pending == c.pending + p.chunk && d.out == c.out))
  {
    var d := Deliver(candidates, c, p);
    if d.pending == [] {
      assert d.out + [] == d.out;
    }
  }

  lemma {:induction false} DeliverEnded(candidates: seq<bytes>, c: Conn, got: bytes, p: Piece)
    requires |got| >= FRAME_OVERHEAD && Feed(FIRST_HEAD, got[16..]).0.Ended() && Agrees(c, got)
    requires !Reprobed(candidates, c, p)
    ensures Agrees(Deliver(candidates, c, p), got + p.chunk)
  {
    hide Feed, Deliver, Matches, Reprobed;
    var now, d := got + p.chunk, Deliver(candidates, c, p);
    DeliverRaw(candidates, c, p);
    var j := |got| - |c.pending|;
    var e := |now| - |d.pending|;
    assert now[16..] == got[16..] + p.chunk;
    FeedAppend(FIRST_HEAD, got[16..], p.chunk);
    FeedEnded(c.reader.pos, p.chunk);
    assert d.out + d.pending == Feed(FIRST_HEAD, now[16..]).1 by {
      assert c.out + (c.pending + p.chunk) == (c.out + c.pending) + p.chunk;
    }
    assert d.pending == now[e..];
    assert Feed(FIRST_HEAD, now[16..e]).0.Ended() by {
      if d.pending == [] {
        assert now[16..e] == now[16..];
      } else {
        assert now[16..e] == got[16..j];
      }
    }
  }

  // ------------------------------------------------------------------ main results

  /** The whole stream a Vision peer sends: its UUID, padded frames, the frame that ends them, raw bytes. */
  datatype Stream = Stream(uuid: bytes, fs: seq<Frame>, last: Frame, tail: bytes) {
    predicate Valid() {
      |uuid| == 16 && AllValid(fs) && AllContinue(fs) && last.Valid() && last.command in {END, DIRECT}
    }

    function Padded(): (b: bytes)
      requires Valid()
    {
      StreamBytes(fs) + FrameBytes(last)
    }

    function Bytes(): (b: bytes)
      requires Valid()
      ensures |b| == 16 + |Padded()| + |tail|
    {
      uuid + Padded() + tail
    }

    /** Where the header of the last frame begins. */
    function LastStart(): int
      requires Valid()
    {
      16 + |StreamBytes(fs)|
    }

    /** A stop inside the last header with nothing but zeros behind its command byte. */
    predicate BadCut(j: int)
      requires Valid()
    {
      && FRAME_OVERHEAD <= j
      && LastStart() < j < LastStart() + 5
      && forall k :: 1 <= k < j - LastStart() ==> Header(last)[k] == 0
    }

    /** Sent by an authorised user. */
    predicate For(candidates: seq<bytes>) { Valid() && uuid in candidates }
  }

  /** Reads that gave something, only the last of them together with an error; filtering ends once. */
  predicate ProperPieces(ps: seq<Piece>) {
    && (forall i :: 0 <= i < |ps| ==> ps[i].chunk != [] && (ps[i].eof ==> i == |ps| - 1))
    && (forall i, j :: 0 <= i < j < |ps| && ps[j].filtering ==> ps[i].filtering)
  }

  /** The piece behind such a stop is no longer unpadded. */
  predicate Spoils(st: Stream, ps: seq<Piece>, i: nat)
    requires st.Valid() && i < |ps|
  {
    st.BadCut(|Received(ps[..i])|) && (st.last.command == DIRECT || !ps[i].filtering)
  }

  /** What has been received since the read that completed the last frame. */
  function Since(st: Stream, ps: seq<Piece>): bytes
    requires st.Valid()
    decreases |ps|
  {
    if ps == [] then []
    else
      var before := ps[..|ps| - 1];
      if |Received(before)| < 16 + |st.Padded()| then [] else Since(st, before) + ps[|ps| - 1].chunk
  }

  /**
   While filtering goes on behind an End frame, the first 21 bytes that have come in are looked at as if they
   might be a first frame; this piece completes them and they look like one.
   */
  predicate Reprobes(candidates: seq<bytes>, st: Stream, ps: seq<Piece>, i: nat)
    requires st.Valid() && i < |ps|
  {
    var held := Since(st, ps[..i]);
    && st.last.command == END && ps[i].filtering && |Received(ps[..i])| >= 16 + |st.Padded()|
    && |held| < FRAME_OVERHEAD && Matches(candidates, held + ps[i].chunk)
  }

  lemma {:induction false} HeaderPosition(p: Pos, f: Frame, n: nat)
    requires f.Valid() && p.Running() && p.cmd == 5 && p.content <= 0 && p.padding <= 0 && 1 <= n < 5
    ensures var q := Feed(p, Header(f)[..n]).0;
            && q.cmd == 5 - n && q.command == f.command
            && (q.content <= 0 && q.padding <= 0 <==> forall k :: 1 <= k < n ==> Header(f)[k] == 0)
  {
    var h := Header(f);
    var p1 := p.(cmd := 4, command := f.command);
    var p2 := p1.(cmd := 3, content := |f.content| / 256 * 256);
    var p3 := p2.(cmd := 2, content := |f.content|);
    assert Step(p, h[0]) == (p1, []);
    assert Step(p1, h[1]) == (p2, []);
    assert Step(p2, h[2]) == (p3, []);
    FeedOne(p, h[0], h[1..n]);
    assert [h[0]] + h[1..n] == h[..n];
    if n >= 2 {
      FeedOne(p1, h[1], h[2..n]);
      assert [h[1]] + h[2..n] == h[1..n];
    }
    if n >= 3 {
      FeedOne(p2, h[2], h[3..n]);
      assert [h[2]] + h[3..n] == h[2..n];
    }
    if n >= 4 {
      FeedOne(p3, h[3], h[4..n]);
      assert [h[3]] + h[4..n] == h[3..n];
    }
  }

  lemma {:induction false} FramePosition(p: Pos, f: Frame, n: nat)
    requires f.Valid() && p.Running() && p.cmd == 5 && p.content <= 0 && p.padding <= 0 && 0 < n < |FrameBytes(f)|
    ensures var (q, o) := Feed(p, FrameBytes(f)[..n]);
            && q.Running() && q.command == f.command
            && (q.content <= 0 && q.padding <= 0 <==> n < 5 && forall k :: 1 <= k < n ==> Header(f)[k] == 0)
            && (n < 5 ==> o == [])
  {
    var b := FrameBytes(f);
    if n < 5 {
      assert b[..n] == Header(f)[..n];
      HeaderPosition(p, f, n);
      HeaderSilent(p, Header(f)[..n]);
    } else {
      FrameDue(p, f, n);
      assert b[..n] == Header(f) + b[5..n];
      FeedHeader(p, f);
      FeedAppend(p, Header(f), b[5..n]);
      BodyCommand(Pos(0, |f.content|, |f.padding|, f.command), b[5..n]);
    }
  }

  lemma {:induction false} HeaderSilent(p: Pos, s: bytes)
    requires p.Running() && |s| < p.cmd
    ensures Feed(p, s).1 == []
    decreases |s|
  {
    if s != [] {
      HeaderSilent(Step(p, s[0]).0, s[1..]);
    }
  }

  lemma {:induction false} BodyCommand(p: Pos, s: bytes)
    requires p.Running() && p.cmd == 0 && |s| < p.content + p.padding
    ensures Feed(p, s).0.command == p.command
    decreases |s|
  {
    if s != [] {
      BodyCommand(Step(p, s[0]).0, s[1..]);
    }
  }

  /** Where the parser stands after j bytes of a sent stream. */
  lemma {:induction false} SentPosition(st: Stream, j: nat)
    requires st.Valid() && 16 <= j <= |st.Bytes()|
    ensures var (q, o) := Feed(FIRST_HEAD, st.Bytes()[16..j]);
            && (q.Ended() <==> j >= 16 + |st.Padded()|)
            && (j >= FRAME_OVERHEAD ==> (Premature(q) <==> st.BadCut(j)))
            && (st.BadCut(j) ==> o == Contents(st.fs) && q.command == st.last.command)
            && (q.command == 0 || q.command == st.last.command)
            && (q.Ended() ==> q.command == st.last.command)
  {
    hide Feed, FrameBytes, Contents, StreamBytes;
    var body, frame := StreamBytes(st.fs), FrameBytes(st.last);
    var s := st.Bytes();
    var n := j - 16 - |body|;
    FeedContinues(FIRST_HEAD, st.fs);
    if n <= 0 {
      assert s[16..j] == st.Padded()[..j - 16] == body[..j - 16];
      PrefixRunning(st.fs, st.last, j - 16);
      PrefixCommand(st.fs, j - 16);
    } else if n < |frame| {
      assert s[16..j] == st.Padded()[..j - 16] == body + frame[..n];
      PrefixRunning(st.fs, st.last, j - 16);
      FeedAppend(FIRST_HEAD, body, frame[..n]);
      FramePosition(if st.fs == [] then FIRST_HEAD else HEAD, st.last, n);
    } else {
      assert s[16..j] == st.Padded() + st.tail[..n - |frame|];
      FeedStream(st.fs, st.last, st.tail[..n - |frame|]);
    }
  }

  lemma {:induction false} StartMatches(candidates: seq<bytes>, st: Stream, got: bytes)
    requires st.For(candidates) && got <= st.Bytes() && |got| >= FRAME_OVERHEAD
    ensures Matches(candidates, got)
  {
    assert got[..16] == st.uuid;
    assert got[16] == if st.fs == [] then st.last.command else st.fs[0].command;
  }

  /** One read that neither follows a spoiling cut nor stops at a premature switch nor is taken for a first frame. */
  lemma {:induction false} ReadAgrees(candidates: seq<bytes>, st: Stream, c: Conn, got: bytes, p: Piece)
    requires st.For(candidates) && Agrees(c, got) && p.chunk != []
    requires got + p.chunk <= st.Bytes() && (p.eof ==> |got + p.chunk| >= FRAME_OVERHEAD)
    requires st.BadCut(|got|) ==> st.last.command == END && p.filtering
    requires st.last.command == DIRECT ==> !st.BadCut(|got + p.chunk|)
    requires |got| >= 16 + |st.Padded()| ==> !Reprobed(candidates, c, p)
    ensures Agrees(Deliver(candidates, c, p), got + p.chunk)
  {
    hide Feed, Deliver, StreamBytes, FrameBytes, Header, Contents, Reprobed;
    var now := got + p.chunk;
    if |now| >= FRAME_OVERHEAD {
      assert now[16..] == st.Bytes()[16..|now|];
      SentPosition(st, |now|);
      StartMatches(candidates, st, now);
    }
    if |got| < FRAME_OVERHEAD {
      DeliverStart(candidates, c, got, p);
    } else {
      assert got[16..] == st.Bytes()[16..|got|];
      SentPosition(st, |got|);
      if Feed(FIRST_HEAD, got[16..]).0.Running() {
        DeliverRunning(candidates, c, got, p);
      } else {
        DeliverEnded(candidates, c, got, p);
      }
    }
  }

  /** What filtering still holds behind an End frame: everything since, or nothing any more for good. */
  ghost predicate Holds(st: Stream, ps: seq<Piece>, c: Conn)
    requires st.Valid()
  {
    ps != [] && |Received(ps)| >= 16 + |st.Padded()| && st.last.command == END
    && ps[|ps| - 1].filtering && !ps[|ps| - 1].eof ==>
      if |Since(st, ps)| < FRAME_OVERHEAD then c.pending == Since(st, ps) && !c.reader.notVision else c.reader.notVision
  }

  /** Where the parser is past its end, being taken for a first frame is what the pieces say. */
  lemma {:induction false} ReprobedIsReprobes(candidates: seq<bytes>, st: Stream, ps: seq<Piece>, c: Conn, i: nat)
    requires st.For(candidates) && ProperPieces(ps) && i < |ps| && Received(ps[..i]) <= st.Bytes()
    requires |Received(ps[..i])| >= 16 + |st.Padded()| && Agrees(c, Received(ps[..i])) && Holds(st, ps[..i], c)
    ensures Reprobed(candidates, c, ps[i]) <==> Reprobes(candidates, st, ps, i)
  {
    var got := Received(ps[..i]);
    assert got[16..] == st.Bytes()[16..|got|];
    SentPosition(st, |got|);
    hide Feed, StreamBytes, FrameBytes, Header, Contents, Matches;
    assert i > 0 && ps[..i][i - 1] == ps[i - 1];
  }

  lemma {:induction false} HoldsNext(candidates: seq<bytes>, st: Stream, ps: seq<Piece>, c: Conn)
    requires st.For(candidates) && ProperPieces(ps) && ps != [] && Received(ps) <= st.Bytes()
    requires var n := |ps| - 1;
             && Agrees(c, Received(ps[..n])) && Holds(st, ps[..n], c)
             && (|Received(ps[..n])| >= 16 + |st.Padded()| ==> !Reprobed(candidates, c, ps[n]))
    ensures Holds(st, ps, Deliver(candidates, c, ps[|ps| - 1]))
  {
    var n := |ps| - 1;
    var got, p := Received(ps[..n]), ps[n];
    hide Feed, StreamBytes, FrameBytes, Header, Contents;
    if |got| >= 16 + |st.Padded()| {
      assert got[16..] == st.Bytes()[16..|got|];
      SentPosition(st, |got|);
      assert n > 0 && ps[..n][n - 1] == ps[n - 1];
    } else if |got| < FRAME_OVERHEAD && |Received(ps)| >= FRAME_OVERHEAD {
      StartMatches(candidates, st, Received(ps));
    } else if |got| >= FRAME_OVERHEAD {
      assert got[16..] == st.Bytes()[16..|got|];
      SentPosition(st, |got|);
    }
  }

  /** No piece up to here is read behind a spoiling cut or taken for a first frame. */
  predicate Undisturbed(candidates: seq<bytes>, st: Stream, ps: seq<Piece>)
    requires st.Valid()
  {
    forall i :: 0 <= i < |ps| ==> !Spoils(st, ps, i) && !Reprobes(candidates, st, ps, i)
  }

  lemma {:induction false} UndisturbedPrefix(candidates: seq<bytes>, st: Stream, ps: seq<Piece>, n: nat)
    requires st.Valid() && n <= |ps|
    requires forall i :: 0 <= i < n ==> !Spoils(st, ps, i) && !Reprobes(candidates, st, ps, i)
    ensures Undisturbed(candidates, st, ps[..n])
  {
    forall i | 0 <= i < n
      ensures !Spoils(st, ps[..n], i) && !Reprobes(candidates, st, ps[..n], i)
    {
      assert !Spoils(st, ps, i) && !Reprobes(candidates, st, ps, i);
      assert ps[..n][..i] == ps[..i] && ps[..n][i] == ps[i];
    }
  }

  /** Undisturbed, the connection agrees with the reference parser after every read. */
  lemma {:induction false} RunAgrees(candidates: seq<bytes>, st: Stream, ps: seq<Piece>)
    requires st.For(candidates) && ProperPieces(ps) && Received(ps) <= st.Bytes()
    requires Undisturbed(candidates, st, ps) && (ps != [] && ps[|ps| - 1].eof ==> |Received(ps)| >= FRAME_OVERHEAD)
    requires st.last.command == DIRECT ==> !st.BadCut(|Received(ps)|)
    ensures Agrees(Run(candidates, ps), Received(ps)) && Holds(st, ps, Run(candidates, ps))
    decreases |ps|
  {
    hide Deliver, StreamBytes, FrameBytes, Header, Contents, Agrees, Holds, Reprobed, Since;
    if ps == [] {
      assert Agrees(Run(candidates, ps), Received(ps)) && Holds(st, ps, Run(candidates, ps)) by {
        NothingRead(candidates, st);
      }
    } else {
      var n := |ps| - 1;
      UndisturbedPrefix(candidates, st, ps, n);
      assert !Spoils(st, ps, n) && !Reprobes(candidates, st, ps, n);
      RunAgrees(candidates, st, ps[..n]);
      var c := Run(candidates, ps[..n]);
      if |Received(ps[..n])| >= 16 + |st.Padded()| {
        ReprobedIsReprobes(candidates, st, ps, c, n);
      }
      ReadAgrees(candidates, st, c, Received(ps[..n]), ps[n]);
      HoldsNext(candidates, st, ps, c);
    }
  }

  lemma {:induction false} NothingRead(candidates: seq<bytes>, st: Stream)
    requires st.Valid()
    ensures Agrees(Run(candidates, []), Received([])) && Holds(st, [], Run(candidates, []))
  {
  }

  lemma {:induction false} ReceivedSplit(ps: seq<Piece>, i: nat)
    requires i <= |ps|
    ensures Received(ps) == Received(ps[..i]) + Received(ps[i..])
    decreases |ps|
  {
    if i == |ps| {
      assert ps[..i] == ps && ps[i..] == [];
    } else {
      var n := |ps| - 1;
      ReceivedSplit(ps[..n], i);
      assert ps[..n][..i] == ps[..i];
      assert ps[i..][..n - i] == ps[..n][i..];
    }
  }

  /** A read side that has given up unpadding, for these pieces and good. */
  ghost predicate GivenUp(c: Conn, ps: seq<Piece>) {
    && c.pending == []
    && (c.reader.direct || (!c.reader.within && forall k :: 0 <= k < |ps| ==> !ps[k].filtering))
  }

  lemma {:induction false} DeliverGivenUp(candidates: seq<bytes>, c: Conn, p: Piece)
    requires GivenUp(c, [p]) && c.reader.Valid()
    ensures Deliver(candidates, c, p) == c.(out := c.out + p.chunk)
  {
    assert [p][0] == p;
    assert c.pending + p.chunk == p.chunk;
  }

  /** From there on everything is passed on as it is. */
  lemma {:induction false} RawFrom(candidates: seq<bytes>, ps: seq<Piece>, i: nat)
    requires i <= |ps| && GivenUp(Run(candidates, ps[..i]), ps[i..])
    ensures Run(candidates, ps) == Run(candidates, ps[..i]).(out := Run(candidates, ps[..i]).out + Received(ps[i..]))
    decreases |ps|
  {
    hide Deliver;
    var c := Run(candidates, ps[..i]);
    if i == |ps| {
      assert ps[..i] == ps && ps[i..] == [];
      assert c.out + [] == c.out;
    } else {
      var n := |ps| - 1;
      var later := ps[i..n];
      assert ps[..n][..i] == ps[..i] && ps[..n][i..] == later;
      assert ps[i..] == later + [ps[n]];
      GivenUpSplit(c, later, ps[n]);
      RawFrom(candidates, ps[..n], i);
      var d := Run(candidates, ps[..n]);
      DeliverGivenUp(candidates, d, ps[n]);
      ReceivedSnoc(later, ps[n]);
      assert d.out + ps[n].chunk == c.out + (Received(later) + ps[n].chunk);
    }
  }

  lemma {:induction false} GivenUpSplit(c: Conn, later: seq<Piece>, p: Piece)
    requires GivenUp(c, later + [p])
    ensures GivenUp(c, later) && GivenUp(c, [p])
  {
    assert (later + [p])[|later|] == p;
    assert forall k :: 0 <= k < |later| ==> (later + [p])[k] == later[k];
  }

  lemma {:induction false} ReceivedSnoc(ps: seq<Piece>, p: Piece)
    ensures Received(ps + [p]) == Received(ps) + p.chunk
  {
    assert (ps + [p])[..|ps|] == ps;
  }

  /** A read that stops prematurely in a header announcing direct mode switches to it too early. */
  lemma {:induction false} SwitchTooEarly(candidates: seq<bytes>, st: Stream, c: Conn, got: bytes, p: Piece)
    requires st.For(candidates) && Agrees(c, got) && got + p.chunk <= st.Bytes()
    requires st.last.command == DIRECT && !st.BadCut(|got|) && st.BadCut(|got + p.chunk|)
    ensures var d := Deliver(candidates, c, p); d.reader.direct && d.pending == [] && d.out == Contents(st.fs)
  {
    hide Feed, StreamBytes, FrameBytes, Header, Contents;
    var now := got + p.chunk;
    assert now[16..] == st.Bytes()[16..|now|];
    SentPosition(st, |now|);
    if |got| < FRAME_OVERHEAD {
      StartMatches(candidates, st, now);
      assert c.out + Feed(FIRST_HEAD, now[16..]).1 == Feed(FIRST_HEAD, now[16..]).1;
    } else {
      assert got[16..] == st.Bytes()[16..|got|];
      SentPosition(st, |got|);
      assert now[16..] == got[16..] + p.chunk;
      FeedAppend(FIRST_HEAD, got[16..], p.chunk);
      assert c.pending + p.chunk == p.chunk;
    }
  }

  /** Before a cut inside the last header nothing can be taken for another first frame. */
  lemma {:induction false} NoneBefore(candidates: seq<bytes>, st: Stream, ps: seq<Piece>, i: nat)
    requires st.Valid() && i < |ps| && st.BadCut(|Received(ps[..i])|)
    ensures forall k :: 0 <= k < i ==> !Reprobes(candidates, st, ps, k)
  {
    forall k | 0 <= k < i
      ensures !Reprobes(candidates, st, ps, k)
    {
      ReceivedSplit(ps[..i], k);
      assert ps[..i][..k] == ps[..k];
    }
  }

  /** At the first spoiling cut exactly the contents framed so far have been handed up. */
  lemma {:induction false} GivesUpAt(candidates: seq<bytes>, st: Stream, ps: seq<Piece>, i: nat)
    requires st.For(candidates) && ProperPieces(ps) && Received(ps) == st.Bytes()
    requires i < |ps| && Spoils(st, ps, i) && forall k :: 0 <= k < i ==> !Spoils(st, ps, k)
    ensures GivenUp(Run(candidates, ps[..i]), ps[i..]) && Run(candidates, ps[..i]).out == Contents(st.fs)
  {
    hide Feed, Deliver, StreamBytes, FrameBytes, Header, Contents;
    ReceivedSplit(ps, i);
    var got := Received(ps[..i]);
    NoneBefore(candidates, st, ps, i);
    UndisturbedPrefix(candidates, st, ps, i);
    if st.last.command == END {
      RunAgrees(candidates, st, ps[..i]);
      assert got[16..] == st.Bytes()[16..|got|];
      SentPosition(st, |got|);
      var c := Run(candidates, ps[..i]);
      assert c.out + [] == c.out;
    } else {
      var n: nat := i - 1;
      assert ps[..i][..n] == ps[..n];
      UndisturbedPrefix(candidates, st, ps, n);
      assert !Spoils(st, ps, n);
      RunAgrees(candidates, st, ps[..n]);
      SwitchTooEarly(candidates, st, Run(candidates, ps[..n]), Received(ps[..n]), ps[n]);
    }
  }

  /** Bytes still held are handed up when the stream ends. */
  function HandedUp(c: Conn): bytes { c.out + c.pending }

  lemma {:induction false} ReadsBack(candidates: seq<bytes>, st: Stream, ps: seq<Piece>)
    requires st.For(candidates) && ProperPieces(ps) && Received(ps) == st.Bytes() && Undisturbed(candidates, st, ps)
    ensures HandedUp(Run(candidates, ps)) == Contents(st.fs) + st.last.content + st.tail
  {
    RunAgrees(candidates, st, ps);
    AgreesInFull(st, Run(candidates, ps));
  }

  lemma {:induction false} AgreesInFull(st: Stream, c: Conn)
    requires st.Valid() && Agrees(c, st.Bytes())
    ensures HandedUp(c) == Contents(st.fs) + st.last.content + st.tail
  {
    assert st.Bytes()[16..] == st.Padded() + st.tail;
    FeedStream(st.fs, st.last, st.tail);
  }

  lemma {:induction false} ReadsTooMuch(candidates: seq<bytes>, st: Stream, ps: seq<Piece>, i: nat)
    requires st.For(candidates) && ProperPieces(ps) && Received(ps) == st.Bytes()
    requires i < |ps| && Spoils(st, ps, i) && forall k :: 0 <= k < i ==> !Spoils(st, ps, k)
    ensures |HandedUp(Run(candidates, ps))| > |Contents(st.fs)| + |st.last.content| + |st.tail|
  {
    GivesUpAt(candidates, st, ps, i);
    RawFrom(candidates, ps, i);
    ReceivedSplit(ps, i);
    assert |Received(ps[i..])| > |st.last.content| + |st.tail|;
  }

  lemma {:induction false} UnpadShrinks(candidates: seq<bytes>, r: Reader, b: bytes)
    requires r.Valid()
    ensures |UnpadSpec(candidates, r, b).1| <= |b|
    ensures r.pos.Ended() && !r.notVision && Matches(candidates, b) ==> |UnpadSpec(candidates, r, b).1| <= |b| - 16
  {
    if r.pos.Ended() && |b| >= 16 {
      FeedShrinks(FIRST_HEAD.(command := r.pos.command), b[16..]);
    }
    FeedShrinks(r.pos, b);
  }

  /** No read hands up more than it and the held bytes amount to. */
  lemma {:induction false} DeliverShrinks(candidates: seq<bytes>, c: Conn, p: Piece)
    requires c.reader.Valid()
    ensures |HandedUp(Deliver(candidates, c, p))| <= |HandedUp(c)| + |p.chunk|
    ensures c.reader.pos.Ended() && Reprobed(candidates, c, p) ==>
              |HandedUp(Deliver(candidates, c, p))| + 16 <= |HandedUp(c)| + |p.chunk|
  {
    UnpadShrinks(candidates, c.reader, c.pending + p.chunk);
    hide UnpadSpec;
  }

  lemma {:induction false} RunSnoc(candidates: seq<bytes>, ps: seq<Piece>)
    requires ps != []
    ensures Run(candidates, ps) == Deliver(candidates, Run(candidates, ps[..|ps| - 1]), ps[|ps| - 1])
  {
    hide Deliver;
  }

  lemma {:induction false} RunShrinks(candidates: seq<bytes>, ps: seq<Piece>, i: nat)
    requires i <= |ps|
    ensures |HandedUp(Run(candidates, ps))| + |Received(ps[..i])| <=
            |HandedUp(Run(candidates, ps[..i]))| + |Received(ps)|
    decreases |ps|
  {
    hide Deliver, Run, HandedUp;
    if i == |ps| {
      assert ps[..i] == ps;
    } else {
      var n := |ps| - 1;
      RunShrinks(candidates, ps[..n], i);
      assert ps[..n][..i] == ps[..i];
      DeliverShrinks(candidates, Run(candidates, ps[..n]), ps[n]);
      RunSnoc(candidates, ps);
    }
  }

  /** Of raw bytes taken for a first frame at least sixteen are lost. */
  lemma {:induction false} ReadsTooLittle(candidates: seq<bytes>, st: Stream, ps: seq<Piece>, i: nat)
    requires st.For(candidates) && ProperPieces(ps) && Received(ps) == st.Bytes() && i < |ps|
    requires Reprobes(candidates, st, ps, i)
    requires forall k :: 0 <= k < i ==> !Spoils(st, ps, k) && !Reprobes(candidates, st, ps, k)
    ensures |HandedUp(Run(candidates, ps))| + 16 <= |Contents(st.fs)| + |st.last.content| + |st.tail|
  {
    hide Deliver, Feed, StreamBytes, FrameBytes, Header, Contents, Matches, Reprobed, Reprobes, Holds;
    var got, c := Received(ps[..i]), Run(candidates, ps[..i]);
    ReceivedSplit(ps, i);
    UndisturbedPrefix(candidates, st, ps, i);
    assert |got| >= 16 + |st.Padded()| by {
      ReprobesLate(candidates, st, ps, i);
    }
    assert i > 0 ==> !ps[..i][i - 1].eof;
    RunAgrees(candidates, st, ps[..i]);
    ReprobedIsReprobes(candidates, st, ps, c, i);
    EndedLength(st, c, got);
    LostFrom(candidates, ps, i);
  }

  /** What one read loses, the reads after it do not make up for. */
  lemma {:induction false} LostFrom(candidates: seq<bytes>, ps: seq<Piece>, i: nat)
    requires i < |ps|
    requires var c := Run(candidates, ps[..i]); c.reader.pos.Ended() && Reprobed(candidates, c, ps[i])
    ensures |HandedUp(Run(candidates, ps))| + 16 <=
            |HandedUp(Run(candidates, ps[..i]))| + |Received(ps)| - |Received(ps[..i])|
  {
    hide Deliver, Reprobed, Matches, Run, Received;
    var c := Run(candidates, ps[..i]);
    DeliverShrinks(candidates, c, ps[i]);
    RunShrinks(candidates, ps, i + 1);
    assert ps[..i + 1] == ps[..i] + [ps[i]] && ps[..i + 1][..i] == ps[..i];
    RunSnoc(candidates, ps[..i + 1]);
    ReceivedSnoc(ps[..i], ps[i]);
  }

  lemma {:induction false} ReprobesLate(candidates: seq<bytes>, st: Stream, ps: seq<Piece>, i: nat)
    requires st.Valid() && i < |ps| && Reprobes(candidates, st, ps, i)
    ensures |Received(ps[..i])| >= 16 + |st.Padded()| && !st.BadCut(|Received(ps[..i])|)
  {
  }

  lemma {:induction false} EndedLength(st: Stream, c: Conn, got: bytes)
    requires st.Valid() && got <= st.Bytes() && |got| >= 16 + |st.Padded()| && Agrees(c, got)
    ensures |HandedUp(c)| == |Contents(st.fs)| + |st.last.content| + |got| - 16 - |st.Padded()| && c.reader.pos.Ended()
  {
    var n := |got| - 16 - |st.Padded()|;
    assert got[16..] == st.Padded() + st.tail[..n];
    FeedStream(st.fs, st.last, st.tail[..n]);
    hide Feed, StreamBytes, FrameBytes, Header, Contents;
  }

  /**
   The read side returns exactly what the peer framed and sent, for every raw tail and every cut of the stream,
   if and only if no piece is read behind a spoiling cut and none completes raw bytes that look like a first
   frame while filtering goes on.
   */
  lemma {:induction false} ReadsBackExactly(candidates: seq<bytes>, st: Stream, ps: seq<Piece>)
    requires st.For(candidates) && ProperPieces(ps) && Received(ps) == st.Bytes()
    ensures HandedUp(Run(candidates, ps)) == Contents(st.fs) + st.last.content + st.tail <==>
            Undisturbed(candidates, st, ps)
  {
    if Undisturbed(candidates, st, ps) {
      ReadsBack(candidates, st, ps);
    } else {
      var i := FirstDisturbance(candidates, st, ps);
      if Spoils(st, ps, i) {
        ReadsTooMuch(candidates, st, ps, i);
      } else {
        ReadsTooLittle(candidates, st, ps, i);
      }
    }
  }

  lemma {:induction false} FirstDisturbance(candidates: seq<bytes>, st: Stream, ps: seq<Piece>) returns (i: nat)
    requires st.Valid() && !Undisturbed(candidates, st, ps)
    ensures i < |ps| && (Spoils(st, ps, i) || Reprobes(candidates, st, ps, i))
    ensures forall k :: 0 <= k < i ==> !Spoils(st, ps, k) && !Reprobes(candidates, st, ps, k)
  {
    i := 0;
    while !Spoils(st, ps, i) && !Reprobes(candidates, st, ps, i)
      invariant i < |ps| && forall k :: 0 <= k < i ==> !Spoils(st, ps, k) && !Reprobes(candidates, st, ps, k)
      decreases |ps| - i
    {
      assert i + 1 < |ps| by {
        var k :| 0 <= k < |ps| && (Spoils(st, ps, k) || Reprobes(candidates, st, ps, k));
        assert k > i;
      }
      i := i + 1;
    }
  }

  /** A tail that opens with the user's own UUID and a command, read by itself: at least sixteen bytes are lost. */
  lemma {:induction false} TailTakenForFrame()
    ensures var u := seq(16, _ => 7);
            var st := Stream(u, [], Frame(END, [], []), u + [0, 0, 0, 0, 0]);
            var ps := [Piece(u + [1, 0, 0, 0, 0], true, false), Piece(st.tail, true, false)];
            && st.For([u]) && ProperPieces(ps) && Received(ps) == st.Bytes()
            && (forall i :: 0 <= i < |ps| ==> !Spoils(st, ps, i)) && Reprobes([u], st, ps, 1)
            && |HandedUp(Run([u], ps))| + 16 <= |st.tail|
  {
    hide Deliver, Run, Feed, HandedUp;
    var u: bytes := seq(16, _ => 7);
    var st := Stream(u, [], Frame(END, [], []), u + [0, 0, 0, 0, 0]);
    var ps := [Piece(u + [1, 0, 0, 0, 0], true, false), Piece(st.tail, true, false)];
    assert ps[..0] == [] && ps[..1][..0] == [] && ps[..1] == [ps[0]] && ps[..2] == ps;
    assert FrameBytes(st.last) == [1, 0, 0, 0, 0];
    assert st.Bytes() == u + [1, 0, 0, 0, 0] + st.tail;
    assert Received(ps[..1]) == ps[0].chunk;
    assert Received(ps) == st.Bytes();
    assert |st.Padded()| == 5;
    assert st.tail[..16] == u && [u][0] == u;
    assert Since(st, ps[..1]) + ps[1].chunk == st.tail;
    assert Reprobes([u], st, ps, 1);
    assert !Spoils(st, ps, 0) && !Spoils(st, ps, 1) && !Reprobes([u], st, ps, 0);
    ReadsTooLittle([u], st, ps, 1);
  }

  /** Undisturbed, the padding flags change in the very read that completes the last frame. */
  lemma {:induction false} FlagsFlipAtLastFrame(candidates: seq<bytes>, st: Stream, ps: seq<Piece>)
    requires st.For(candidates) && ProperPieces(ps) && Received(ps) <= st.Bytes()
    requires Undisturbed(candidates, st, ps) && (ps != [] && ps[|ps| - 1].eof ==> |Received(ps)| >= FRAME_OVERHEAD)
    requires !st.BadCut(|Received(ps)|)
    ensures var r := Run(candidates, ps).reader;
            && (!r.within <==> |Received(ps)| >= 16 + |st.Padded()|)
            && (r.direct <==> |Received(ps)| >= 16 + |st.Padded()| && st.last.command == DIRECT)
  {
    RunAgrees(candidates, st, ps);
    var got := Received(ps);
    if |got| >= FRAME_OVERHEAD {
      assert got[16..] == st.Bytes()[16..|got|];
      SentPosition(st, |got|);
    }
  }

  /** Past the end of the padding a call hands its piece up untouched if and only if it is no first frame. */
  lemma {:induction false} PassesThrough(candidates: seq<bytes>, r: Reader, b: bytes)
    requires r.pos.Ended() && r.probed && !r.notVision
    ensures UnpadSpec(candidates, r, b).1 == b <==> !Matches(candidates, b)
  {
    if Matches(candidates, b) {
      FeedShrinks(FIRST_HEAD.(command := r.pos.command), b[16..]);
    }
  }

  lemma {:induction false} FeedShrinks(p: Pos, s: bytes)
    requires p.Running() || p.Ended()
    ensures |Feed(p, s).1| <= |s|
    decreases |s|
  {
    if s != [] {
      FeedShrinks(Step(p, s[0]).0, s[1..]);
    }
  }
}
