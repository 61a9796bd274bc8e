/**
 Reading a stream that arrives in blocks: a read hands up what is left of the last block, or takes
 the next one off the connection. How callers size their reads never changes what they get.
 */
module BlockStream {
  import opened Wire

  /** What taking one block off a connection can come to. */
  datatype Decoded<S> = Broken | End | Block(plain: bytes, next: S, rest: bytes)

  type Decoder<!S> = (S, bytes) -> Decoded<S>

  /** Every block is of some use: it has content, and it used up input. */
  ghost predicate Consumes<S(!new)>(d: Decoder<S>) {
    forall s, u {:trigger d(s, u)} :: d(s, u).Block? ==> d(s, u).plain != [] && |d(s, u).rest| < |u|
  }

  /** Everything a connection's bytes decode to, and whether they come to a proper end. */
  ghost function Drain<S(!new)>(d: Decoder<S>, s: S, u: bytes): (bytes, bool)
    requires Consumes(d)
    decreases |u|
  {
    match d(s, u)
    case Broken => ([], false)
    case End => ([], true)
    case Block(plain, next, rest) => (plain + Drain(d, next, rest).0, Drain(d, next, rest).1)
  }

  datatype Status = Ok | Eof | Failed

  datatype Reader<S> = Reader(state: S, pending: bytes, done: bool, upstream: bytes)

  function Read<S>(d: Decoder<S>, r: Reader<S>, room: nat): (Reader<S>, bytes, Status) {
    if r.pending != [] then
      var n := Min(room, |r.pending|);
      (r.(pending := r.pending[n..]), r.pending[..n], Ok)
    else if r.done then (r, [], Eof)
    else
      match d(r.state, r.upstream)
      case Block(plain, next, rest) =>
        var n := Min(room, |plain|);
        (Reader(next, plain[n..], false, rest), plain[..n], Ok)
      case End => (r.(done := true), [], Eof)
      case Broken => (r, [], Failed)
  }

  /** Reads one after another, with these sizes, until one does not succeed. */
  function ReadMany<S>(d: Decoder<S>, r: Reader<S>, rooms: seq<nat>): (bytes, Status)
    decreases |rooms|
  {
    if rooms == [] then ([], Ok)
    else
      var (r', out, status) := Read(d, r, rooms[0]);
      if status != Ok then ([], status)
      else
        var (more, s) := ReadMany(d, r', rooms[1..]);
        (out + more, s)
  }

  /** What a reader will hand up in all. */
  ghost function Owed<S(!new)>(d: Decoder<S>, r: Reader<S>): bytes
    requires Consumes(d)
  {
    if r.done then r.pending else r.pending + Drain(d, r.state, r.upstream).0
  }

  ghost predicate Clean<S(!new)>(d: Decoder<S>, r: Reader<S>)
    requires Consumes(d)
  {
    r.done || Drain(d, r.state, r.upstream).1
  }

  /**
   A successful read takes the next bytes owed, as many as there is room for up to the end of a block; an unsuccessful
   one finds nothing owed.
   */
  lemma {:induction false} ReadTakesNext<S(!new)>(d: Decoder<S>, r: Reader<S>, room: nat)
    requires Consumes(d) && room > 0
    ensures var (r', out, status) := Read(d, r, room);
            && (status == Ok ==>
                  out != [] && |out| <= room && Owed(d, r) == out + Owed(d, r') && Clean(d, r') == Clean(d, r))
            && (status != Ok ==> Owed(d, r) == [] && (status == Eof <==> Clean(d, r)))
            && (r.pending != [] ==> out == r.pending[..Min(room, |r.pending|)])
            && (r.pending == [] && status == Ok ==>
                  d(r.state, r.upstream).Block? && out == d(r.state, r.upstream).plain[..Min(room, |d(r.state, r.upstream).plain|)])
  {
    var (r', out, status) := Read(d, r, room);
    if r.pending != [] {
      assert r.pending == out + r'.pending;
      Assoc(out, r'.pending, Drain(d, r.state, r.upstream).0);
    } else if !r.done && d(r.state, r.upstream).Block? {
      var b := d(r.state, r.upstream);
      assert b.plain == out + r'.pending;
      Assoc(out, r'.pending, Drain(d, b.next, b.rest).0);
      assert r.pending + Drain(d, r.state, r.upstream).0 == Drain(d, r.state, r.upstream).0;
    }
  }

  /**
   For any input, sound or broken, and any positive read sizes: what comes out is the decoded stream in order,
   all of it by the time a read does not succeed, and that happens within as many reads as there are bytes, plus one.
   */
  lemma {:induction false} ReadSizesDoNotMatter<S(!new)>(d: Decoder<S>, r: Reader<S>, rooms: seq<nat>)
    requires Consumes(d) && forall i :: 0 <= i < |rooms| ==> rooms[i] > 0
    ensures var (out, status) := ReadMany(d, r, rooms);
            && out <= Owed(d, r)
            && (status != Ok ==> out == Owed(d, r) && (status == Eof <==> Clean(d, r)))
            && (|rooms| > |Owed(d, r)| ==> status != Ok)
    decreases |rooms|
  {
    if rooms != [] {
      ReadTakesNext(d, r, rooms[0]);
      var (r', out, status) := Read(d, r, rooms[0]);
      hide Read, Owed, Clean;
      if status == Ok {
        ReadSizesDoNotMatter(d, r', rooms[1..]);
      }
    }
  }

  /** A sound stream, read from its start with enough reads, yields its contents and then its end. */
  lemma {:induction false} ReadsAll<S(!new)>(d: Decoder<S>, s: S, u: bytes, data: bytes, rooms: seq<nat>)
    requires Consumes(d) && Drain(d, s, u) == (data, true)
    requires (forall i :: 0 <= i < |rooms| ==> rooms[i] > 0) && |rooms| > |data|
    ensures ReadMany(d, Reader(s, [], false, u), rooms) == (data, Eof)
  {
    var r := Reader(s, [], false, u);
    assert [] + data == data;
    ReadSizesDoNotMatter(d, r, rooms);
  }

  // ------------------------------------------------------------------ cutting what is written

  /** How a write is cut into chunks. */
  function Split(data: bytes, limit: nat): (cs: seq<bytes>)
    requires limit > 0
    ensures forall i :: 0 <= i < |cs| ==> 0 < |cs[i]| <= limit
    decreases |data|
  {
    if data == [] then []
    else
      var n := Min(|data|, limit);
      [data[..n]] + Split(data[n..], limit)
  }

  /** Every chunk but the last is as long as can be. */
  lemma {:induction false} SplitIsFull(data: bytes, limit: nat, i: nat)
    requires limit > 0 && i < |Split(data, limit)|
    ensures i < |Split(data, limit)| - 1 ==> |Split(data, limit)[i]| == limit
    ensures 0 < |data| <= limit ==> Split(data, limit) == [data]
    decreases |data|
  {
    var n := Min(|data|, limit);
    if i > 0 {
      SplitIsFull(data[n..], limit, i - 1);
    }
    if |data| <= limit {
      assert data[..n] == data && Split(data[n..], limit) == [];
    }
  }

  lemma {:induction false} SplitLosesNothing(data: bytes, limit: nat)
    requires limit > 0
    ensures Concat(Split(data, limit)) == data
    decreases |data|
  {
    if data != [] {
      var n := Min(|data|, limit);
      SplitLosesNothing(data[n..], limit);
      assert Split(data, limit)[1..] == Split(data[n..], limit);
      assert data[..n] + data[n..] == data;
    }
  }

  /** All chunks of a sequence of writes. */
  function AllChunks(writes: seq<bytes>, limit: nat): (cs: seq<bytes>)
    requires limit > 0
    ensures forall i :: 0 <= i < |cs| ==> 0 < |cs[i]| <= limit
  {
    if writes == [] then [] else Split(writes[0], limit) + AllChunks(writes[1..], limit)
  }

  lemma {:induction false} AllChunksLoseNothing(writes: seq<bytes>, limit: nat)
    requires limit > 0
    ensures Concat(AllChunks(writes, limit)) == Concat(writes)
    decreases |writes|
  {
    if writes != [] {
      AllChunksLoseNothing(writes[1..], limit);
      SplitLosesNothing(writes[0], limit);
      ConcatAppend(Split(writes[0], limit), AllChunks(writes[1..], limit));
    }
  }
}
