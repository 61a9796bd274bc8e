/**
 The salt filter of classic Shadowsocks: a chain of Bloom blocks, oldest first, in generations of one period. A
 full block is followed by one of twice the size; the total is bounded by dropping the oldest blocks.
 */
module SaltBloom {
  import opened Wire

  const WORD := 0x1_0000_0000

  datatype Hash = Hash(h1: nat, h2: nat)

  function Min2(a: nat, b: nat): nat { if a < b then a else b }

  function Max2(a: nat, b: nat): nat { if a < b then b else a }

  // ------------------------------------------------------------------ one block

  lemma {:induction false} Scaled(x: nat, m: nat)
    requires x < WORD && m > 0
    ensures x * m / WORD < m
  {
    assert x * m < WORD * m by {
      MulLess(x, WORD, m);
    }
    DivLess(x * m, WORD, m);
  }

  lemma {:induction false} MulLess(a: nat, b: nat, m: nat)
    requires a < b && m > 0
    ensures a * m < b * m
  {
  }

  lemma {:induction false} DivLess(a: nat, d: nat, m: nat)
    requires d > 0 && a < d * m
    ensures a / d < m
  {
  }

  /** The i-th probed bit: a 32-bit sum scaled down to the block's size. */
  function Bit(h: Hash, mBits: nat, i: nat): (bit: nat)
    requires mBits > 0
    ensures bit < mBits
  {
    var x := (h.h1 + i * h.h2) % WORD;
    Scaled(x, mBits);
    x * mBits / WORD
  }

  /** Something added probes this bit. */
  ghost predicate SetBy(adds: set<Hash>, mBits: nat, k: nat, j: nat)
    requires mBits > 0
  {
    exists h, i :: h in adds && 0 <= i < k && Bit(h, mBits, i) == j
  }

  lemma {:induction false} MoreSet(adds: set<Hash>, g: Hash, mBits: nat, k: nat)
    requires mBits > 0
    ensures forall j: nat :: SetBy(adds, mBits, k, j) ==> SetBy(adds + {g}, mBits, k, j)
  {
    forall j: nat | SetBy(adds, mBits, k, j)
      ensures SetBy(adds + {g}, mBits, k, j)
    {
      var h, i :| h in adds && 0 <= i < k && Bit(h, mBits, i) == j;
      assert h in adds + {g};
    }
  }

  lemma {:induction false} SetByOne(adds: set<Hash>, h: Hash, mBits: nat, k: nat, i: nat)
    requires mBits > 0 && i < k
    ensures SetBy(adds + {h}, mBits, k, Bit(h, mBits, i))
  {
    assert h in adds + {h};
  }

  class Block {
    const mBits: nat
    const k: nat
    const capacity: nat
    const gen: int
    const bits: array<bool>
    var count: nat

    ghost var adds: set<Hash>

    /** The bits set are exactly those of everything added. */
    ghost predicate Valid()
      reads this, bits
    {
      && mBits > 0 && k > 0 && bits.Length == mBits && count <= capacity
      && (forall h, i :: h in adds && 0 <= i < k ==> bits[Bit(h, mBits, i)])
      && (forall j :: 0 <= j < mBits && bits[j] ==> SetBy(adds, mBits, k, j))
    }

    /** How many bits and probes a block of this capacity gets is up to floating-point code. */
    constructor (capacity: nat, mBits: nat, k: nat, gen: int)
      requires mBits > 0 && k > 0
      ensures Valid() && fresh(bits) && this.capacity == capacity && this.gen == gen && this.k == k && count == 0 && adds == {}
    {
      this.capacity, this.mBits, this.k, this.gen := capacity, mBits, k, gen;
      bits := new bool[mBits](_ => false);
      count, adds := 0, {};
    }

    /** All bits that the hash probes are set. */
    ghost predicate Positive(h: Hash)
      requires Valid()
      reads this, bits
    {
      forall i :: 0 <= i < k ==> bits[Bit(h, mBits, i)]
    }

    /** Says yes to everything added, and to nothing else but what shares all its bits. */
    method Test(h: Hash) returns (maybe: bool)
      requires Valid()
      ensures maybe <==> Positive(h)
      ensures h in adds ==> maybe
      ensures maybe ==> forall i :: 0 <= i < k ==> SetBy(adds, mBits, k, Bit(h, mBits, i))
      ensures adds == {} ==> !maybe
    {
      for i := 0 to k
        invariant forall j :: 0 <= j < i ==> bits[Bit(h, mBits, j)]
      {
        var b := Bit(h, mBits, i);
        if !bits[b] {
          return false;
        }
      }
      assert bits[Bit(h, mBits, 0)];
      return true;
    }

    method Add(h: Hash)
      requires Valid() && count < capacity
      modifies this, bits
      ensures Valid() && adds == old(adds) + {h} && count == old(count) + 1
    {
      MoreSet(adds, h, mBits, k);
      hide SetBy;
      for i := 0 to k
        invariant forall g, j :: g in adds && 0 <= j < k ==> bits[Bit(g, mBits, j)]
        invariant forall j :: 0 <= j < i ==> bits[Bit(h, mBits, j)]
        invariant forall j :: 0 <= j < mBits && bits[j] ==> SetBy(adds + {h}, mBits, k, j)
        modifies bits
      {
        var b := Bit(h, mBits, i);
        SetByOne(adds, h, mBits, k, i);
        bits[b] := true;
      }
      count, adds := count + 1, adds + {h};
    }
  }

  // ------------------------------------------------------------------ the chain

  ghost function Total(bs: seq<Block>): nat { if bs == [] then 0 else bs[0].capacity + Total(bs[1..]) }

  lemma {:induction false} TotalSnoc(bs: seq<Block>, b: Block)
    ensures Total(bs + [b]) == Total(bs) + b.capacity
  {
    if bs == [] {
      assert bs + [b] == [b] && [b][1..] == bs;
    } else {
      assert (bs + [b])[1..] == bs[1..] + [b];
      TotalSnoc(bs[1..], b);
    }
  }

  lemma {:induction false} TwoAtLeast(bs: seq<Block>, minCap: nat, maxCap: nat, cap: nat)
    requires Sized(bs, minCap, maxCap) && cap <= maxCap && bs != [] && Total(bs) + cap > 2 * maxCap
    ensures |bs| > 1
  {
    hide Total;
    if |bs| == 1 {
      OneTotal(bs);
    }
  }

  lemma {:induction false} OneTotal(bs: seq<Block>)
    requires |bs| == 1
    ensures Total(bs) == bs[0].capacity
  {
    assert bs[1..] == [];
  }

  lemma {:induction false} SizedSuffix(bs: seq<Block>, n: nat, minCap: nat, maxCap: nat)
    requires n <= |bs| && Sized(bs, minCap, maxCap)
    ensures Sized(bs[n..], minCap, maxCap)
  {
  }

  /** Blocks are separate objects and each keeps its promise. */
  ghost predicate Separate(bs: seq<Block>)
    reads bs, set b | b in bs :: b.bits
  {
    && (forall b :: b in bs ==> b.Valid())
    && (forall b, c :: b in bs && c in bs && b != c ==> b.bits != c.bits)
  }

  /** All blocks belong to the current generation or the one before it, oldest first. */
  predicate TwoGenerations(bs: seq<Block>, started: int, period: int) {
    && (forall i :: 0 <= i < |bs| ==> bs[i].gen == started || bs[i].gen == started - period)
    && (forall i, j :: 0 <= i < j < |bs| ==> bs[i].gen <= bs[j].gen)
  }

  predicate Sized(bs: seq<Block>, minCap: nat, maxCap: nat) {
    forall i :: 0 <= i < |bs| ==> minCap <= bs[i].capacity <= maxCap
  }

  /** Which block remembers an accepted salt, and when it was accepted. */
  datatype Place = Place(block: Block, at: int)

  /**
   Every salt accepted less than a period ago is in a block of the chain that covers its time, unless that very block
   was dropped for space.
   */
  ghost predicate Remembers(bs: seq<Block>, dropped: set<Block>, places: map<string, Place>, hash: string -> Hash,
                            period: int, now: int)
    reads bs
  {
    forall s :: s in places && now < places[s].at + period && places[s].block !in dropped ==>
      && places[s].block in bs && hash(s) in places[s].block.adds
      && places[s].block.gen <= places[s].at < places[s].block.gen + period
  }

  class Chain {
    const period: int
    const minCap: nat
    const maxCap: nat
    const hash: string -> Hash
    const bitsFor: nat -> nat
    const probesFor: nat -> nat
    var blocks: seq<Block>
    var genStarted: int
    var genCount: nat
    var nextCap: nat
    var capacity: nat

    /** Every accepted salt, the latest time seen, and the blocks dropped for space. */
    ghost var places: map<string, Place>
    ghost var latest: int
    ghost var discarded: set<Block>

    ghost predicate Shaped()
      reads this
    {
      && period > 0 && 1 <= minCap <= maxCap && (forall n :: bitsFor(n) > 0) && (forall n :: probesFor(n) > 0)
      && capacity == Total(blocks) && capacity <= 2 * maxCap
      && Sized(blocks, minCap, maxCap) && TwoGenerations(blocks, genStarted, period)
      && (blocks != [] ==> genStarted <= latest)
    }

    ghost predicate Valid()
      reads this, blocks, set b | b in blocks :: b.bits
    {
      Shaped() && Separate(blocks) && Remembers(blocks, discarded, places, hash, period, latest)
    }

    constructor (period: int, minCap: nat, maxCap: nat, hash: string -> Hash, bitsFor: nat -> nat, probesFor: nat -> nat)
      requires period > 0 && (forall n :: bitsFor(n) > 0) && (forall n :: probesFor(n) > 0)
      ensures Valid() && blocks == [] && places == map[] && discarded == {} && this.period == period && this.hash == hash
      ensures this.minCap == Max2(minCap, 1) && this.maxCap == Max2(maxCap, this.minCap)
    {
      this.period, this.minCap, this.maxCap := period, Max2(minCap, 1), Max2(maxCap, Max2(minCap, 1));
      this.hash, this.bitsFor, this.probesFor := hash, bitsFor, probesFor;
      blocks, genStarted, genCount, nextCap, capacity := [], 0, 0, 0, 0;
      places, latest, discarded := map[], 0, {};
    }

    /** The blocks of one generation, in order. */
    method KeepGeneration(gen: int) returns (kept: seq<Block>, size: nat)
      ensures size == Total(kept) <= Total(blocks)
      ensures forall b :: b in kept <==> b in blocks && b.gen == gen
      ensures forall i :: 0 <= i < |kept| ==> kept[i] in blocks && kept[i].gen == gen
    {
      kept, size := [], 0;
      for i := 0 to |blocks|
        invariant size == Total(kept) <= Total(blocks[..i])
        invariant forall b :: b in kept <==> b in blocks[..i] && b.gen == gen
      {
        assert blocks[..i + 1] == blocks[..i] + [blocks[i]];
        TotalSnoc(blocks[..i], blocks[i]);
        if blocks[i].gen == gen {
          TotalSnoc(kept, blocks[i]);
          kept, size := kept + [blocks[i]], size + blocks[i].capacity;
        }
      }
      assert blocks[..|blocks|] == blocks;
    }

    /** Ends the current generation when its period is over; after two periods nothing is left. */
    method Expire(now: int)
      requires Valid() && now >= latest
      modifies this
      ensures Valid() && latest == now && discarded == old(discarded) && places == old(places)
      ensures forall b :: b in blocks ==> b in old(blocks)
      ensures blocks != [] ==> genStarted <= now < genStarted + period
      ensures genStarted != old(genStarted) ==> genCount == 0 && nextCap == old(genCount) + old(genCount) / 4
    {
      hide Separate, Remembers, Total, Sized, TwoGenerations;
      var elapsed := now - genStarted;
      if blocks == [] || elapsed >= 2 * period {
        Fewer(blocks, [], minCap, maxCap);
        ForgottenByThen(blocks, [], discarded, places, hash, period, genStarted, latest, now);
        EmptyTotal();
        OneGeneration([], genStarted - period, period);
        blocks, capacity, latest := [], 0, now;
      } else if elapsed >= period {
        NextGeneration(now);
      } else {
        ForgottenByThen(blocks, blocks, discarded, places, hash, period, genStarted, latest, now);
        latest := now;
      }
    }

    /** Begins the next generation: the current one becomes the one before, and that is dropped. */
    method NextGeneration(now: int)
      requires Valid() && now >= latest && genStarted + period <= now < genStarted + 2 * period
      modifies this
      ensures Valid() && latest == now && discarded == old(discarded) && places == old(places)
      ensures forall b :: b in blocks ==> b in old(blocks)
      ensures genStarted == old(genStarted) + period && genCount == 0 && nextCap == old(genCount) + old(genCount) / 4
    {
      hide Separate, Remembers, Total, Sized, TwoGenerations;
      var prev := genStarted;
      var kept, size := KeepGeneration(prev);
      Fewer(blocks, kept, minCap, maxCap);
      ForgottenByThen(blocks, kept, discarded, places, hash, period, prev, latest, now);
      OneGeneration(kept, prev, period);
      blocks, capacity := kept, size;
      nextCap := genCount + genCount / 4;
      genStarted, genCount, latest := prev + period, 0, now;
    }

    /** Looks through all blocks, newest first. */
    method TestAll(h: Hash) returns (maybe: bool)
      requires Separate(blocks)
      ensures !maybe ==> forall b :: b in blocks ==> h !in b.adds
      ensures maybe ==> exists b :: b in blocks && b.Positive(h)
    {
      var i := |blocks|;
      while i > 0
        invariant 0 <= i <= |blocks| && forall j :: i <= j < |blocks| ==> h !in blocks[j].adds
      {
        i := i - 1;
        assert blocks[i] in blocks;
        var hit := blocks[i].Test(h);
        if hit {
          return true;
        }
      }
      return false;
    }

    /** Drops as many of the oldest blocks as a new one needs, but never the newest: that and the new one fit. */
    method DropOldest(cap: nat) returns (ghost dropped: nat)
      requires Sized(blocks, minCap, maxCap) && capacity == Total(blocks) && cap <= maxCap
      modifies this`blocks, this`capacity, this`discarded
      ensures capacity == Total(blocks) && capacity + cap <= 2 * maxCap
      ensures dropped <= |old(blocks)| && blocks == old(blocks)[dropped..]
      ensures old(blocks) != [] ==> dropped < |old(blocks)|
      ensures discarded == old(discarded) + set b | b in old(blocks)[..dropped]
    {
      dropped := 0;
      while blocks != [] && capacity + cap > 2 * maxCap
        invariant dropped <= |old(blocks)| && blocks == old(blocks)[dropped..] && capacity == Total(blocks)
        invariant discarded == old(discarded) + set b | b in old(blocks)[..dropped]
        invariant old(blocks) != [] ==> dropped < |old(blocks)|
        decreases |blocks|
      {
        SizedSuffix(old(blocks), dropped, minCap, maxCap);
        TwoAtLeast(blocks, minCap, maxCap, cap);
        discarded := discarded + {blocks[0]};
        assert old(blocks)[..dropped + 1] == old(blocks)[..dropped] + [blocks[0]];
        capacity, blocks := capacity - blocks[0].capacity, blocks[1..];
        dropped := dropped + 1;
      }
      assert blocks == [] ==> Total(blocks) == 0;
    }

    /** Adds a block of the current generation. */
    method Append(cap: nat) returns (block: Block, ghost dropped: nat)
      requires Valid() && minCap <= cap <= maxCap && genStarted <= latest
      modifies this`blocks, this`capacity, this`discarded
      ensures Valid()
      ensures fresh(block) && fresh(block.bits) && block.capacity == cap && block.gen == genStarted && block.count == 0
      ensures dropped <= |old(blocks)| && blocks == old(blocks)[dropped..] + [block]
      ensures old(blocks) != [] ==> dropped < |old(blocks)|
      ensures discarded == old(discarded) + set b | b in old(blocks)[..dropped]
    {
      hide Separate, Remembers, Total, Sized, TwoGenerations;
      ghost var bs := blocks;
      dropped := DropOldest(cap);
      Suffix(bs, dropped, minCap, maxCap, genStarted, period);
      RemembersSuffix(bs, dropped, old(discarded), places, hash, period, latest);
      block := new Block(cap, bitsFor(cap), probesFor(cap), genStarted);
      TotalSnoc(blocks, block);
      SeparateMore(blocks, block);
      ShapeMore(blocks, block, minCap, maxCap, genStarted, period);
      RemembersMore(blocks, block, discarded, places, hash, period, latest);
      blocks, capacity := blocks + [block], capacity + cap;
    }

    /** Writes a salt into a block of the chain that has room and covers the time. */
    method Write(cur: Block, key: string, now: int)
      requires Valid() && cur in blocks && cur.count < cur.capacity && cur.gen <= now < cur.gen + period && latest == now
      modifies this`places, this`genCount, cur, cur.bits
      ensures Valid() && places == old(places)[key := Place(cur, now)] && genCount == old(genCount) + 1
    {
      hide Total, Sized, TwoGenerations;
      cur.Add(hash(key));
      genCount := genCount + 1;
      places := places[key := Place(cur, now)];
    }

    /** The block to write to: the last one of the current generation, or a new one if there is none or it is full. */
    method Current(now: int) returns (cur: Block)
      requires Valid() && latest == now && (blocks != [] ==> genStarted <= now < genStarted + period)
      modifies this`blocks, this`capacity, this`discarded, this`genStarted, this`genCount, this`nextCap
      ensures Valid() && genStarted <= now < genStarted + period
      ensures cur in blocks && cur.gen == genStarted && cur.count < cur.capacity
      ensures forall b :: b in blocks ==> b in old(blocks) || (fresh(b) && fresh(b.bits))
      ensures old(blocks) != [] ==> old(blocks)[|old(blocks)| - 1] in blocks
      ensures forall b :: b in discarded ==> b in old(discarded) || b in old(blocks)
      ensures cur !in old(blocks) ==>
                var n := |old(blocks)|;
                var next := if n == 0 then minCap
                            else if old(blocks)[n - 1].gen == genStarted then 2 * old(blocks)[n - 1].capacity
                            else old(nextCap);
                cur.capacity == if next > maxCap then maxCap else if next < minCap then minCap else next
      ensures cur in old(blocks) <==>
              old(blocks != [] && blocks[|blocks| - 1].gen == genStarted && blocks[|blocks| - 1].count < blocks[|blocks| - 1].capacity)
    {
      if blocks == [] {
        genStarted, genCount, nextCap := now, 0, minCap;
      }
      var n := |blocks|;
      if n > 0 && blocks[n - 1].gen == genStarted && blocks[n - 1].count < blocks[n - 1].capacity {
        return blocks[n - 1];
      }
      var next := if n > 0 && blocks[n - 1].gen == genStarted then 2 * blocks[n - 1].capacity else nextCap;
      hide Shaped, Separate, Remembers;
      ghost var dropped;
      cur, dropped := Append(Max2(minCap, Min2(next, maxCap)));
      assert old(blocks) != [] ==> old(blocks)[dropped..][|old(blocks)| - 1 - dropped] == old(blocks)[|old(blocks)| - 1];
    }

    /** Whether some block may have the salt, once the generations are up to date. */
    method Lookup(key: string, now: int) returns (hit: bool)
      requires Valid() && now >= latest
      modifies this
      ensures Valid() && latest == now && discarded == old(discarded) && places == old(places)
      ensures forall b :: b in blocks ==> b in old(blocks)
      ensures blocks != [] ==> genStarted <= now < genStarted + period
      ensures hit ==> exists b :: b in blocks && b in old(blocks) && b.Positive(hash(key))
      ensures !hit && key in places && places[key].block !in discarded ==> now >= places[key].at + period
    {
      Expire(now);
      hit := TestAll(hash(key));
      hide Shaped, Separate;
    }

    /**
     Whether a salt is new; a new one is remembered. Unless the block it went into was dropped for space, a salt is
     refused for a whole period after it was accepted, through changes of generation and growth.
     */
    method Check(key: string, now: int) returns (isNew: bool)
      requires Valid() && now >= latest
      modifies this, blocks, set b | b in blocks :: b.bits
      ensures Valid() && latest == now
      ensures key in old(places) && now < old(places)[key].at + period && old(places)[key].block !in old(discarded) ==>
                !isNew
      ensures old(blocks) == [] ==> isNew
      ensures !isNew ==> places == old(places) && discarded == old(discarded)
      ensures forall b :: b in discarded ==> b in old(discarded) || b in old(blocks)
      ensures !isNew ==> exists b :: b in blocks && b in old(blocks) && b.Positive(hash(key))
      ensures isNew ==> key in places && places[key].at == now && places[key].block in blocks
      ensures isNew ==> places - {key} == old(places) - {key}
      ensures forall b :: b in blocks ==> b in old(blocks) || (fresh(b) && fresh(b.bits))
    {
      hide Shaped, Separate, Remembers;
      var hit := Lookup(key, now);
      if hit {
        return false;
      }
      var cur := Current(now);
      Write(cur, key, now);
      isNew := true;
    }
  }

  lemma {:induction false} Suffix(bs: seq<Block>, n: nat, minCap: nat, maxCap: nat, started: int, period: int)
    requires n <= |bs| && Separate(bs) && Sized(bs, minCap, maxCap) && TwoGenerations(bs, started, period)
    ensures Separate(bs[n..]) && Sized(bs[n..], minCap, maxCap) && TwoGenerations(bs[n..], started, period)
  {
    Fewer(bs, bs[n..], minCap, maxCap);
  }

  lemma {:induction false} SeparateMore(bs: seq<Block>, block: Block)
    requires Separate(bs) && block.Valid() && forall b :: b in bs ==> b.bits != block.bits
    ensures Separate(bs + [block])
  {
  }

  lemma {:induction false} ShapeMore(bs: seq<Block>, block: Block, minCap: nat, maxCap: nat, started: int, period: int)
    requires Sized(bs, minCap, maxCap) && TwoGenerations(bs, started, period) && period > 0
    requires minCap <= block.capacity <= maxCap && block.gen == started
    ensures Sized(bs + [block], minCap, maxCap) && TwoGenerations(bs + [block], started, period)
  {
  }

  lemma {:induction false} RemembersMore(bs: seq<Block>, block: Block, dropped: set<Block>, places: map<string, Place>,
                                         hash: string -> Hash, period: int, now: int)
    requires Remembers(bs, dropped, places, hash, period, now)
    ensures Remembers(bs + [block], dropped, places, hash, period, now)
  {
  }

  /** Only what was in the dropped blocks is forgotten with them. */
  lemma {:induction false} RemembersSuffix(bs: seq<Block>, n: nat, dropped: set<Block>, places: map<string, Place>,
                                           hash: string -> Hash, period: int, now: int)
    requires n <= |bs| && Remembers(bs, dropped, places, hash, period, now)
    ensures Remembers(bs[n..], dropped + (set b | b in bs[..n]), places, hash, period, now)
  {
    assert bs == bs[..n] + bs[n..];
  }

  lemma {:induction false} EmptyTotal()
    ensures Total([]) == 0
  {
  }

  /** Fewer blocks are as good as the ones they are from. */
  lemma {:induction false} Fewer(bs: seq<Block>, kept: seq<Block>, minCap: nat, maxCap: nat)
    requires Separate(bs) && Sized(bs, minCap, maxCap) && forall i :: 0 <= i < |kept| ==> kept[i] in bs
    ensures Separate(kept) && Sized(kept, minCap, maxCap)
  {
    assert forall b :: b in kept ==> b in bs;
  }

  lemma {:induction false} OneGeneration(bs: seq<Block>, started: int, period: int)
    requires forall i :: 0 <= i < |bs| ==> bs[i].gen == started
    ensures TwoGenerations(bs, started + period, period)
  {
  }

  /** Whatever a change of generation drops was accepted a period ago or more. */
  lemma {:induction false} ForgottenByThen(bs: seq<Block>, kept: seq<Block>, dropped: set<Block>, places: map<string, Place>,
    hash: string -> Hash, period: int, started: int, before: int, now: int)
    requires period > 0 && before <= now && TwoGenerations(bs, started, period)
    requires || kept == bs || bs == [] || now >= started + 2 * period
             || (now >= started + period && forall b :: b in bs && b.gen == started ==> b in kept)
    ensures Remembers(bs, dropped, places, hash, period, before) ==> Remembers(kept, dropped, places, hash, period, now)
  {
  }
}
