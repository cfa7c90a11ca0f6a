/**
 Reading byte ranges of immutable files through a shared cache of fixed-size blocks.

 Other readers may insert and evict blocks at any time. The contents of the cache at each
 access of this reader are therefore given by an arbitrary `env`, of which only coherence
 is known: a cached block holds the bytes of its file.
 */
module BlockCaching {
  import opened Basics

  type Byte = b: int | 0 <= b < 256

  type Path = string

  datatype Key = Key(path: Path, block: nat)

  datatype Range = Range(start: nat, end: nat)

  type Contents = map<Key, seq<Byte>>

  function Min(a: nat, b: nat): nat {
    if a < b then a else b
  }

  /** The first byte of a block: the product of index and block size. */
  function BlockStart(i: nat, size: nat): nat {
    if i == 0 then 0 else BlockStart(i - 1, size) + size
  }

  /** The block that holds a byte: the quotient of offset and block size. */
  function BlockOf(offset: nat, size: nat): (i: nat)
    requires size > 0
    ensures BlockStart(i, size) <= offset < BlockStart(i, size) + size
  {
    if offset < size then 0 else 1 + BlockOf(offset - size, size)
  }

  lemma {:induction false} BlockStartIsProduct(i: nat, size: nat)
    ensures BlockStart(i, size) == i * size
  {
    if i > 0 {
      BlockStartIsProduct(i - 1, size);
      assert i * size == (i - 1) * size + size;
    }
  }

  lemma BlockOfIsQuotient(offset: nat, size: nat)
    requires size > 0
    ensures BlockOf(offset, size) == offset / size
  {
    var i := BlockOf(offset, size);
    BlockStartIsProduct(i, size);
    QuotientUnique(offset, size, i);
  }

  lemma QuotientUnique(offset: nat, size: nat, i: nat)
    requires i * size <= offset < i * size + size
    ensures offset / size == i
  {
    var q := offset / size;
    assert offset == size * q + offset % size;
    if q < i {
      NextProduct(q, i, size);
    } else if i < q {
      NextProduct(i, q, size);
    }
  }

  lemma NextProduct(a: nat, b: nat, size: nat)
    requires a < b
    ensures a * size + size <= b * size
  {
    BlockStartMonotone(a, b, size);
    BlockStartIsProduct(a, size);
    BlockStartIsProduct(b, size);
  }

  lemma {:induction false} BlockStartMonotone(a: nat, b: nat, size: nat)
    requires a <= b
    ensures BlockStart(a, size) <= BlockStart(b, size)
    ensures a < b ==> BlockStart(a, size) + size <= BlockStart(b, size)
  {
    if a < b {
      BlockStartMonotone(a, b - 1, size);
    }
  }

  lemma BlockOfMonotone(a: nat, b: nat, size: nat)
    requires size > 0 && a <= b
    ensures BlockOf(a, size) <= BlockOf(b, size)
  {
    if BlockOf(b, size) < BlockOf(a, size) {
      BlockStartMonotone(BlockOf(b, size), BlockOf(a, size), size);
    }
  }

  function BlocksBetween(a: nat, b: nat): (r: set<nat>)
    ensures forall i: nat :: i in r <==> a <= i < b
    decreases b
  {
    if b <= a then {} else BlocksBetween(a, b - 1) + {b - 1}
  }

  /** The bytes of a block of a file; the last one may be short. */
  function Block(file: seq<Byte>, size: nat, i: nat): (r: seq<Byte>)
    requires BlockStart(i, size) <= |file|
    ensures |r| == Min(size, |file| - BlockStart(i, size))
  {
    file[BlockStart(i, size)..Min(BlockStart(i, size) + size, |file|)]
  }

  ghost predicate IsBlock(file: seq<Byte>, size: nat, i: nat, bytes: seq<Byte>) {
    BlockStart(i, size) < |file| && bytes == Block(file, size, i)
  }

  ghost predicate Coherent(files: map<Path, seq<Byte>>, size: nat, contents: Contents) {
    forall k | k in contents :: k.path in files && IsBlock(files[k.path], size, k.block, contents[k])
  }

  /** A bounded cache that may evict any blocks when one is inserted. */
  class BlockCache {
    const blockSize: nat
    const capacity: nat
    var contents: Contents

    constructor (blockSize: nat, capacity: nat)
      ensures this.blockSize == blockSize && this.capacity == capacity && contents == map[]
    {
      this.blockSize, this.capacity, contents := blockSize, capacity, map[];
    }

    method Get(path: Path, block: nat) returns (r: Option<seq<Byte>>)
      ensures r == if Key(path, block) in contents then Some(contents[Key(path, block)]) else None
    {
      r := if Key(path, block) in contents then Some(contents[Key(path, block)]) else None;
    }

    /** Inserts a block and evicts arbitrary ones until the capacity is respected. */
    method Insert(path: Path, block: nat, bytes: seq<Byte>)
      modifies this
      ensures forall k | k in contents ::
                k in old(contents)[Key(path, block) := bytes]
                && contents[k] == old(contents)[Key(path, block) := bytes][k]
      ensures |contents| <= capacity
    {
      contents := contents[Key(path, block) := bytes];
      while |contents| > capacity
        invariant forall k | k in contents ::
                    k in old(contents)[Key(path, block) := bytes]
                    && contents[k] == old(contents)[Key(path, block) := bytes][k]
        decreases |contents|
      {
        var victim :| victim in contents;
        assert |contents.Keys - {victim}| == |contents.Keys| - 1;
        assert (contents - {victim}).Keys == contents.Keys - {victim};
        contents := contents - {victim};
      }
    }

    /** Other readers have been at work. */
    method Interfere(others: Contents)
      modifies this
      ensures contents == others
    {
      contents := others;
    }
  }

  ghost predicate HoldsBlocks(file: seq<Byte>, size: nat, blocks: map<nat, seq<Byte>>) {
    forall i | i in blocks :: IsBlock(file, size, i, blocks[i])
  }

  ghost predicate CoversRange(size: nat, blocks: set<nat>, range: Range)
    requires size > 0
  {
    range.start < range.end ==>
      forall i :: BlockOf(range.start, size) <= i <= BlockOf(range.end - 1, size) ==> i in blocks
  }

  /** The blocks of a range start before it ends and end after it starts. */
  lemma BlockInRange(size: nat, range: Range, i: nat)
    requires size > 0 && range.start < range.end
    requires BlockOf(range.start, size) <= i <= BlockOf(range.end - 1, size)
    ensures BlockStart(i, size) < range.end && range.start < BlockStart(i, size) + size
  {
    BlockStartMonotone(BlockOf(range.start, size), i, size);
    BlockStartMonotone(i, BlockOf(range.end - 1, size), size);
  }

  /** An offset moved into a range. */
  function Clamp(offset: nat, range: Range): (r: nat)
    requires range.start < range.end
    ensures range.start <= r <= range.end
  {
    if offset < range.start then range.start else Min(offset, range.end)
  }

  lemma SliceOfSlice(s: seq<Byte>, lo: nat, hi: nat, a: nat, b: nat)
    requires a <= b <= hi - lo && hi <= |s|
    ensures s[lo..hi][a..b] == s[lo + a..lo + b]
  {
    var r := s[lo..hi][a..b];
    assert forall k :: 0 <= k < |r| ==> r[k] == s[lo + a + k];
  }

  /** The bytes of a range that lie in the block starting at `blockStart`. */
  method PartOfBlock(block: seq<Byte>, blockStart: nat, range: Range, size: nat, ghost file: seq<Byte>)
    returns (r: seq<Byte>)
    requires range.start < range.end <= |file| && blockStart < range.end && range.start < blockStart + size
    requires block == file[blockStart..Min(blockStart + size, |file|)]
    ensures r == file[Clamp(blockStart, range)..Clamp(blockStart + size, range)]
  {
    var sliceStart: nat := if range.start > blockStart then range.start - blockStart else 0;
    var sliceEnd: nat := if blockStart + size > range.end then range.end - blockStart else |block|;
    SliceOfSlice(file, blockStart, Min(blockStart + size, |file|), sliceStart, Min(sliceEnd, |block|));
    r := block[sliceStart..Min(sliceEnd, |block|)];
  }

  /** The bytes of a range that lies in the block starting at `blockStart`. */
  method SliceBlock(block: seq<Byte>, blockStart: nat, range: Range, size: nat, ghost file: seq<Byte>)
    returns (r: seq<Byte>)
    requires range.start < range.end <= |file| && blockStart <= range.start && range.end <= blockStart + size
    requires block == file[blockStart..Min(blockStart + size, |file|)]
    ensures r == file[range.start..range.end]
  {
    var sliceStart: nat, sliceEnd: nat := range.start - blockStart, range.end - blockStart;
    SliceOfSlice(file, blockStart, Min(blockStart + size, |file|), sliceStart, Min(sliceEnd, |block|));
    r := block[sliceStart..Min(sliceEnd, |block|)];
  }

  /** Assembles a range from blocks that cover it. */
  method AssembleRange(blocks: map<nat, seq<Byte>>, range: Range, size: nat, ghost file: seq<Byte>)
    returns (r: seq<Byte>)
    requires size > 0 && HoldsBlocks(file, size, blocks) && CoversRange(size, blocks.Keys, range)
    requires range.start < range.end <= |file|
    ensures r == file[range.start..range.end]
  {
    var startBlock: nat, endBlock: nat := BlockOf(range.start, size), BlockOf(range.end - 1, size);
    if startBlock == endBlock {
      r := SliceBlock(blocks[startBlock], BlockStart(startBlock, size), range, size, file);
    } else {
      BlockOfMonotone(range.start, range.end - 1, size);
      r := AssembleBlocks(blocks, range, size, startBlock, endBlock, file);
    }
  }

  lemma ClampMonotone(a: nat, b: nat, range: Range)
    requires range.start < range.end && a <= b
    ensures Clamp(a, range) <= Clamp(b, range)
  {
  }

  lemma JoinSlices(s: seq<Byte>, a: nat, b: nat, c: nat)
    requires a <= b <= c <= |s|
    ensures s[a..b] + s[b..c] == s[a..c]
  {
  }

  method PartAt(blocks: map<nat, seq<Byte>>, range: Range, size: nat, i: nat, ghost file: seq<Byte>)
    returns (r: seq<Byte>)
    requires size > 0 && HoldsBlocks(file, size, blocks) && CoversRange(size, blocks.Keys, range)
    requires range.start < range.end <= |file|
    requires BlockOf(range.start, size) <= i <= BlockOf(range.end - 1, size)
    ensures BlockStart(i, size) <= BlockStart(i + 1, size)
    ensures Clamp(BlockStart(i, size), range) <= Clamp(BlockStart(i + 1, size), range)
    ensures r == file[Clamp(BlockStart(i, size), range)..Clamp(BlockStart(i + 1, size), range)]
  {
    BlockInRange(size, range, i);
    assert IsBlock(file, size, i, blocks[i]);
    r := PartOfBlock(blocks[i], BlockStart(i, size), range, size, file);
  }

  method AssembleBlocks(blocks: map<nat, seq<Byte>>, range: Range, size: nat, startBlock: nat, endBlock: nat,
                        ghost file: seq<Byte>)
    returns (r: seq<Byte>)
    requires size > 0 && HoldsBlocks(file, size, blocks) && CoversRange(size, blocks.Keys, range)
    requires range.start < range.end <= |file|
    requires startBlock == BlockOf(range.start, size) <= endBlock == BlockOf(range.end - 1, size)
    ensures r == file[range.start..range.end]
  {
    r := [];
    for i := startBlock to endBlock + 1
      invariant r == file[range.start..Clamp(BlockStart(i, size), range)]
    {
      var part := PartAt(blocks, range, size, i, file);
      ClampMonotone(BlockStart(i, size), BlockStart(i + 1, size), range);
      JoinSlices(file, range.start, Clamp(BlockStart(i, size), range), Clamp(BlockStart(i + 1, size), range));
      r := r + part;
    }
  }

  /** A reader of one file. The inner reader reads the file directly. */
  class BlockCachedReader {
    const path: Path
    const file: seq<Byte>
    const cache: BlockCache

    constructor (path: Path, file: seq<Byte>, cache: BlockCache)
      ensures this.path == path && this.file == file && this.cache == cache
    {
      this.path, this.file, this.cache := path, file, cache;
    }

    /** The reader's file is known, and whatever other readers leave in the cache is coherent. */
    ghost predicate Sound(files: map<Path, seq<Byte>>, env: nat -> Contents) {
      && cache.blockSize > 0
      && path in files && files[path] == file
      && (forall n :: Coherent(files, cache.blockSize, env(n)))
    }

    ghost predicate IsMissing(i: nat, range: Range) {
      && BlockStart(i, cache.blockSize) < |file|
      && range == Range(BlockStart(i, cache.blockSize), Min(BlockStart(i, cache.blockSize) + cache.blockSize, |file|))
    }

    /** The blocks collected so far are right, and those listed as missing are others. */
    ghost predicate LookedUp(blocks: map<nat, seq<Byte>>, missing: map<nat, Range>) {
      && (forall i | i in blocks :: IsBlock(file, cache.blockSize, i, blocks[i]))
      && (forall i | i in missing :: IsMissing(i, missing[i]))
      && (forall i | i in blocks :: i !in missing)
    }

    /**
     The blocks in the order in which they were looked up, each once: the `n`-th lookup saw
     the contents `env(n)`, and the block is missing exactly if it was not among them.
     */
    ghost predicate Traced(env: nat -> Contents, order: seq<nat>, blocks: map<nat, seq<Byte>>,
                           missing: map<nat, Range>) {
      && Distinct(order)
      && (forall i: nat :: i in order <==> i in blocks || i in missing)
      && (forall n: nat | n < |order| :: order[n] in missing <==> Key(path, order[n]) !in env(n))
    }

    /** Looks up one block that is not known yet. */
    method LookUpBlock(i: nat, env: nat -> Contents, step: nat, blocks0: map<nat, seq<Byte>>,
                       missing0: map<nat, Range>, ghost order: seq<nat>, ghost files: map<Path, seq<Byte>>)
      returns (blocks: map<nat, seq<Byte>>, missing: map<nat, Range>)
      requires Sound(files, env) && LookedUp(blocks0, missing0)
      requires Traced(env, order, blocks0, missing0) && step == |order|
      requires i !in blocks0 && i !in missing0 && BlockStart(i, cache.blockSize) < |file|
      modifies cache
      ensures Coherent(files, cache.blockSize, cache.contents)
      ensures LookedUp(blocks, missing) && Traced(env, order + [i], blocks, missing)
    {
      cache.Interfere(env(step));
      var cached := cache.Get(path, i);
      blocks, missing := blocks0, missing0;
      if cached.Some? {
        assert IsBlock(file, cache.blockSize, i, cached.value);
        blocks := blocks[i := cached.value];
      } else {
        var blockStart := BlockStart(i, cache.blockSize);
        missing := missing[i := Range(blockStart, Min(blockStart + cache.blockSize, |file|))];
      }
      ExtendTrace(env, order, i, blocks0, missing0, blocks, missing);
    }

    lemma ExtendTrace(env: nat -> Contents, order: seq<nat>, i: nat, blocks0: map<nat, seq<Byte>>,
                      missing0: map<nat, Range>, blocks: map<nat, seq<Byte>>, missing: map<nat, Range>)
      requires Traced(env, order, blocks0, missing0) && i !in order
      requires forall j: nat :: j in blocks || j in missing <==> j == i || j in blocks0 || j in missing0
      requires forall j: nat | j != i :: j in missing <==> j in missing0
      requires i in missing <==> Key(path, i) !in env(|order|)
      ensures Traced(env, order + [i], blocks, missing)
    {
      var longer := order + [i];
      forall n: nat | n < |longer| ensures longer[n] in missing <==> Key(path, longer[n]) !in env(n) {
        if n < |order| {
          assert longer[n] == order[n] && order[n] in order;
        }
      }
    }

    /** Looks up one block unless it is known. */
    method LookUpUnlessKnown(i: nat, env: nat -> Contents, step0: nat, blocks0: map<nat, seq<Byte>>,
                             missing0: map<nat, Range>, ghost order0: seq<nat>, ghost files: map<Path, seq<Byte>>)
      returns (blocks: map<nat, seq<Byte>>, missing: map<nat, Range>, step: nat, ghost order: seq<nat>)
      requires Sound(files, env) && LookedUp(blocks0, missing0) && BlockStart(i, cache.blockSize) < |file|
      requires Traced(env, order0, blocks0, missing0) && step0 == |order0|
      requires Coherent(files, cache.blockSize, cache.contents)
      modifies cache
      ensures Coherent(files, cache.blockSize, cache.contents)
      ensures LookedUp(blocks, missing) && Traced(env, order, blocks, missing) && step == |order|
      ensures forall j: nat :: j in order <==> j in order0 || j == i
    {
      blocks, missing, step, order := blocks0, missing0, step0, order0;
      if i !in blocks && i !in missing {
        blocks, missing := LookUpBlock(i, env, step, blocks, missing, order, files);
        step, order := step + 1, order + [i];
      }
    }

    /** Looks up a run of blocks. */
    method LookUpBlocks(startBlock: nat, endBlock: nat, env: nat -> Contents, step0: nat, blocks0: map<nat, seq<Byte>>,
                        missing0: map<nat, Range>, ghost order0: seq<nat>, ghost files: map<Path, seq<Byte>>)
      returns (blocks: map<nat, seq<Byte>>, missing: map<nat, Range>, step: nat, ghost order: seq<nat>)
      requires Sound(files, env) && LookedUp(blocks0, missing0)
      requires Traced(env, order0, blocks0, missing0) && step0 == |order0|
      requires startBlock <= endBlock && BlockStart(endBlock, cache.blockSize) < |file|
      requires Coherent(files, cache.blockSize, cache.contents)
      modifies cache
      ensures Coherent(files, cache.blockSize, cache.contents)
      ensures LookedUp(blocks, missing) && Traced(env, order, blocks, missing) && step == |order|
      ensures forall j: nat :: j in order <==> j in order0 || startBlock <= j <= endBlock
    {
      blocks, missing, step, order := blocks0, missing0, step0, order0;
      for i := startBlock to endBlock + 1
        invariant LookedUp(blocks, missing) && Traced(env, order, blocks, missing) && step == |order|
        invariant forall j: nat :: j in order <==> j in order0 || startBlock <= j < i
        invariant Coherent(files, cache.blockSize, cache.contents)
      {
        BlockStartMonotone(i, endBlock, cache.blockSize);
        blocks, missing, step, order := LookUpUnlessKnown(i, env, step, blocks, missing, order, files);
      }
    }

    /** Looks up the blocks of one range. */
    method LookUp(range: Range, env: nat -> Contents, step0: nat, blocks0: map<nat, seq<Byte>>,
                  missing0: map<nat, Range>, ghost order0: seq<nat>, ghost files: map<Path, seq<Byte>>)
      returns (blocks: map<nat, seq<Byte>>, missing: map<nat, Range>, step: nat, ghost order: seq<nat>)
      requires Sound(files, env) && LookedUp(blocks0, missing0)
      requires Traced(env, order0, blocks0, missing0) && step0 == |order0|
      requires range.start < range.end <= |file|
      requires Coherent(files, cache.blockSize, cache.contents)
      modifies cache
      ensures Coherent(files, cache.blockSize, cache.contents)
      ensures LookedUp(blocks, missing) && Traced(env, order, blocks, missing) && step == |order|
      ensures forall j: nat :: j in order <==> j in order0 || j in RangeBlocks(range)
    {
      var startBlock: nat, endBlock: nat :=
          BlockOf(range.start, cache.blockSize), BlockOf(range.end - 1, cache.blockSize);
      RunOfRange(range);
      blocks, missing, step, order := LookUpBlocks(startBlock, endBlock, env, step0, blocks0, missing0, order0, files);
    }

    /** Looks up the blocks of all ranges. */
    method LookUpRanges(ranges: seq<Range>, env: nat -> Contents, ghost files: map<Path, seq<Byte>>)
      returns (blocks: map<nat, seq<Byte>>, missing: map<nat, Range>, step: nat, ghost order: seq<nat>)
      requires Sound(files, env)
      requires Coherent(files, cache.blockSize, cache.contents)
      requires forall i :: 0 <= i < |ranges| && ranges[i].start < ranges[i].end ==> ranges[i].end <= |file|
      modifies cache
      ensures Coherent(files, cache.blockSize, cache.contents)
      ensures LookedUp(blocks, missing) && Traced(env, order, blocks, missing) && step == |order|
      ensures forall j: nat :: j in order <==> j in NeededBlocks(ranges)
    {
      blocks, missing, step, order := map[], map[], 0, [];
      for n := 0 to |ranges|
        invariant LookedUp(blocks, missing) && Traced(env, order, blocks, missing) && step == |order|
        invariant forall j: nat :: j in order <==> j in NeededBlocks(ranges[..n])
        invariant Coherent(files, cache.blockSize, cache.contents)
      {
        var range := ranges[n];
        NeededNext(ranges, n);
        if range.start < range.end {
          blocks, missing, step, order := LookUp(range, env, step, blocks, missing, order, files);
        }
      }
      assert ranges[..|ranges|] == ranges;
    }

    lemma NeededNext(ranges: seq<Range>, n: nat)
      requires cache.blockSize > 0 && n < |ranges|
      ensures NeededBlocks(ranges[..n + 1])
           == NeededBlocks(ranges[..n]) + if ranges[n].start < ranges[n].end then RangeBlocks(ranges[n]) else {}
    {
      assert ranges[..n + 1][..n] == ranges[..n];
    }

    /** The blocks of a range. */
    function RangeBlocks(range: Range): set<nat>
      requires cache.blockSize > 0 && range.start < range.end
    {
      BlocksBetween(BlockOf(range.start, cache.blockSize), BlockOf(range.end - 1, cache.blockSize) + 1)
    }

    lemma RunOfRange(range: Range)
      requires cache.blockSize > 0 && range.start < range.end <= |file|
      ensures var startBlock, endBlock :=
                BlockOf(range.start, cache.blockSize), BlockOf(range.end - 1, cache.blockSize);
              && startBlock <= endBlock && BlockStart(endBlock, cache.blockSize) < |file|
              && (forall j: nat :: j in RangeBlocks(range) <==> startBlock <= j <= endBlock)
    {
      BlockOfMonotone(range.start, range.end - 1, cache.blockSize);
    }

    lemma NeededOne(range: Range)
      requires cache.blockSize > 0 && range.start < range.end
      ensures NeededBlocks([range]) == RangeBlocks(range)
    {
      assert [range][..0] == [];
    }

    /** The blocks of all ranges. */
    function NeededBlocks(ranges: seq<Range>): set<nat>
      requires cache.blockSize > 0
    {
      if ranges == [] then {}
      else
        NeededBlocks(ranges[..|ranges| - 1])
        + (var last := ranges[|ranges| - 1]; if last.start < last.end then RangeBlocks(last) else {})
    }

    lemma {:induction false} NeededCover(ranges: seq<Range>, i: nat)
      requires cache.blockSize > 0 && i < |ranges|
      ensures CoversRange(cache.blockSize, NeededBlocks(ranges), ranges[i])
    {
      if i < |ranges| - 1 {
        NeededCover(ranges[..|ranges| - 1], i);
      }
    }

    /** Offers a fetched block to the cache, which others may have changed. */
    method OfferBlock(i: nat, bytes: seq<Byte>, others: Contents, ghost files: map<Path, seq<Byte>>)
      requires path in files && IsBlock(files[path], cache.blockSize, i, bytes)
      requires Coherent(files, cache.blockSize, others)
      modifies cache
      ensures Coherent(files, cache.blockSize, cache.contents)
    {
      cache.Interfere(others);
      cache.Insert(path, i, bytes);
    }

    /** Fetches one block. */
    method FetchBlock(i: nat, range: Range, others: Contents, blocks0: map<nat, seq<Byte>>,
                      ghost files: map<Path, seq<Byte>>)
      returns (blocks: map<nat, seq<Byte>>)
      requires path in files && files[path] == file && BlockStart(i, cache.blockSize) < |file|
      requires range == Range(BlockStart(i, cache.blockSize),
                              Min(BlockStart(i, cache.blockSize) + cache.blockSize, |file|))
      requires Coherent(files, cache.blockSize, others) && HoldsBlocks(file, cache.blockSize, blocks0)
      modifies cache
      ensures Coherent(files, cache.blockSize, cache.contents)
      ensures HoldsBlocks(file, cache.blockSize, blocks) && blocks.Keys == blocks0.Keys + {i}
    {
      var bytes := file[range.start..range.end];
      OfferBlock(i, bytes, others, files);
      blocks := blocks0[i := bytes];
    }

    /** Fetches the missing blocks, each once, and offers them to the cache. */
    method FetchMissing(missing: map<nat, Range>, env: nat -> Contents, step0: nat, blocks0: map<nat, seq<Byte>>,
                        ghost files: map<Path, seq<Byte>>)
      returns (blocks: map<nat, seq<Byte>>, fetched: seq<nat>)
      requires Sound(files, env) && LookedUp(blocks0, missing)
      requires Coherent(files, cache.blockSize, cache.contents)
      modifies cache
      ensures Coherent(files, cache.blockSize, cache.contents)
      ensures HoldsBlocks(file, cache.blockSize, blocks) && blocks.Keys == blocks0.Keys + missing.Keys
      ensures Distinct(fetched) && ToSet(fetched) == missing.Keys
    {
      blocks, fetched := blocks0, [];
      var rest, step := missing.Keys, step0;
      while rest != {}
        invariant rest <= missing.Keys
        invariant HoldsBlocks(file, cache.blockSize, blocks)
        invariant forall j: nat :: j in blocks <==> j in blocks0 || (j in missing && j !in rest)
        invariant Distinct(fetched) && forall j: nat :: j in ToSet(fetched) <==> j in missing && j !in rest
        invariant Coherent(files, cache.blockSize, cache.contents)
        decreases rest
      {
        var i :| i in rest;
        assert IsMissing(i, missing[i]);
        ExtendFetched(fetched, i);
        blocks := FetchBlock(i, missing[i], env(step), blocks, files);
        rest, fetched, step := rest - {i}, fetched + [i], step + 1;
      }
    }

    /**
     The blocks that were needed were looked up once each, the `n`-th one in the contents
     `env(n)`, and exactly those that were not cached then were fetched.
     */
    ghost predicate FetchedWhatWasMissing(env: nat -> Contents, order: seq<nat>, needed: set<nat>, fetched: seq<nat>) {
      && Distinct(order) && ToSet(order) == needed
      && Distinct(fetched) && ToSet(fetched) <= needed
      && (forall n: nat | n < |order| :: order[n] in fetched <==> Key(path, order[n]) !in env(n))
    }

    /**
     Reads ranges: exactly the bytes of the file, whatever other readers do to the cache in
     between. `order` lists the lookups. Each block that its lookup did not find is fetched
     once, and no other block is fetched.
     */
    method GetByteRanges(ranges: seq<Range>, env: nat -> Contents, ghost files: map<Path, seq<Byte>>)
      returns (r: seq<seq<Byte>>, fetched: seq<nat>, ghost order: seq<nat>)
      requires Sound(files, env)
      requires Coherent(files, cache.blockSize, cache.contents)
      requires forall i :: 0 <= i < |ranges| && ranges[i].start < ranges[i].end ==> ranges[i].end <= |file|
      modifies cache
      ensures Coherent(files, cache.blockSize, cache.contents)
      ensures |r| == |ranges|
      ensures forall i :: 0 <= i < |ranges| ==>
                r[i] == if ranges[i].start < ranges[i].end then file[ranges[i].start..ranges[i].end] else []
      ensures FetchedWhatWasMissing(env, order, NeededBlocks(ranges), fetched)
    {
      var blocks, missing, step;
      blocks, missing, step, order := LookUpRanges(ranges, env, files);
      fetched := [];
      LookedUpAll(env, order, blocks, missing, NeededBlocks(ranges));
      if missing != map[] {
        blocks, fetched := FetchMissing(missing, env, step, blocks, files);
      }
      FetchedIsMissing(env, order, missing, NeededBlocks(ranges), fetched);
      r := AssembleAll(blocks, ranges);
    }

    lemma LookedUpAll(env: nat -> Contents, order: seq<nat>, blocks: map<nat, seq<Byte>>, missing: map<nat, Range>,
                      needed: set<nat>)
      requires LookedUp(blocks, missing) && Traced(env, order, blocks, missing)
      requires forall j: nat :: j in order <==> j in needed
      ensures HoldsBlocks(file, cache.blockSize, blocks) && blocks.Keys + missing.Keys == needed
      ensures ToSet(order) == needed && missing.Keys <= needed
      ensures forall n: nat | n < |order| :: order[n] in missing.Keys <==> Key(path, order[n]) !in env(n)
    {
      assert forall i: nat :: i in needed <==> i in order;
    }

    lemma FetchedIsMissing(env: nat -> Contents, order: seq<nat>, missing: map<nat, Range>, needed: set<nat>,
                           fetched: seq<nat>)
      requires Distinct(order) && ToSet(order) == needed && missing.Keys <= needed
      requires forall n: nat | n < |order| :: order[n] in missing.Keys <==> Key(path, order[n]) !in env(n)
      requires Distinct(fetched) && ToSet(fetched) == missing.Keys
      ensures FetchedWhatWasMissing(env, order, needed, fetched)
    {
      assert forall i :: i in fetched <==> i in ToSet(fetched);
    }

    /** Assembles all ranges from blocks held locally. */
    method AssembleAll(blocks: map<nat, seq<Byte>>, ranges: seq<Range>) returns (r: seq<seq<Byte>>)
      requires cache.blockSize > 0 && HoldsBlocks(file, cache.blockSize, blocks) && blocks.Keys == NeededBlocks(ranges)
      requires forall i :: 0 <= i < |ranges| && ranges[i].start < ranges[i].end ==> ranges[i].end <= |file|
      ensures |r| == |ranges|
      ensures forall i :: 0 <= i < |ranges| ==>
                r[i] == if ranges[i].start < ranges[i].end then file[ranges[i].start..ranges[i].end] else []
    {
      r := [];
      for n := 0 to |ranges|
        invariant |r| == n
        invariant forall i :: 0 <= i < n ==>
                    r[i] == if ranges[i].start < ranges[i].end then file[ranges[i].start..ranges[i].end] else []
      {
        NeededCover(ranges, n);
        var bytes := [];
        if ranges[n].start < ranges[n].end {
          bytes := AssembleRange(blocks, ranges[n], cache.blockSize, file);
        }
        r := r + [bytes];
      }
    }

    /** Reads one range, by a direct path if it lies within one block. */
    method GetBytes(range: Range, env: nat -> Contents, ghost files: map<Path, seq<Byte>>)
      returns (r: seq<Byte>, fetched: seq<nat>, ghost order: seq<nat>)
      requires Sound(files, env)
      requires Coherent(files, cache.blockSize, cache.contents)
      requires range.start < range.end ==> range.end <= |file|
      modifies cache
      ensures Coherent(files, cache.blockSize, cache.contents)
      ensures r == if range.start < range.end then file[range.start..range.end] else []
      ensures FetchedWhatWasMissing(env, order, if range.start < range.end then RangeBlocks(range) else {}, fetched)
    {
      if range.start >= range.end {
        return [], [], [];
      }
      if BlockOf(range.start, cache.blockSize) == BlockOf(range.end - 1, cache.blockSize) {
        r, fetched, order := GetFromBlock(range, BlockOf(range.start, cache.blockSize), env, files);
      } else {
        var bytes;
        bytes, fetched, order := GetByteRanges([range], env, files);
        NeededOne(range);
        r := bytes[0];
      }
    }

    /** Reads a range within one block. */
    method GetFromBlock(range: Range, i: nat, env: nat -> Contents, ghost files: map<Path, seq<Byte>>)
      returns (r: seq<Byte>, fetched: seq<nat>, ghost order: seq<nat>)
      requires Sound(files, env) && range.start < range.end <= |file|
      requires i == BlockOf(range.start, cache.blockSize) == BlockOf(range.end - 1, cache.blockSize)
      modifies cache
      ensures Coherent(files, cache.blockSize, cache.contents)
      ensures r == file[range.start..range.end]
      ensures FetchedWhatWasMissing(env, order, RangeBlocks(range), fetched)
    {
      RunOfRange(range);
      var block, hit := ReadBlock(i, env, files);
      r := SliceBlock(block, BlockStart(i, cache.blockSize), range, cache.blockSize, file);
      fetched, order := if hit then [] else [i], [i];
      OneLookUp(env, i, RangeBlocks(range), fetched, hit);
    }

    lemma OneLookUp(env: nat -> Contents, i: nat, needed: set<nat>, fetched: seq<nat>, hit: bool)
      requires forall j: nat :: j in needed <==> j == i
      requires fetched == (if hit then [] else [i]) && (hit <==> Key(path, i) in env(0))
      ensures FetchedWhatWasMissing(env, [i], needed, fetched)
    {
      assert ToSet([i]) == needed;
    }

    /** Reads one block, from the cache if possible. */
    method ReadBlock(i: nat, env: nat -> Contents, ghost files: map<Path, seq<Byte>>)
      returns (block: seq<Byte>, hit: bool)
      requires Sound(files, env) && BlockStart(i, cache.blockSize) < |file|
      modifies cache
      ensures Coherent(files, cache.blockSize, cache.contents)
      ensures IsBlock(file, cache.blockSize, i, block)
      ensures hit <==> Key(path, i) in env(0)
    {
      cache.Interfere(env(0));
      var cached := cache.Get(path, i);
      hit := cached.Some?;
      if hit {
        block := cached.value;
      } else {
        var blockStart := BlockStart(i, cache.blockSize);
        block := file[blockStart..Min(blockStart + cache.blockSize, |file|)];
        OfferBlock(i, block, env(1), files);
      }
    }
  }

  lemma ExtendFetched(fetched: seq<nat>, i: nat)
    requires Distinct(fetched) && i !in ToSet(fetched)
    ensures Distinct(fetched + [i]) && ToSet(fetched + [i]) == ToSet(fetched) + {i}
  {
  }
}
