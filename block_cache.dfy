/**
 * The two-map block store of mk.py: `cache` holds blocks read from a device
 * or promoted from the buffer, `buffer` holds blocks written but not yet
 * flushed. Both are keyed by (device, block number).
 */
module BlockCache {
  import opened Common

  datatype BlockKey = BlockKey(device: string, blockNum: int)

  type Block = Bytes

  /** The abstract value of the kernel's `cache` and `buffer` fields. */
  datatype Blocks = Blocks(cache: map<BlockKey, Block>, buffer: map<BlockKey, Block>)

  /**
   * The device manager's `read_from_device`, which reads a real file. It is a
   * parameter here; `None` stands for the `ValueError` it raises for a device
   * that was never registered.
   */
  type Reader = (string, int) -> Option<Block>

  /** A block handed to the device writer by a flush. */
  datatype DeviceWrite = DeviceWrite(key: BlockKey, data: Block)

  /** No key is ever both cached and buffered. */
  predicate Disjoint(b: Blocks) {
    b.cache.Keys !! b.buffer.Keys
  }

  /**
   * `read_block`: a cache hit changes nothing; a buffer hit moves the entry
   * from the buffer into the cache as it is; a miss in both asks the device
   * reader and caches what it returns. `None` is the reader's error, which
   * leaves both maps as they were.
   */
  function Read(b: Blocks, reader: Reader, key: BlockKey): (r: Step<Blocks, Option<Block>>)
    ensures key in b.cache ==> r == Step(b, Some(b.cache[key]))
    ensures key !in b.cache && key in b.buffer ==>
      && r.out == Some(b.buffer[key])
      && r.state.cache == b.cache[key := b.buffer[key]]
      && r.state.buffer.Keys == b.buffer.Keys - {key}
      && (forall k :: k in r.state.buffer ==> r.state.buffer[k] == b.buffer[k])
    ensures key !in b.cache && key !in b.buffer ==>
      && r.out == reader(key.device, key.blockNum)
      && r.state.buffer == b.buffer
      && r.state.cache == (if r.out.Some? then b.cache[key := r.out.value] else b.cache)
    ensures Disjoint(b) ==> Disjoint(r.state)
  {
    if key in b.cache then
      Step(b, Some(b.cache[key]))
    else if key in b.buffer then
      var data := b.buffer[key];
      Step(Blocks(b.cache[key := data], b.buffer - {key}), Some(data))
    else
      match reader(key.device, key.blockNum)
      case Some(data) => Step(Blocks(b.cache[key := data], b.buffer), Some(data))
      case None => Step(b, None)
  }

  /**
   * `write_block`: a cached key is updated in place in the cache (it does not
   * move to the buffer); any other key is set in the buffer.
   */
  function Write(b: Blocks, key: BlockKey, data: Block): (r: Blocks)
    ensures key in b.cache ==> r.cache == b.cache[key := data] && r.buffer == b.buffer
    ensures key !in b.cache ==> r.cache == b.cache && r.buffer == b.buffer[key := data]
    ensures Disjoint(b) ==> Disjoint(r)
  {
    if key in b.cache then
      Blocks(b.cache[key := data], b.buffer)
    else if key in b.buffer then
      Blocks(b.cache, b.buffer[key := data])
    else
      Blocks(b.cache, b.buffer[key := data])
  }

  /**
   * A write followed by a read of the same key returns the written data,
   * whatever was cached or buffered before and whatever the device would say.
   */
  lemma WriteThenRead(b: Blocks, key: BlockKey, data: Block, reader: Reader)
    ensures Read(Write(b, key, data), reader, key).out == Some(data)
  {
  }

  /** A second read of the same key is a cache hit: same data, no further change. */
  lemma ReadTwice(b: Blocks, key: BlockKey, reader: Reader)
    requires Read(b, reader, key).out.Some?
    ensures var first := Read(b, reader, key);
      Read(first.state, reader, key) == first
  {
  }

  /**
   * Reading a buffered block promotes it into the cache as it is: it leaves the
   * buffer, so a later flush no longer hands it to the device writer.
   */
  lemma ReadOfBufferedPromotes(b: Blocks, key: BlockKey, reader: Reader)
    requires key !in b.cache && key in b.buffer
    ensures key !in Read(b, reader, key).state.buffer
    ensures key in Read(b, reader, key).state.cache
    ensures forall ws: seq<DeviceWrite> :: WritesExactly(ws, Read(b, reader, key).state.buffer) ==>
      forall i :: 0 <= i < |ws| ==> ws[i].key != key
  {
  }

  // ---------------------------------------------------------------------
  // Eviction

  /** The eviction score of a block, `data[1]`: its second byte, not a recency counter. */
  function Score(data: Block): int
    requires |data| >= 2
  {
    data[1]
  }

  /** Python's `min` computes the score of every entry, so each cached block needs two bytes. */
  predicate AllScored(cache: map<BlockKey, Block>) {
    forall k :: k in cache ==> |cache[k]| >= 2
  }

  /** `k` is a cached key whose score is minimal among all cached keys. */
  predicate IsLeastScored(cache: map<BlockKey, Block>, k: BlockKey)
    requires AllScored(cache)
  {
    k in cache && forall j :: j in cache ==> Score(cache[k]) <= Score(cache[j])
  }

  /** Among the keys in `keys`, one of least score. */
  lemma {:induction false} LeastScoredAmong(cache: map<BlockKey, Block>, keys: set<BlockKey>)
    returns (k: BlockKey)
    requires AllScored(cache) && keys != {} && keys <= cache.Keys
    ensures k in keys && forall j :: j in keys ==> Score(cache[k]) <= Score(cache[j])
    decreases keys
  {
    var k0 :| k0 in keys;
    if keys == {k0} {
      k := k0;
    } else {
      var k1 := LeastScoredAmong(cache, keys - {k0});
      k := if Score(cache[k0]) <= Score(cache[k1]) then k0 else k1;
    }
  }

  /** A non-empty cache of scorable blocks always has a least-scored key. */
  lemma LeastScoredExists(cache: map<BlockKey, Block>)
    requires AllScored(cache) && cache != map[]
    ensures exists k :: IsLeastScored(cache, k)
  {
    var k := LeastScoredAmong(cache, cache.Keys);
    assert IsLeastScored(cache, k);
  }

  /** What `evict_cache` did: removed a key, or raised because the cache was empty or held a short block. */
  datatype Eviction = Evicted(key: BlockKey) | EmptyCache | ShortBlock

  // ---------------------------------------------------------------------
  // Flushing

  /** `ws` hands every entry of `buffer` to the writer exactly once, with its data. */
  ghost predicate WritesExactly(ws: seq<DeviceWrite>, buffer: map<BlockKey, Block>) {
    && (forall i :: 0 <= i < |ws| ==> ws[i].key in buffer && ws[i].data == buffer[ws[i].key])
    && (forall i, j :: 0 <= i < j < |ws| ==> ws[i].key != ws[j].key)
    && (forall k :: k in buffer ==> exists i :: 0 <= i < |ws| && ws[i].key == k)
  }
}
