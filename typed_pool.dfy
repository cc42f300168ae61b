/** `ConcurrentMemoryPoolWithTypes[T]`: the sharded layout of the concurrent
    pool over pools of `T` values; only its constructor exists. */
module TypedPool {

  /** A `sync.Pool` whose `New` is `new(T)`: the value a fresh object holds
      (Go's zero value of `T`) and the idle objects. */
  datatype ObjectPool<T> = ObjectPool(zero: T, idle: seq<T>)

  class ConcurrentMemoryPoolWithTypes<T> {
    /** `[16]map[int]*sync.Pool`. */
    var shards: seq<map<int, ObjectPool<T>>>

    /** `NewConcurrentMemoryPoolWithTypes[T](sizes)`, with `zero` standing for
        the zero value of `T`: sixteen maps, each with an empty pool for every
        listed size (a repeated size gives one entry, no size gives an empty
        map), and every pool's `New` yields the zero value whatever the size. */
    constructor (sizes: seq<int>, zero: T)
      ensures |shards| == 16
      ensures forall i :: 0 <= i < 16 ==> shards[i].Keys == set k | k in sizes
      ensures forall i, k :: 0 <= i < 16 && k in shards[i] ==> shards[i][k] == ObjectPool(zero, [])
    {
      var filled: seq<map<int, ObjectPool<T>>> := [];
      for i := 0 to 16
        invariant |filled| == i
        invariant forall i' :: 0 <= i' < i ==> filled[i'].Keys == set k | k in sizes
        invariant forall i', k :: 0 <= i' < i && k in filled[i'] ==> filled[i'][k] == ObjectPool(zero, [])
      {
        var shard: map<int, ObjectPool<T>> := map[];
        for j := 0 to |sizes|
          invariant shard.Keys == set k | k in sizes[..j]
          invariant forall k :: k in shard ==> shard[k] == ObjectPool(zero, [])
        {
          assert sizes[..j + 1] == sizes[..j] + [sizes[j]];
          shard := shard[sizes[j] := ObjectPool(zero, [])];
        }
        assert sizes[..|sizes|] == sizes;
        filled := filled + [shard];
      }
      shards := filled;
    }
  }
}
