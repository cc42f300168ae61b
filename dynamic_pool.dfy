/** `DynamicMemoryPool`: one map from block size to sub-pool, created from a
    list of sizes and grown lazily by `Get`. */
module DynamicPool {
  import opened Blocks
  import opened FreeLists
  import opened PoolMaps

  class DynamicMemoryPool {
    var pools: map<int, FreeList>
    /** The idle blocks of every sub-pool, by size. */
    ghost var Contents: Pools
    ghost var Repr: set<object>

    ghost predicate Valid()
      reads this, Repr
    {
      && this in Repr
      && pools.Keys == Contents.Keys
      && (forall k :: k in pools ==> pools[k] in Repr)
      && (forall k :: k in pools ==> pools[k].size == k && pools[k].blocks == Contents[k])
      && Filed(Contents)
    }

    /** `NewDynamicMemoryPool(sizes)`: an empty sub-pool for every listed size. */
    constructor (sizes: seq<int>)
      ensures Valid() && fresh(Repr)
      ensures Contents == Listed(sizes)
    {
      pools := map[];
      Contents := map[];
      Repr := {this};
      new;
      for j := 0 to |sizes|
        invariant this in Repr && fresh(Repr)
        invariant pools.Keys == Contents.Keys
        invariant forall k :: k in pools ==> pools[k] in Repr
        invariant forall k :: k in pools ==> pools[k].size == k && pools[k].blocks == []
        invariant Contents == Listed(sizes[..j])
      {
        var pool := new FreeList(sizes[j]);
        pools := pools[sizes[j] := pool];
        Repr := Repr + {pool};
        ListedSnoc(sizes[..j], sizes[j]);
        assert sizes[..j + 1] == sizes[..j] + [sizes[j]];
        Contents := Contents[sizes[j] := []];
      }
      assert sizes[..|sizes|] == sizes;
    }

    /** `Get(size)`: look the sub-pool up, create it when it is missing, and
        take a block from it. The block has capacity `size`. */
    method Get(size: int) returns (block: Block)
      requires Valid() && size >= 0
      modifies Repr
      ensures Valid() && fresh(Repr - old(Repr))
      ensures (Contents, block) == GetFrom(old(Contents), size)
      ensures block.cap == size
      ensures forall k :: k in old(pools) ==> k in pools && pools[k] == old(pools[k])
    {
      GetFromFiled(Contents, size);
      var pool: FreeList;
      if size in pools {
        pool := pools[size];
      } else {
        pool := new FreeList(size);
        pools := pools[size := pool];
        Repr := Repr + {pool};
      }
      ghost var before := Contents;
      block := pool.Get();
      Contents := GetFrom(before, size).0;
      forall k | k in pools && k != size
        ensures pools[k].blocks == Contents[k]
      {
        assert pools[k].size != pool.size;
      }
    }

    /** `Put(block)`: push the block onto the sub-pool for `cap(block)` when
        there is one; otherwise the block is dropped (the source prints a
        warning) and nothing changes. No key is ever created. */
    method Put(block: Block)
      requires Valid()
      modifies Repr
      ensures Valid() && Repr == old(Repr)
      ensures Contents == PutInto(old(Contents), block)
      ensures pools == old(pools)
      ensures block.cap !in old(pools) ==> Contents == old(Contents)
    {
      PutIntoFiled(Contents, block);
      var size := block.cap;
      if size in pools {
        var pool := pools[size];
        pool.Put(block);
        Contents := PutInto(Contents, block);
        forall k | k in pools && k != size
          ensures pools[k].blocks == Contents[k]
        {
          assert pools[k].size != pool.size;
        }
      }
    }
  }

  /** One round of the test for a listed size whose sub-pool is empty:
      `Get`, `Put`, `Get` gives two blocks of that length and leaves the
      idle blocks as they were. */
  method GetPutGetOne(pool: DynamicMemoryPool, size: int) returns (a: int, b: int)
    requires pool.Valid() && size >= 0
    requires size in pool.Contents && pool.Contents[size] == []
    modifies pool.Repr
    ensures pool.Valid() && fresh(pool.Repr - old(pool.Repr))
    ensures pool.Contents == old(pool.Contents)
    ensures a == size && b == size
  {
    ghost var listed := pool.Contents;
    var block := pool.Get(size);
    assert block == Fresh(size);
    assert pool.Contents == listed;
    a := |block.data|;
    pool.Put(block);
    PutThenGet(listed, block);
    var again := pool.Get(size);
    assert again == block;
    b := |again.data|;
  }

  /** The test scenario of `dynamic_memory_pool_test.go` (which runs it for
      512, 1024 and 4096): build a pool for the sizes, then for each size
      `Get`, `Put` and `Get` again. Returns the lengths of the two blocks
      obtained for each size: both are the size. */
  method GetPutGetEachSize(sizes: seq<int>) returns (first: seq<int>, second: seq<int>)
    requires forall j :: 0 <= j < |sizes| ==> sizes[j] >= 0
    ensures first == sizes && second == sizes
  {
    var pool := new DynamicMemoryPool(sizes);
    first, second := [], [];
    for j := 0 to |sizes|
      invariant pool.Valid() && fresh(pool.Repr)
      invariant pool.Contents == Listed(sizes)
      invariant first == sizes[..j] && second == sizes[..j]
    {
      assert sizes[..j + 1] == sizes[..j] + [sizes[j]];
      var a, b := GetPutGetOne(pool, sizes[j]);
      first := first + [a];
      second := second + [b];
    }
    assert sizes[..|sizes|] == sizes;
  }
}
