/** `MemoryPool`: a single `sync.Pool` whose `New` makes blocks of one fixed
    size. `Put` takes any block back, whatever its length or capacity. */
module FixedPool {
  import opened Blocks
  import opened FreeLists

  class MemoryPool {
    /** The `sync.Pool` the struct holds. */
    const pool: FreeList

    /** Every idle block has the length `New` allocates. */
    ghost predicate Uniform()
      reads this, pool
    {
      forall j :: 0 <= j < |pool.blocks| ==> |pool.blocks[j].data| == pool.size
    }

    /** `NewMemoryPool(blockSize)`: an empty pool that allocates `blockSize`
        bytes. */
    constructor (blockSize: int)
      ensures fresh(pool)
      ensures pool.size == blockSize && pool.blocks == []
      ensures Uniform()
    {
      pool := new FreeList(blockSize);
    }

    /** `Get()`: the last block put back, or else `make([]byte, blockSize)`
        (zero bytes, length and capacity `blockSize`). While every idle
        block has length `blockSize`, so has the block returned. */
    method Get() returns (b: Block)
      requires pool.blocks != [] || pool.size >= 0
      modifies pool
      ensures (b, pool.blocks) == Take(old(pool.blocks), pool.size)
      ensures old(pool.blocks) == [] ==> b == Fresh(pool.size)
      ensures old(pool.blocks) != [] ==> |pool.blocks| == |old(pool.blocks)| - 1 && b in old(pool.blocks)
      ensures old(Uniform()) ==> |b.data| == pool.size && Uniform()
    {
      b := pool.Get();
      if old(pool.blocks) != [] {
        assert old(pool.blocks) == pool.blocks + [b];
      }
    }

    /** `Put(block)`: the block joins the idle blocks, with no check. */
    method Put(b: Block)
      modifies pool
      ensures pool.blocks == old(pool.blocks) + [b]
      ensures old(Uniform()) && |b.data| == pool.size ==> Uniform()
    {
      pool.Put(b);
    }
  }

  /** The scenario of `memory_pool_test.go`: a 1 KiB pool, `Get`, `Put` the
      block back, `Get` again. Both blocks are 1024 bytes long, and the
      second is the block that was put back. */
  method GetPutGet() returns (first: Block, second: Block)
    ensures |first.data| == 1024 && |second.data| == 1024
    ensures second == first
  {
    var p := new MemoryPool(1024);
    first := p.Get();
    p.Put(first);
    second := p.Get();
  }
}
