/** A `sync.Pool` whose `New` function is `make([]byte, size)`, the sub-pool
    that every pool in this package holds for one block size. The runtime's
    pool is modelled as a deterministic LIFO freelist. */
module FreeLists {
  import opened Blocks

  class FreeList {
    /** The length that `New` allocates: the captured `blockSize`. */
    const size: int
    /** The idle blocks, most recently returned last. */
    var blocks: seq<Block>

    /** `&sync.Pool{New: func() interface{} { return make([]byte, size) }}`. */
    constructor (size: int)
      ensures this.size == size && blocks == []
    {
      this.size := size;
      blocks := [];
    }

    /** `pool.Get().([]byte)`: the last idle block, else a fresh one. */
    method Get() returns (b: Block)
      requires blocks != [] || size >= 0
      modifies this
      ensures (b, blocks) == Take(old(blocks), size)
      ensures old(blocks) == [] ==> |b.data| == size && b.cap == size
    {
      if blocks == [] {
        b := Fresh(size);
      } else {
        b := blocks[|blocks| - 1];
        blocks := blocks[..|blocks| - 1];
      }
    }

    /** `pool.Put(block)`: any block is accepted, with no check of its size. */
    method Put(b: Block)
      modifies this
      ensures blocks == old(blocks) + [b]
    {
      blocks := blocks + [b];
    }
  }
}
