/** Byte blocks as the pools hand them out, and the freelist discipline that
    every pool shares. A Go `[]byte` is modelled by the bytes its length
    covers and by its capacity; the pools key blocks on the capacity. */
module Blocks {

  /** A Go byte slice: `data` is what `len` covers, `cap` is `cap(slice)`.
      A byte is a `bv8`, as in the hashing and the decimal text. */
  datatype Slice = Slice(data: seq<bv8>, cap: nat)

  /** Every Go slice has `len <= cap`. */
  type Block = s: Slice | |s.data| <= s.cap witness Slice([], 0)

  /** `make([]byte, size)`: `size` zero bytes, with capacity `size`. */
  function Fresh(size: nat): (b: Block)
    ensures |b.data| == size && b.cap == size
    ensures forall j :: 0 <= j < size ==> b.data[j] == 0
  {
    Slice(seq(size, _ => 0), size)
  }

  /** `Get` of a `sync.Pool` whose `New` is `make([]byte, size)`, taken as a
      LIFO freelist: the most recently returned block if there is one, else a
      fresh block. `make` panics on a negative size, so a negative size is
      only allowed when a block is waiting. Returns the block and the blocks
      left idle. */
  function Take(idle: seq<Block>, size: int): (r: (Block, seq<Block>))
    requires idle != [] || size >= 0
    ensures idle == [] ==> r.0 == Fresh(size) && r.1 == []
    ensures idle != [] ==> r.1 + [r.0] == idle
  {
    if idle == [] then (Fresh(size), []) else (idle[|idle| - 1], idle[..|idle| - 1])
  }

  /** Taking right after returning a block gives that block back and leaves
      the freelist as it was. */
  lemma TakeAfterPut(idle: seq<Block>, b: Block, size: int)
    ensures Take(idle + [b], size) == (b, idle)
  {
    assert (idle + [b])[..|idle|] == idle;
  }

  /** When every idle block has length `n` (and `n` is the fresh size), the
      block taken has length `n` and so has every block left idle. */
  lemma TakeKeepsLength(idle: seq<Block>, n: nat)
    requires forall j :: 0 <= j < |idle| ==> |idle[j].data| == n
    ensures |Take(idle, n).0.data| == n
    ensures forall j :: 0 <= j < |Take(idle, n).1| ==> |Take(idle, n).1[j].data| == n
  {
  }
}
