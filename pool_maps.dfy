/** The abstract value of a Go `map[int]*sync.Pool` of byte freelists, and the
    lookup-or-create `Get` and put-by-capacity `Put` that the dynamic pool and
    each shard of the concurrent pool perform on it. */
module PoolMaps {
  import opened Blocks

  /** For each block size that has a sub-pool, its idle blocks. */
  type Pools = map<int, seq<Block>>

  /** One empty sub-pool for every listed size; a repeated size gives one. */
  function Listed(sizes: seq<int>): (m: Pools)
    ensures m.Keys == set k | k in sizes
    ensures forall k :: k in m ==> m[k] == []
  {
    map k | k in sizes :: []
  }

  lemma ListedSnoc(sizes: seq<int>, k: int)
    ensures Listed(sizes + [k]) == Listed(sizes)[k := []]
  {
    assert forall x :: x in sizes + [k] <==> x in sizes || x == k;
  }

  /** Every idle block is filed under its own capacity. */
  ghost predicate Filed(m: Pools) {
    forall k, j :: k in m && 0 <= j < |m[k]| ==> m[k][j].cap == k
  }

  /** Every idle block has its full length: `len(block) == cap(block)`. */
  ghost predicate Full(m: Pools) {
    forall k, j :: k in m && 0 <= j < |m[k]| ==> |m[k][j].data| == m[k][j].cap
  }

  /** `Get(size)`: create an empty sub-pool for `size` when there is none,
      then take a block from it. */
  function GetFrom(m: Pools, size: int): (r: (Pools, Block))
    requires size >= 0
    ensures r.0.Keys == m.Keys + {size}
    ensures forall k :: k in m && k != size ==> r.0[k] == m[k]
    ensures size !in m || m[size] == [] ==> r.1 == Fresh(size) && r.0[size] == []
    ensures size in m && m[size] != [] ==> r.0[size] + [r.1] == m[size]
  {
    var idle := if size in m then m[size] else [];
    var (b, rest) := Take(idle, size);
    (m[size := rest], b)
  }

  /** `Put(block)`: file the block under `cap(block)` when a sub-pool for that
      capacity exists; otherwise drop it. */
  function PutInto(m: Pools, b: Block): (r: Pools)
    ensures r.Keys == m.Keys
    ensures b.cap in m ==> r[b.cap] == m[b.cap] + [b]
    ensures forall k :: k in m && k != b.cap ==> r[k] == m[k]
    ensures b.cap !in m ==> r == m
  {
    if b.cap in m then m[b.cap := m[b.cap] + [b]] else m
  }

  /** `Get` returns a block of exactly the requested capacity and keeps every
      idle block filed under its capacity. */
  lemma GetFromFiled(m: Pools, size: int)
    requires Filed(m) && size >= 0
    ensures GetFrom(m, size).1.cap == size
    ensures Filed(GetFrom(m, size).0)
  {
    var r: (Pools, Block) := GetFrom(m, size);
    if size in m && m[size] != [] {
      assert r.1 == m[size][|m[size]| - 1];
    }
    forall k, j | k in r.0 && 0 <= j < |r.0[k]|
      ensures r.0[k][j].cap == k
    {
      if k == size {
        assert r.0[k][j] == m[k][j];
      }
    }
  }

  /** `Put` keeps every idle block filed under its capacity. */
  lemma PutIntoFiled(m: Pools, b: Block)
    requires Filed(m)
    ensures Filed(PutInto(m, b))
  {
    var r: Pools := PutInto(m, b);
    forall k, j | k in r && 0 <= j < |r[k]|
      ensures r[k][j].cap == k
    {
      if k == b.cap && j < |m[k]| {
        assert r[k][j] == m[k][j];
      }
    }
  }

  /** While every idle block is filed under its capacity and has its full
      length, `Get(size)` returns a block of length `size`, and every idle
      block keeps its full length. */
  lemma GetFromFull(m: Pools, size: int)
    requires Filed(m) && Full(m) && size >= 0
    ensures |GetFrom(m, size).1.data| == size
    ensures Full(GetFrom(m, size).0)
  {
    GetFromFiled(m, size);
    var r: (Pools, Block) := GetFrom(m, size);
    if size in m && m[size] != [] {
      assert r.1 == m[size][|m[size]| - 1];
    }
    forall k, j | k in r.0 && 0 <= j < |r.0[k]|
      ensures |r.0[k][j].data| == r.0[k][j].cap
    {
      if k == size {
        assert r.0[k][j] == m[k][j];
      }
    }
  }

  /** Returning a block of full length keeps every idle block at full length. */
  lemma PutIntoFull(m: Pools, b: Block)
    requires Full(m) && |b.data| == b.cap
    ensures Full(PutInto(m, b))
  {
    var r: Pools := PutInto(m, b);
    forall k, j | k in r && 0 <= j < |r[k]|
      ensures |r[k][j].data| == r[k][j].cap
    {
      if k == b.cap && j < |m[k]| {
        assert r[k][j] == m[k][j];
      }
    }
  }

  /** Returning a block and asking for its capacity gives the same block back
      and restores the map. */
  lemma PutThenGet(m: Pools, b: Block)
    requires b.cap in m
    ensures GetFrom(PutInto(m, b), b.cap) == (m, b)
  {
    TakeAfterPut(m[b.cap], b, b.cap);
    assert PutInto(m, b)[b.cap := m[b.cap]] == m;
  }

  /** Taking a waiting block and returning it restores the map. */
  lemma GetThenPut(m: Pools, size: int)
    requires Filed(m) && size >= 0
    requires size in m && m[size] != []
    ensures PutInto(GetFrom(m, size).0, GetFrom(m, size).1) == m
  {
    GetFromFiled(m, size);
    var r := GetFrom(m, size);
    assert r.0[size := m[size]] == m;
  }

  /** Asking for a size whose sub-pool is empty gives a fresh block and
      leaves the map as it was. */
  lemma GetFromEmpty(m: Pools, size: int)
    requires size >= 0 && size in m && m[size] == []
    ensures GetFrom(m, size) == (m, Fresh(size))
  {
    assert m[size := []] == m;
  }
}
