/** `ConcurrentMemoryPool`: sixteen shards, each a map from block size to
    sub-pool, a routing function from size to shard, and a metrics record
    that every `Get` and every accepted `Put` updates. Locks are left out:
    every operation runs to completion before the next one starts. A shard's
    sub-pools are held by value, by their idle blocks. */
module ConcurrentPool {
  import opened Blocks
  import opened PoolMaps
  import opened Metrics
  import Fnv
  import Strconv

  /** `shardCount`. */
  const ShardCount: nat := 16

  /** The hash that routing uses: FNV-1a (32 bits) over `strconv.Itoa(size)`. */
  function ShardHash(size: int): bv32 {
    Fnv.Sum32(Strconv.Itoa(size))
  }

  /** `getShardIndex(size)` with Go's 64-bit `int`: the unsigned hash fits,
      so `int(h.Sum32()) % shardCount` is a valid shard index. */
  function GetShardIndex(size: int): (r: nat)
    ensures r < ShardCount
  {
    ShardHash(size) as int % ShardCount
  }

  /** Go's `%`, which truncates toward zero. */
  function TruncatedRem(x: int, m: nat): (r: int)
    requires m > 0
    ensures x >= 0 ==> 0 <= r < m
    ensures x < 0 ==> -(m as int) < r <= 0
    ensures x == (if x >= 0 then x / m else -((-x) / m)) * m + r
  {
    if x >= 0 then x % m else -((-x) % m)
  }

  /** `int32(u)` for an unsigned 32-bit value `u`: values with the top bit
      set wrap to negative ones. */
  function Wrap32(u: int): (r: int)
    requires 0 <= u < 0x1_0000_0000
    ensures -0x8000_0000 <= r < 0x8000_0000
    ensures r == u || r == u - 0x1_0000_0000
  {
    if u < 0x8000_0000 then u else u - 0x1_0000_0000
  }

  /** `getShardIndex(size)` as written, on a platform where Go's `int` has 32
      bits: `int(h.Sum32())` wraps to a negative value when the top bit of
      the hash is set, and `%` keeps its sign. */
  function GetShardIndex32(size: int): (r: int)
    ensures -(ShardCount as int) < r < ShardCount
  {
    TruncatedRem(Wrap32(ShardHash(size) as int), ShardCount)
  }

  /** Whenever the 32-bit index is a valid one it is the 64-bit index: the
      two differ only where the 32-bit index is negative. */
  lemma {:induction false} WrapAgrees(u: int)
    requires 0 <= u < 0x1_0000_0000
    ensures TruncatedRem(Wrap32(u), ShardCount) >= 0 ==> TruncatedRem(Wrap32(u), ShardCount) == u % ShardCount
  {
    if u >= 0x8000_0000 {
      var w := u - 0x1_0000_0000;
      assert -w == 0x1_0000_0000 - u;
      if (-w) % 16 == 0 {
        assert u % 16 == 0 by {
          assert u == 0x1_0000_0000 - (-w);
        }
      }
    }
  }

  lemma ShardIndex32Agrees(size: int)
    ensures GetShardIndex32(size) >= 0 ==> GetShardIndex32(size) == GetShardIndex(size)
  {
    WrapAgrees(ShardHash(size) as int);
  }

  lemma HashOf1024()
    ensures ShardHash(1024) == 0x929c_f842
  {
    assert Strconv.Itoa(1024) == [0x31, 0x30, 0x32, 0x34];
    assert Fnv.Sum32([0x31, 0x30, 0x32, 0x34]) == 0x929c_f842;
  }

  /** Size 1024, the size the package's own test asks for, routes to shard 2
      with a 64-bit `int` but to index -14 with a 32-bit `int`, which makes
      `cmp.mu[shardIndex]` panic. */
  lemma ShardIndexOf1024()
    ensures GetShardIndex(1024) == 2
    ensures GetShardIndex32(1024) == -14
  {
    HashOf1024();
    var u := ShardHash(1024) as int;
    assert u == 0x929c_f842;
    assert GetShardIndex(1024) == 0x929c_f842 % 16 == 2;
    assert Wrap32(u) == -1835206590;
    assert TruncatedRem(-1835206590, 16) == -14;
  }

  /** The idle blocks of every shard's sub-pools. */
  type Shards = s: seq<Pools> | |s| == ShardCount witness seq(ShardCount, _ => map[])

  /** `Get(size)` on the shards: only shard `getShardIndex(size)` is consulted
      and changed. */
  function ShardedGet(s: Shards, size: int): (r: (Shards, Block))
    requires size >= 0
    ensures forall j :: 0 <= j < ShardCount && j != GetShardIndex(size) ==> r.0[j] == s[j]
    ensures r.0[GetShardIndex(size)].Keys == s[GetShardIndex(size)].Keys + {size}
  {
    var i := GetShardIndex(size);
    var (m, b) := GetFrom(s[i], size);
    (s[i := m], b)
  }

  /** `Put(block)` on the shards: only shard `getShardIndex(cap(block))` is
      consulted; no key is created, and an unknown capacity changes nothing. */
  function ShardedPut(s: Shards, b: Block): (r: Shards)
    ensures forall j :: 0 <= j < ShardCount ==> r[j].Keys == s[j].Keys
    ensures forall j :: 0 <= j < ShardCount && j != GetShardIndex(b.cap) ==> r[j] == s[j]
    ensures b.cap in s[GetShardIndex(b.cap)] ==>
              r[GetShardIndex(b.cap)][b.cap] == s[GetShardIndex(b.cap)][b.cap] + [b]
    ensures b.cap !in s[GetShardIndex(b.cap)] ==> r == s
  {
    var i := GetShardIndex(b.cap);
    s[i := PutInto(s[i], b)]
  }

  /** What the pool keeps true: every idle block is filed under its own
      capacity, and a sub-pool outside the shard its size routes to (the
      constructor puts every size in every shard) never holds a block. */
  ghost predicate Routed(s: Shards) {
    && (forall j :: 0 <= j < ShardCount ==> Filed(s[j]))
    && (forall j, k :: 0 <= j < ShardCount && k in s[j] && j != GetShardIndex(k) ==> s[j][k] == [])
  }

  /** The shards right after construction. */
  function Initial(sizes: seq<int>): (s: Shards)
    ensures forall j :: 0 <= j < ShardCount ==> s[j].Keys == set k | k in sizes
  {
    seq(ShardCount, _ => Listed(sizes))
  }

  lemma InitialRouted(sizes: seq<int>)
    ensures Routed(Initial(sizes))
  {
  }

  /** `Get(size)` returns a block of capacity `size` and keeps the pool routed. */
  lemma ShardedGetRouted(s: Shards, size: int)
    requires Routed(s) && size >= 0
    ensures ShardedGet(s, size).1.cap == size
    ensures Routed(ShardedGet(s, size).0)
  {
    var i := GetShardIndex(size);
    GetFromFiled(s[i], size);
    var r := ShardedGet(s, size).0;
    forall j, k | 0 <= j < ShardCount && k in r[j] && j != GetShardIndex(k)
      ensures r[j][k] == []
    {
      if j == i {
        assert k != size;
      }
    }
  }

  /** `Put(block)` keeps the pool routed. */
  lemma ShardedPutRouted(s: Shards, b: Block)
    requires Routed(s)
    ensures Routed(ShardedPut(s, b))
  {
    var i := GetShardIndex(b.cap);
    PutIntoFiled(s[i], b);
  }

  /** Returning a block whose capacity has a sub-pool in its shard, then
      asking for that capacity, gives the same block back and restores the
      shards. */
  lemma ShardedPutThenGet(s: Shards, b: Block)
    requires b.cap in s[GetShardIndex(b.cap)]
    ensures ShardedGet(ShardedPut(s, b), b.cap) == (s, b)
  {
    var i := GetShardIndex(b.cap);
    PutThenGet(s[i], b);
    assert ShardedPut(s, b)[i := s[i]] == s;
  }

  /** Every idle block in every shard has its full length. */
  ghost predicate AllFull(s: Shards) {
    forall j :: 0 <= j < ShardCount ==> Full(s[j])
  }

  /** While every idle block has its full length, `Get(size)` returns a block
      of length `size`, and that stays true. */
  lemma ShardedGetFull(s: Shards, size: int)
    requires Routed(s) && AllFull(s) && size >= 0
    ensures |ShardedGet(s, size).1.data| == size
    ensures AllFull(ShardedGet(s, size).0)
  {
    GetFromFull(s[GetShardIndex(size)], size);
  }

  /** Returning a block of full length keeps every idle block at full length. */
  lemma ShardedPutFull(s: Shards, b: Block)
    requires AllFull(s) && |b.data| == b.cap
    ensures AllFull(ShardedPut(s, b))
  {
    PutIntoFull(s[GetShardIndex(b.cap)], b);
  }

  /** Asking for a size whose sub-pool in its shard is empty gives a fresh
      block and changes no shard. */
  lemma ShardedGetEmpty(s: Shards, size: int)
    requires size >= 0 && size in s[GetShardIndex(size)] && s[GetShardIndex(size)][size] == []
    ensures ShardedGet(s, size) == (s, Fresh(size))
  {
    var i := GetShardIndex(size);
    GetFromEmpty(s[i], size);
    assert s[i := s[i]] == s;
  }

  class ConcurrentMemoryPool {
    /** Go's `[shardCount]map[int]*sync.Pool`; each sub-pool is held by its
        idle blocks. */
    var shards: Shards
    const metrics: MemoryMetrics

    ghost predicate Valid()
      reads this, metrics
    {
      metrics.Consistent() && Routed(shards)
    }

    /** `NewConcurrentMemoryPool(sizes)`: fresh metrics, and in every shard an
        empty sub-pool for every listed size. */
    constructor (sizes: seq<int>)
      ensures Valid() && fresh(metrics)
      ensures shards == Initial(sizes)
      ensures metrics.Allocations == 0 && metrics.Reutilizacoes == 0 && metrics.BlocosAtivos == 0
      ensures metrics.TempoDeAlocacao == 0 && metrics.TempoDeReutilizacao == 0
    {
      var filled: seq<Pools> := [];
      for i := 0 to ShardCount
        invariant filled == seq(i, _ => Listed(sizes))
      {
        var shard: Pools := map[];
        for j := 0 to |sizes|
          invariant shard == Listed(sizes[..j])
        {
          ListedSnoc(sizes[..j], sizes[j]);
          assert sizes[..j + 1] == sizes[..j] + [sizes[j]];
          shard := shard[sizes[j] := []];
        }
        assert sizes[..|sizes|] == sizes;
        filled := filled + [shard];
      }
      shards := filled;
      metrics := new MemoryMetrics();
      InitialRouted(sizes);
    }

    /** `Get(size)`: route to shard `getShardIndex(size)`, create the sub-pool
        when it is missing (an existing one is never replaced), take a block
        from it, and count one allocation taking `elapsed` nanoseconds. The
        block has capacity `size`. */
    method Get(size: int, elapsed: nat) returns (block: Block)
      requires Valid() && size >= 0
      modifies this, metrics
      ensures Valid()
      ensures (shards, block) == ShardedGet(old(shards), size)
      ensures block.cap == size
      ensures metrics.Allocations == old(metrics.Allocations) + 1
      ensures metrics.BlocosAtivos == old(metrics.BlocosAtivos) + 1
      ensures metrics.Reutilizacoes == old(metrics.Reutilizacoes)
      ensures metrics.TempoDeAlocacao == old(metrics.TempoDeAlocacao) + elapsed
      ensures metrics.TempoDeReutilizacao == old(metrics.TempoDeReutilizacao)
    {
      ShardedGetRouted(shards, size);
      var shardIndex := GetShardIndex(size);
      var shard := shards[shardIndex];
      if size !in shard {
        shard := shard[size := []];
      }
      var taken := Take(shard[size], size);
      block := taken.0;
      assert shard[size := taken.1] == GetFrom(shards[shardIndex], size).0;
      shards := shards[shardIndex := shard[size := taken.1]];
      metrics.RegistrarAlocacao();
      metrics.AdicionarTempoDeAlocacao(elapsed);
    }

    /** `Put(block)`: route on `cap(block)`; when that shard has a sub-pool for
        the capacity, push the block onto it and count one reuse taking
        `elapsed` nanoseconds; otherwise drop the block and change nothing. */
    method Put(block: Block, elapsed: nat)
      requires Valid()
      modifies this, metrics
      ensures Valid()
      ensures shards == ShardedPut(old(shards), block)
      ensures var found := block.cap in old(shards)[GetShardIndex(block.cap)];
              && metrics.Allocations == old(metrics.Allocations)
              && metrics.Reutilizacoes == old(metrics.Reutilizacoes) + (if found then 1 else 0)
              && metrics.BlocosAtivos == old(metrics.BlocosAtivos) - (if found then 1 else 0)
              && metrics.TempoDeAlocacao == old(metrics.TempoDeAlocacao)
              && metrics.TempoDeReutilizacao == old(metrics.TempoDeReutilizacao) + (if found then elapsed else 0)
    {
      ShardedPutRouted(shards, block);
      var size := block.cap;
      var shardIndex := GetShardIndex(size);
      if size in shards[shardIndex] {
        var shard := shards[shardIndex];
        shards := shards[shardIndex := shard[size := shard[size] + [block]]];
        metrics.RegistrarReutilizacao();
        metrics.AdicionarTempoDeReutilizacao(elapsed);
      }
    }
  }

  /** The scenario of `concurrent_memory_pool_test.go`, which runs it with
      sizes 128 and 1024 and asks for 1024: `Get(size)`, `Put` the block
      back, `Get(size)` again. The first block is `size` bytes long and the
      second is equal to it. `elapsed` is the duration every call is
      charged. */
  method GetPutGet(sizes: seq<int>, size: int, elapsed: nat) returns (block: Block, block2: Block)
    requires size >= 0 && size in sizes
    ensures |block.data| == size
    ensures block2 == block
  {
    var pool := new ConcurrentMemoryPool(sizes);
    ghost var initial := pool.shards;
    ShardedGetEmpty(initial, size);
    block := pool.Get(size, elapsed);
    pool.Put(block, elapsed);
    ShardedPutThenGet(initial, block);
    block2 := pool.Get(size, elapsed);
  }

  /** The driver in `cmd/main.go`, which runs it with 512, 1024 and 4096 and
      1000 repetitions: get one block of each size (the middle one first),
      put the middle-sized block back, get `n` more blocks of the middle
      size, and read the metrics: `n + 3` allocations, 1 reuse, `n + 2`
      active blocks (1003, 1 and 1002 in the driver). */
  method MainScenario(small: nat, middle: nat, large: nat, n: nat, elapsed: nat)
    returns (lenSmall: int, lenMiddle: int, lenLarge: int, allocations: int, reuses: int, active: int)
    ensures lenSmall == small && lenMiddle == middle && lenLarge == large
    ensures allocations == n + 3 && reuses == 1 && active == n + 2
  {
    var pool := new ConcurrentMemoryPool([small, middle, large]);
    ghost var s0 := pool.shards;
    ShardedGetEmpty(s0, middle);
    ShardedGetEmpty(s0, small);
    ShardedGetEmpty(s0, large);
    var block1 := pool.Get(middle, elapsed);
    var block2 := pool.Get(small, elapsed);
    var block3 := pool.Get(large, elapsed);
    lenSmall, lenMiddle, lenLarge := |block2.data|, |block1.data|, |block3.data|;
    pool.Put(block1, elapsed);
    for i := 0 to n
      invariant pool.Valid()
      invariant pool.metrics.Allocations == 3 + i && pool.metrics.Reutilizacoes == 1
      invariant pool.metrics.BlocosAtivos == 2 + i
    {
      var _ := pool.Get(middle, elapsed);
    }
    var allocTime, reuseTime;
    allocations, reuses, active, allocTime, reuseTime := pool.metrics.ObterMetricas();
  }
}
