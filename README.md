# Memory pools of byte blocks, modelled in Dafny

This project models the `memorypool` package of a Go library of reusable
byte blocks, and proves properties of that model. The package has five parts:

- a fixed-size pool (`MemoryPool`), a single `sync.Pool` of blocks of one size;
- a dynamic pool (`DynamicMemoryPool`), a map from block size to `sync.Pool`
  that gains a sub-pool the first time a size is asked for;
- a sharded pool (`ConcurrentMemoryPool`), sixteen such maps, where a size
  is routed to one of them by FNV-1a (32 bits) over its decimal text;
- the metrics record (`MemoryMetrics`) that the sharded pool updates;
- the constructor of the typed sharded skeleton
  (`ConcurrentMemoryPoolWithTypes[T]`).

Every operation runs to completion before the next one starts. A Go
`[]byte` is a `Blocks.Block`, which holds the bytes its length covers and
its capacity, with `len <= cap`. A `sync.Pool` whose `New` is
`make([]byte, size)` is a deterministic LIFO freelist
(`FreeLists.FreeList`, `Blocks.Take`): `Get` pops the block returned
last, or makes `size` zero bytes when nothing is idle.

Pools that change in place are classes. Each class is proved against a
function on values:
- `PoolMaps.GetFrom` and `PoolMaps.PutInto` act on a `map[int]*sync.Pool`;
- `ConcurrentPool.ShardedGet` and `ConcurrentPool.ShardedPut` act on the
  sixteen shards.

Lemmas about these functions carry the properties: blocks are filed under
their own capacity, a `Get` returns a block of the requested capacity, and
a `Put` followed by a `Get` gives the same block back.

Files, one module each:
- `blocks.dfy`: blocks, `make`, the freelist discipline.
- `strconv.dfy`: `[]byte(strconv.Itoa(n))` and its inverse.
- `fnv.dfy`: FNV-1a, 32 bits.
- `freelist.dfy`: `sync.Pool` of blocks.
- `pool_maps.dfy`: the size-to-sub-pool map.
- `metrics.dfy`, `dynamic_pool.dfy`, `concurrent_pool.dfy`,
  `memory_pool.dfy`, `typed_pool.dfy`: the five source files.

Facts about the code that the model keeps:
- The sharded constructor puts every listed size into all sixteen shards,
  not only into the shard the size routes to. Sub-pools outside a size's
  routed shard stay empty forever (`ConcurrentPool.Routed`).
- `Get` re-checks nothing after taking the write lock. Run sequentially,
  the key is known to be absent at that point, so this makes no difference.
- The metrics record has three counters (allocations, reuses, active
  blocks) and two time sums.
- A block obtained from `Get(size)` of the dynamic or the sharded pool
  always has capacity `size`. It is guaranteed length `size` while every
  idle block has its full length (`len == cap`); because `Put` files a block
  by `cap(block)` alone, a short block put back is handed out short by the
  next `Get` of its capacity. `PoolMaps.GetFromFull` and
  `ConcurrentPool.ShardedGetFull` state this for the two keyed pools;
  `FixedPool.MemoryPool.Get` states the same for the fixed pool, where the
  length to keep is `blockSize`.
- `concurrent_memory_pool.go` calls `NewMemoryMetrics`,
  `RegisterAllocation`, `AddAllocationTime`, `RegisterReuse` and
  `AddReuseTime`. `metrics.go` does not define them. It defines
  `NovaMemoryMetrics`, `RegistrarAlocacao`, `AdicionarTempoDeAlocacao`,
  `RegistrarReutilizacao` and `AdicionarTempoDeReutilizacao`. The model
  calls the second set.

## Model

| member | source | states |
|---|---|---|
| Blocks.Fresh | pkg/memorypool/memory_pool.go:16-18 | `make([]byte, size)` has length and capacity `size`, and every byte is zero |
| Blocks.Take | pkg/memorypool/memory_pool.go:24-26 | a pool `Get` on an empty freelist gives a fresh block and the freelist stays empty; otherwise it gives the last block returned, and what is left plus that block is the old freelist |
| Blocks.TakeAfterPut | pkg/memorypool/memory_pool.go:24-31 | `Put(b)` then `Get` gives `b` back and restores the freelist |
| Blocks.TakeKeepsLength | pkg/memorypool/memory_pool.go:17-31 | when every idle block has the fresh length, the block taken and every block left keep that length |
| FreeLists.FreeList.constructor | pkg/memorypool/memory_pool.go:15-19 | a new `sync.Pool` allocates the captured size and holds nothing |
| FreeLists.FreeList.Get | pkg/memorypool/memory_pool.go:25 | `pool.Get()` pops as `Take` does; from an empty pool the block has length and capacity `size` |
| FreeLists.FreeList.Put | pkg/memorypool/memory_pool.go:30 | `pool.Put(b)` appends `b` with no check |
| FixedPool.MemoryPool.constructor | pkg/memorypool/memory_pool.go:13-21 | a fresh, empty pool that allocates `blockSize` bytes |
| FixedPool.MemoryPool.Get | pkg/memorypool/memory_pool.go:24-26 | empty pool: a fresh zero block of `blockSize` bytes and the pool stays empty; otherwise the pool shrinks by one and the block is one that was put; while every idle block has length `blockSize`, so does the result, and that stays true |
| FixedPool.MemoryPool.Put | pkg/memorypool/memory_pool.go:29-31 | any block is accepted and the freelist grows by exactly that block; a block of length `blockSize` keeps every idle block at that length |
| FixedPool.GetPutGet | pkg/memorypool/memory_pool_test.go:7-22 | in the package test, both blocks are 1024 bytes long and the second is the one put back |
| Strconv.Itoa | pkg/memorypool/concurrent_memory_pool.go:46 | definition: `[]byte(strconv.Itoa(n))`, a minus sign before the ASCII decimal digits of a negative number, no leading zeros; its properties are `ItoaShape` and `AtoiOfItoa` |
| Strconv.ItoaShape | pkg/memorypool/concurrent_memory_pool.go:46 | `strconv.Itoa(n)` is non-empty, starts with `-` exactly when `n < 0`, and is otherwise decimal digits |
| Strconv.AtoiOfItoa | pkg/memorypool/concurrent_memory_pool.go:46 | reading the digits back gives `n` |
| Fnv.Fold | pkg/memorypool/concurrent_memory_pool.go:46 | definition: `h.Write(data)` on FNV-1a state `h`: for each byte in order, xor it in, then multiply by the FNV prime 16777619 modulo 2^32 |
| Fnv.Sum32 | pkg/memorypool/concurrent_memory_pool.go:45-47 | definition: `fnv.New32a()` starts from the offset basis 2166136261, then `Write`, then `Sum32()`; checked against reference values by `KnownValues` |
| Fnv.KnownValues | pkg/memorypool/concurrent_memory_pool.go:45-47 | the FNV-1a fold gives the reference values for the empty input and for "a" |
| ConcurrentPool.ShardCount | pkg/memorypool/concurrent_memory_pool.go:11 | definition: the constant `shardCount`, 16; `Shards` holds exactly that many maps |
| ConcurrentPool.ShardHash | pkg/memorypool/concurrent_memory_pool.go:45-46 | definition: the unsigned FNV-1a (32 bits) hash of `strconv.Itoa(size)`; its value for 1024 is `HashOf1024` |
| ConcurrentPool.GetShardIndex | pkg/memorypool/concurrent_memory_pool.go:43-48 | with a 64-bit `int`, the shard index is in `[0, 16)` |
| ConcurrentPool.TruncatedRem | pkg/memorypool/concurrent_memory_pool.go:47 | Go's `%`: the result has the sign of the dividend, is smaller than the divisor in magnitude, and `x == q * m + r` with the quotient `q` truncated toward zero |
| ConcurrentPool.Wrap32 | pkg/memorypool/concurrent_memory_pool.go:47 | `int(u)` with a 32-bit `int` is `u` or `u - 2^32`, within the int32 range |
| ConcurrentPool.GetShardIndex32 | pkg/memorypool/concurrent_memory_pool.go:43-48 | with a 32-bit `int`, the index lies strictly between -16 and 16 |
| ConcurrentPool.WrapAgrees | pkg/memorypool/concurrent_memory_pool.go:47 | the wrapped remainder, when non-negative, equals the unsigned one |
| ConcurrentPool.ShardIndex32Agrees | pkg/memorypool/concurrent_memory_pool.go:43-48 | whenever the 32-bit index is valid, it is the 64-bit index |
| ConcurrentPool.HashOf1024 | pkg/memorypool/concurrent_memory_pool.go:45-47 | the routing hash of size 1024 is 0x929cf842 |
| ConcurrentPool.ShardIndexOf1024 | pkg/memorypool/concurrent_memory_pool.go:43-48 | size 1024 goes to shard 2 with a 64-bit `int` and to index -14 with a 32-bit one |
| PoolMaps.Listed | pkg/memorypool/dynamic_memory_pool.go:20-28 | the map the constructor loop builds: its key set is exactly the set of sizes (duplicates collapse) and every sub-pool is empty |
| PoolMaps.ListedSnoc | pkg/memorypool/dynamic_memory_pool.go:21-28 | one more loop round adds one empty sub-pool under its size |
| PoolMaps.GetFrom | pkg/memorypool/dynamic_memory_pool.go:34-52 | `Get(size)`: the key set gains `size`, other sub-pools are unchanged, a missing or empty sub-pool gives a fresh block, and a non-empty one gives its last block |
| PoolMaps.PutInto | pkg/memorypool/dynamic_memory_pool.go:55-66 | `Put(block)`: the key set never changes; with a sub-pool for `cap(block)` the block is pushed there only; when there is none, nothing changes |
| PoolMaps.GetFromFiled | pkg/memorypool/dynamic_memory_pool.go:34-52 | while every idle block is filed under its capacity, `Get(size)` returns capacity `size` and that stays true |
| PoolMaps.PutIntoFiled | pkg/memorypool/dynamic_memory_pool.go:55-62 | `Put` keeps every idle block filed under its capacity |
| PoolMaps.GetFromFull | pkg/memorypool/dynamic_memory_pool.go:34-52 | while every idle block is filed under its capacity and has `len == cap`, `Get(size)` returns a block of length `size` (the check of dynamic_memory_pool_test.go:14,22), and every idle block keeps `len == cap` |
| PoolMaps.PutIntoFull | pkg/memorypool/dynamic_memory_pool.go:55-62 | returning a block with `len == cap` keeps every idle block at `len == cap` |
| PoolMaps.PutThenGet | pkg/memorypool/dynamic_memory_pool_test.go:13-21 | `Put(b)` with a sub-pool for `cap(b)`, then `Get(cap(b))`, gives `b` back and restores the map |
| PoolMaps.GetThenPut | pkg/memorypool/dynamic_memory_pool.go:34-62 | taking an idle block and putting it back restores the map |
| PoolMaps.GetFromEmpty | pkg/memorypool/dynamic_memory_pool.go:45-51 | `Get` on an empty sub-pool gives a fresh block and changes nothing |
| DynamicPool.DynamicMemoryPool.constructor | pkg/memorypool/dynamic_memory_pool.go:15-31 | the sub-pools are fresh and their contents are `Listed(sizes)` |
| DynamicPool.DynamicMemoryPool.Get | pkg/memorypool/dynamic_memory_pool.go:34-52 | the state becomes `GetFrom` of the old one; the block has capacity `size`; every existing sub-pool object is kept under its key |
| DynamicPool.DynamicMemoryPool.Put | pkg/memorypool/dynamic_memory_pool.go:55-66 | the state becomes `PutInto` of the old one; the map is unchanged; an unknown capacity changes nothing |
| DynamicPool.GetPutGetEachSize | pkg/memorypool/dynamic_memory_pool_test.go:7-26 | for each listed size, Get, Put, Get returns two blocks of length `size` |
| Metrics.MemoryMetrics.constructor | pkg/memorypool/metrics.go:20-22 | all five fields start at zero |
| Metrics.MemoryMetrics.RegistrarAlocacao | pkg/memorypool/metrics.go:25-28 | Allocations and BlocosAtivos rise by 1, nothing else moves, `BlocosAtivos == Allocations - Reutilizacoes` is kept |
| Metrics.MemoryMetrics.RegistrarReutilizacao | pkg/memorypool/metrics.go:31-34 | Reutilizacoes rises by 1, BlocosAtivos falls by 1, nothing else moves, the balance is kept |
| Metrics.MemoryMetrics.AdicionarTempoDeAlocacao | pkg/memorypool/metrics.go:37-39 | `duration` is added to TempoDeAlocacao only |
| Metrics.MemoryMetrics.AdicionarTempoDeReutilizacao | pkg/memorypool/metrics.go:42-44 | `duration` is added to TempoDeReutilizacao only |
| Metrics.MemoryMetrics.ObterMetricas | pkg/memorypool/metrics.go:47-56 | returns the five stored values, changes nothing, and under the balance the active count is allocations minus reuses |
| ConcurrentPool.ShardedGet | pkg/memorypool/concurrent_memory_pool.go:55-74 | only shard `getShardIndex(size)` changes, and it gains key `size` |
| ConcurrentPool.ShardedPut | pkg/memorypool/concurrent_memory_pool.go:89-98 | no key is created anywhere; only the routed shard changes; with a sub-pool for `cap(block)` the block is pushed there; without one, nothing changes |
| ConcurrentPool.Initial | pkg/memorypool/concurrent_memory_pool.go:27-37 | every one of the sixteen shards has key set exactly the set of sizes |
| ConcurrentPool.InitialRouted | pkg/memorypool/concurrent_memory_pool.go:27-37 | the constructed shards satisfy the pool invariant |
| ConcurrentPool.ShardedGetRouted | pkg/memorypool/concurrent_memory_pool.go:55-74 | under the invariant, `Get(size)` returns capacity `size` and keeps the invariant (blocks filed under their capacity, sub-pools outside a size's shard empty) |
| ConcurrentPool.ShardedPutRouted | pkg/memorypool/concurrent_memory_pool.go:89-98 | `Put` keeps the invariant |
| ConcurrentPool.ShardedPutThenGet | pkg/memorypool/concurrent_memory_pool_test.go:10-24 | `Put(b)` with a sub-pool for `cap(b)` in its shard, then `Get(cap(b))`, gives `b` back and restores all shards |
| ConcurrentPool.ShardedGetFull | pkg/memorypool/concurrent_memory_pool.go:55-74 | under the invariant and while every idle block in every shard has `len == cap`, `Get(size)` returns a block of length `size` (the check of concurrent_memory_pool_test.go:14), and that stays true |
| ConcurrentPool.ShardedPutFull | pkg/memorypool/concurrent_memory_pool.go:89-98 | returning a block with `len == cap` keeps every idle block in every shard at `len == cap` |
| ConcurrentPool.ShardedGetEmpty | pkg/memorypool/concurrent_memory_pool.go:55-74 | `Get` on an empty sub-pool gives a fresh block and changes no shard |
| ConcurrentPool.ConcurrentMemoryPool.constructor | pkg/memorypool/concurrent_memory_pool.go:21-40 | metrics are fresh and at zero, and the shards are `Initial(sizes)` |
| ConcurrentPool.ConcurrentMemoryPool.Get | pkg/memorypool/concurrent_memory_pool.go:51-83 | the shards become `ShardedGet` of the old ones; the block has capacity `size`; Allocations and BlocosAtivos rise by 1, TempoDeAlocacao by `elapsed`, nothing else; the invariant is kept |
| ConcurrentPool.ConcurrentMemoryPool.Put | pkg/memorypool/concurrent_memory_pool.go:86-107 | the shards become `ShardedPut` of the old ones; a found capacity adds 1 reuse, removes 1 active block and adds `elapsed` to the reuse time; an unknown capacity moves no metric; the invariant is kept |
| ConcurrentPool.GetPutGet | pkg/memorypool/concurrent_memory_pool_test.go:8-27 | for any listed size: the first block has that length and the second is equal to it |
| ConcurrentPool.MainScenario | cmd/main.go:14-57 | any three listed sizes, equal or not (the driver uses 512, 1024 and 4096), one `Put`, `n` more `Get`s: the three blocks have their sizes, and the metrics read `n + 3` allocations, 1 reuse, `n + 2` active blocks |
| TypedPool.ConcurrentMemoryPoolWithTypes.constructor | pkg/concurrency/concurrent_memory_pool_with_types.go:11-25 | exactly sixteen shard maps; each has key set exactly the set of sizes (empty for no sizes); every sub-pool is empty and makes the zero value whatever its size |

## Left out

- Locks and atomics (`sync.RWMutex`, `atomic.AddInt32`, `atomic.AddInt64`, `atomic.Load*`): every operation is sequential. Races on sub-pool creation and torn metric snapshots are not modelled.
- `sync.Pool` internals (per-processor caches, eviction at garbage collection, no order guarantee) are replaced by a deterministic LIFO freelist.
- Wall-clock time (`time.Now`, `time.Since`): the measured duration is the `elapsed` parameter of `ConcurrentMemoryPool.Get` and `Put`.
- Metrics.MemoryMetrics.RegistrarAlocacao: the counters are unbounded integers, so int32 wrap-around is not modelled.
- Metrics.MemoryMetrics.RegistrarReutilizacao: the counters are unbounded integers, so int32 wrap-around is not modelled.
- Metrics.MemoryMetrics.AdicionarTempoDeAlocacao: the sum is an unbounded integer, so int64 wrap-around is not modelled.
- Metrics.MemoryMetrics.AdicionarTempoDeReutilizacao: the sum is an unbounded integer, so int64 wrap-around is not modelled.
- ConcurrentPool.GetShardIndex: takes Go's `int` as 64 bits. The 32-bit behaviour is `GetShardIndex32` (see Findings).
- ConcurrentPool.ConcurrentMemoryPool.Get: a shard's sub-pools are held by value, by their idle blocks. The `*sync.Pool` pointers and their identity are not modelled. "An existing sub-pool is not replaced" is stated as "its idle blocks are kept". `DynamicMemoryPool.Get` states the pointer version.
- `make` panics on a negative size. `DynamicMemoryPool.Get` and `ConcurrentMemoryPool.Get` therefore require `size >= 0`. A freelist's `Get` requires a waiting block or a non-negative size.
- Blocks are values: a block is its bytes and its capacity. Slice identity and the shared backing array are not modelled, so a write to a block after `Put` being seen by the next `Get` is not captured; `FixedPool.GetPutGet` and `ConcurrentPool.GetPutGet` compare blocks by value.
- The type assertion `.([]byte)` on `pool.Get()` is not modelled. Every `New` and every `Put` deals in `[]byte`, so it cannot fail.
- The warning that `DynamicMemoryPool.Put` prints for an unknown capacity is not modelled. Only its effect, no state change, is kept.
- TypedPool.ConcurrentMemoryPoolWithTypes.constructor: `new(T)` returns a pointer to a fresh zero `T`. It is modelled as the zero value itself. Dafny has no zero value for a type parameter, so `zero` is a constructor parameter. The source has no `Get` or `Put` for this type.
- `internal/alloc/manual_memory.go.go`, `pkg/profiling`, `pkg/persistence` and `pkg/utils` are not part of this model. They are runtime statistics, file I/O and logging.
- The printing in `cmd/main.go` is not modelled; only its sequence of calls is.

## Findings

| source | as written | input that shows it | evidently intended | confidence | as-written member | corrected member |
|---|---|---|---|---|---|---|
| pkg/memorypool/concurrent_memory_pool.go:47 | `int(h.Sum32()) % shardCount` converts the unsigned hash to `int` before taking the remainder. Where `int` has 32 bits (GOARCH 386 or arm), a hash with the top bit set wraps to a negative number. Go's `%` keeps the sign. | size 1024: the hash is 0x929cf842, so the index is -14 and `cmp.mu[shardIndex]` panics on the package's own test | an index in `[0, 16)` on every platform, as `int(h.Sum32() % shardCount)` gives | not executed | ConcurrentPool.GetShardIndex32, ConcurrentPool.ShardIndexOf1024 | ConcurrentPool.GetShardIndex |
