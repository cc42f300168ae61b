/** The 32-bit FNV-1a hash of Go's `hash/fnv` (`fnv.New32a`): start from the
    offset basis; for each byte, xor it in and multiply by the FNV prime,
    modulo 2^32. */
module Fnv {

  const OffsetBasis32: bv32 := 2166136261
  const Prime32: bv32 := 16777619

  /** The hash state after writing `data` into a hash whose state is `h`. */
  function Fold(h: bv32, data: seq<bv8>): bv32
    decreases |data|
  {
    if data == [] then h else Fold((h ^ data[0] as bv32) * Prime32, data[1..])
  }

  /** `h.Write(data)` on a fresh `fnv.New32a()`, then `h.Sum32()`. */
  function Sum32(data: seq<bv8>): bv32 {
    Fold(OffsetBasis32, data)
  }

  /** Two reference values of FNV-1a (32 bits): the empty input hashes to
      the offset basis, and "a" to 0xe40c292c. */
  lemma KnownValues()
    ensures Sum32([]) == 0x811c_9dc5
    ensures Sum32([0x61]) == 0xe40c_292c
  {
    assert Sum32([0x61]) == Fold((OffsetBasis32 ^ 0x61) * Prime32, []);
  }
}
