/** Keys, rows, hashes and the one-byte slot tags shared by every hash table. */
module Hashing {

  /** Packed keys. Only equality is ever used on them, so one model covers memcmp and strcmp keys. */
  type Key(==, !new)

  /** A materialised row: the key is stored in front of the payload. */
  datatype Row<+V> = Row(key: Key, payload: V)

  ghost predicate DistinctKeys<V>(rows: seq<Row<V>>) {
    forall i, j :: 0 <= i < j < |rows| ==> rows[i].key != rows[j].key
  }

  /** A 64-bit hash value. */
  type Hash = h: nat | h < 0x1_0000_0000_0000_0000

  const FILL_MASK: bv8 := 0x80
  const INVERSION_MASK: bv8 := 0x7f
  const MARK_MASK: bv8 := 0x40
  const OUTER_HASH_MASK: bv8 := 0x3f

  /** The highest order byte of a hash, `static_cast<uint8_t>(hash >> 56)`. */
  function TopByte(h: Hash): bv8 {
    (h / 0x100_0000_0000_0000) as bv8
  }

  predicate Filled(tag: bv8) {
    tag & FILL_MASK != 0
  }

  predicate Marked(tag: bv8) {
    tag & MARK_MASK != 0
  }

  /** The tag of a live slot: the fill bit and seven bits of the hash. */
  function TargetTag(h: Hash): bv8 {
    FILL_MASK | TopByte(h)
  }

  /** The tag of a slot that a semi join has consumed: still filled, fingerprint inverted. */
  function InvertedTag(h: Hash): bv8 {
    TargetTag(h) ^ INVERSION_MASK
  }

  function OuterFingerprint(tag: bv8): bv8 {
    OUTER_HASH_MASK & tag
  }

  /** The tag written by an outer insert: fill bit set, mark bit clear, six bits of the hash. */
  function OuterTag(h: Hash): bv8 {
    FILL_MASK | (OUTER_HASH_MASK & TopByte(h))
  }

  /** The tag of an outer slot that found a join partner. */
  function MarkedTag(h: Hash): bv8 {
    FILL_MASK | MARK_MASK | (OUTER_HASH_MASK & TopByte(h))
  }

  /** Inverting the fingerprint never empties a slot, never yields the live tag again, and is undone by inverting again. */
  lemma InvertedTagIsDead(h: Hash)
    ensures Filled(TargetTag(h)) && Filled(InvertedTag(h))
    ensures InvertedTag(h) != TargetTag(h)
    ensures InvertedTag(h) ^ INVERSION_MASK == TargetTag(h)
  {
  }

  /** Marking keeps a slot filled and its fingerprint intact, and only the mark bit tells the two tags apart. */
  lemma MarkedTagKeepsFingerprint(h: Hash)
    ensures Filled(OuterTag(h)) && Filled(MarkedTag(h))
    ensures !Marked(OuterTag(h)) && Marked(MarkedTag(h))
    ensures OuterFingerprint(OuterTag(h)) == OuterFingerprint(TopByte(h)) == OuterFingerprint(MarkedTag(h))
    ensures OuterTag(h) | MARK_MASK == MarkedTag(h)
  {
  }

  /** Bitwise and on natural numbers. */
  function BitAnd(a: nat, b: nat): nat {
    if a == 0 || b == 0 then 0 else (if a % 2 == 1 && b % 2 == 1 then 1 else 0) + 2 * BitAnd(a / 2, b / 2)
  }

  lemma {:induction false} BitAndAtMost(a: nat, b: nat)
    ensures BitAnd(a, b) <= b
  {
    if a != 0 && b != 0 {
      BitAndAtMost(a / 2, b / 2);
    }
  }

  /** The slot at which the probe sequence of a key starts: `hash & mod_mask`. */
  function Home(hash: Key -> Hash, mask: nat, k: Key): (home: nat)
    ensures home <= mask
  {
    BitAndAtMost(hash(k), mask);
    BitAnd(hash(k), mask)
  }
}
