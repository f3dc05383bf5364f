/** Opaque identifiers and scalar types the ledger consumes from its collaborators. */
module Primitives {

  /** One byte of a content hash. */
  newtype Byte = x: int | 0 <= x < 256

  /** A content hash (a byte vector); the ledger only compares hashes. */
  type Hash = seq<Byte>

  /** The sentinel `previous_hash` of the first block: the empty byte vector. */
  const EmptyHash: Hash := []

  /** A wall-clock reading; no rule of the ledger depends on its value. */
  type Timestamp = nat

  /** The 256-bit proof-of-work difficulty target. */
  type Difficulty = x: nat | x < 0x1_0000_0000_0000_0000_0000_0000_0000_0000_0000_0000_0000_0000_0000_0000_0000_0000

  /** The largest 256-bit difficulty, `U256::max_value()`. */
  const MaxDifficulty: Difficulty := 0xFFFF_FFFF_FFFF_FFFF_FFFF_FFFF_FFFF_FFFF_FFFF_FFFF_FFFF_FFFF_FFFF_FFFF_FFFF_FFFF

  /** The smaller of two counts, as `cmp::min`. */
  function Min(a: nat, b: nat): (m: nat)
    ensures m <= a && m <= b
    ensures m == a || m == b
  {
    if a <= b then a else b
  }

  /** `HashSet::retain` with the predicate "not in `outputSpent`". */
  function Retain(unspent: set<Hash>, outputSpent: seq<Hash>): set<Hash> {
    set x | x in unspent && x !in outputSpent
  }

  /** `HashSet::extend`: insert the hashes of `hs` one at a time, in order. */
  function Extend(s: set<Hash>, hs: seq<Hash>): (r: set<Hash>)
    ensures forall x :: x in r <==> x in s || x in hs
    decreases |hs|
  {
    if |hs| == 0 then s
    else
      assert forall x :: x in hs <==> x == hs[0] || x in hs[1..];
      Extend(s + {hs[0]}, hs[1..])
  }
}
