/** Java 64-bit words used as bit masks, modelled as the set of the
    positions of their one-bits: bitwise AND, OR and NOT become intersection,
    union and complement within positions 0..63, 0 is the empty set and
    `1L << k` is the singleton {k}. */
module LongBits {
  /** A bit position of a Java long. */
  type Bit = i: int | 0 <= i < 64

  /** A 64-bit word, as the set of positions of its one-bits. */
  type Bits = set<Bit>

  /** The positions below n. */
  function BitsBelow(n: nat): (r: Bits)
    requires n <= 64
    ensures forall b: Bit :: b in r <==> b < n
  {
    if n == 0 then {} else BitsBelow(n - 1) + {n - 1}
  }

  /** The word with every bit set (-1L). */
  function AllBits(): (all: Bits)
    ensures forall b: Bit :: b in all
  {
    BitsBelow(64)
  }

  /** Bitwise NOT. */
  function Not(v: Bits): (r: Bits)
    ensures forall b: Bit :: b in r <==> b !in v
  {
    AllBits() - v
  }

  /** v >>> n: every one-bit at position n or above moves down by n. */
  function ShiftRight(v: Bits, n: nat): (r: Bits)
    ensures forall b: Bit :: b in r <==> b + n < 64 && (b + n) as Bit in v
  {
    var r := set b: Bit | b in v && b >= n :: (b - n) as Bit;
    assert forall b: Bit :: b + n < 64 && (b + n) as Bit in v ==> b in r by {
      forall b: Bit | b + n < 64 && (b + n) as Bit in v ensures b in r {
        var c: Bit := (b + n) as Bit;
        assert c in v && c >= n && (c - n) as Bit == b;
      }
    }
    r
  }

  /** Shifting right by n clears the word iff it has no one-bit at n or
      above. */
  lemma ShiftRightEmpty(v: Bits, n: nat)
    ensures ShiftRight(v, n) == {} <==> forall b: Bit :: b in v ==> b < n
  {
    if b: Bit :| b in v && b >= n {
      assert (b - n) as Bit in ShiftRight(v, n);
    }
  }

  /** Position of the highest one-bit among the positions below n, or 0. */
  function HighestBelow(v: Bits, n: nat): (r: nat)
    requires n <= 64
    ensures forall b: Bit :: b in v && b < n ==> b <= r
    ensures r == 0 || (r < n && r in v)
  {
    if n == 0 then 0
    else if (n - 1) as Bit in v then n - 1
    else HighestBelow(v, n - 1)
  }

  /** Position of the highest one-bit of v; 0 for the word 0. */
  function HighestBit(v: Bits): (r: nat)
    ensures forall b: Bit :: b in v ==> b <= r
    ensures r == 0 || r in v
  {
    HighestBelow(v, 64)
  }

  /** The two properties of HighestBit determine it. */
  lemma HighestBitUnique(v: Bits, s: nat)
    requires forall b: Bit :: b in v ==> b <= s
    requires s == 0 || s in v
    ensures s == HighestBit(v)
  {
    var h := HighestBit(v);
    if h != 0 {
      assert h as Bit in v;
    }
    if s != 0 {
      assert s as Bit in v;
    }
  }
}
