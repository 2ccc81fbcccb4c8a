/** The 32-bit mask of variables not to event on (src/variable-container.c) as a set of indices.
    A word is a number below 2^32, read and written binary digit by binary digit. */
module IgnoreMask {
  function PowerOfTwo(k: nat): nat {
    if k == 0 then 1 else 2 * PowerOfTwo(k - 1)
  }

  /** Is digit i of the word a one? */
  predicate HasBit(mask: nat, i: nat) {
    if i == 0 then mask % 2 == 1 else HasBit(mask / 2, i - 1)
  }

  /** The word or-ed with 1 shifted left i times: digit i becomes a one. */
  function OrBit(mask: nat, i: nat): nat {
    if i == 0 then mask / 2 * 2 + 1 else OrBit(mask / 2, i - 1) * 2 + mask % 2
  }

  /** Or-ing in a bit below the word's width does not leave the word. */
  lemma {:induction false} OrBitFits(mask: nat, i: nat, width: nat)
    requires i < width && mask < PowerOfTwo(width)
    ensures OrBit(mask, i) < PowerOfTwo(width)
  {
    if i > 0 {
      OrBitFits(mask / 2, i - 1, width - 1);
    }
  }

  /** ... and changes that digit only. */
  lemma {:induction false} OrBitSetsOne(mask: nat, v: nat, i: nat)
    ensures HasBit(OrBit(mask, v), i) <==> i == v || HasBit(mask, i)
  {
    if v > 0 && i > 0 {
      OrBitSetsOne(mask / 2, v - 1, i - 1);
    }
  }

  lemma {:induction false} ZeroHasNoBit(i: nat)
    ensures !HasBit(0, i)
  {
    if i > 0 {
      ZeroHasNoBit(i - 1);
    }
  }

  ghost function Bits(mask: nat): (r: set<nat>)
    ensures forall i: nat :: i in r <==> i < 32 && HasBit(mask, i)
  {
    set i: nat | i < 32 && HasBit(mask, i)
  }

  lemma NoBits()
    ensures Bits(0) == {}
  {
    forall i: nat
      ensures !HasBit(0, i)
    {
      ZeroHasNoBit(i);
    }
  }

  lemma WordBound()
    ensures PowerOfTwo(32) == 0x1_0000_0000
  {
    assert PowerOfTwo(8) == 256;
    assert PowerOfTwo(16) == 0x1_0000;
    assert PowerOfTwo(24) == 0x100_0000;
  }

  lemma OrBitAddsIndex(mask: nat, v: nat)
    requires v < 32
    ensures Bits(OrBit(mask, v)) == Bits(mask) + {v}
  {
    forall i: nat
      ensures HasBit(OrBit(mask, v), i) <==> i == v || HasBit(mask, i)
    {
      OrBitSetsOne(mask, v, i);
    }
  }
}
