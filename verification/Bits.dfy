/** The bit arithmetic by which the timeout heap reads a path from an index. */
module Bits {

  /** `x >> k`: one halving per place. */
  function Shr(x: nat, k: nat): nat {
    if k == 0 then x else Shr(x, k - 1) / 2
  }

  /** `x & (1 << bit)`. */
  predicate BitSet(x: nat, bit: nat) {
    Shr(x, bit) % 2 == 1
  }

  /** Shifting never grows a number, so every prefix of an index is at most the index. */
  lemma {:induction false} ShrBound(x: nat, k: nat)
    ensures Shr(x, k) <= x
    ensures k > 0 && x > 0 ==> Shr(x, k) < x
  {
    if k == 0 {
    } else {
      ShrBound(x, k - 1);
    }
  }

  /** One more bit of the path. */
  lemma PathStep(x: nat, bit: nat)
    ensures Shr(x, bit) == 2 * Shr(x, bit + 1) + if BitSet(x, bit) then 1 else 0
    ensures Shr(x, bit) <= x && (x > 0 ==> Shr(x, bit + 1) < x) && (bit == 0 ==> Shr(x, bit) == x)
    ensures bit > 0 && x > 0 ==> Shr(x, bit) < x
  {
    ShrBound(x, bit);
    ShrBound(x, bit + 1);
  }

  /** The `while (s) { s >>= 1; bits++; }` loop: the number of significant bits. */
  method BitLength(x: nat) returns (bits: nat)
    ensures x == 0 ==> bits == 0
    ensures x > 0 ==> bits >= 1 && Shr(x, bits - 1) == 1
  {
    var s := x;
    bits := 0;
    while s != 0
      invariant s == Shr(x, bits)
      invariant bits >= 1 && s == 0 ==> Shr(x, bits - 1) == 1
      invariant x == 0 <==> s == 0 && bits == 0
      decreases s
    {
      s := s / 2;
      bits := bits + 1;
    }
  }
}
