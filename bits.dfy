/** The bit macros the register header builds its masks from, and the few
    facts about bits of a 32-bit word that the rest of the model reasons with.
    BIT_32_n and BIT_MASK live in xhw_types.h, which is not part of this model;
    the definitions below are the usual ones and are an assumption of the
    model. */
module Bits {

  /** Bit `n` of a 32-bit word: BIT_32_n. */
  function Bit(n: nat): (r: bv32)
    requires n < 32
    ensures SingleBit(r)
    ensures r >> n == 1
  {
    1 << n
  }

  /** The contiguous run of ones from bit `lo` up to bit `hi`: BIT_MASK(32, hi, lo).
      Its lowest set bit is bit `lo`.
      A run of all 32 bits would need `1 << 32`, which C leaves undefined; the
      header never asks for it. */
  function BitMask(hi: nat, lo: nat): (r: bv32)
    requires lo <= hi < 32 && hi - lo < 31
    ensures Meets(r, Bit(lo)) && !Meets(r, Bit(lo) - 1)
  {
    ((1 << (hi - lo + 1)) - 1) << lo
  }

  /** Exactly one bit of `b` is set. */
  predicate SingleBit(b: bv32)
  {
    b != 0 && b & (b - 1) == 0
  }

  /** Some bit of the mask `m` is set in `v`. */
  predicate Meets(v: bv32, m: bv32)
  {
    v & m != 0
  }

  /** `u` and `v` agree on every bit of the mask `m`. */
  predicate Agree(u: bv32, v: bv32, m: bv32)
  {
    u & m == v & m
  }

  lemma AgreeTransitive(u: bv32, v: bv32, w: bv32, m: bv32)
    requires Agree(u, v, m) && Agree(v, w, m)
    ensures Agree(u, w, m)
  {
  }

  /** Words that agree on a mask meet it alike. */
  lemma AgreeMeets(u: bv32, v: bv32, m: bv32)
    requires Agree(u, v, m)
    ensures Meets(u, m) <==> Meets(v, m)
  {
  }

  /** Words that agree on a mask and on its complement are equal. */
  lemma EqualBySplit(u: bv32, v: bv32, m: bv32)
    requires Agree(u, v, m) && Agree(u, v, !m)
    ensures u == v
  {
  }

  lemma OrIsZero(x: bv32, y: bv32)
    ensures x | y == 0 <==> x == 0 && y == 0
  {
  }

  lemma AndDistributesOverOr(a: bv32, b: bv32, m: bv32)
    ensures (a | b) & m == (a & m) | (b & m)
  {
  }

  lemma AndNotUnderMask(a: bv32, w: bv32, m: bv32)
    ensures (a & !w) & m == (a & m) & !(w & m)
  {
  }

  /** Under a single-bit mask a word shows either nothing or the whole bit. */
  lemma UnderSingleBit(x: bv32, m: bv32)
    requires SingleBit(m)
    ensures x & m == 0 || x & m == m
  {
  }

  /** A mask meets an OR exactly when it meets one of the operands. */
  lemma OrMeets(a: bv32, b: bv32, m: bv32)
    ensures Meets(a | b, m) <==> Meets(a, m) || Meets(b, m)
  {
    AndDistributesOverOr(a, b, m);
    OrIsZero(a & m, b & m);
  }

  /** A single bit is set in `a & !w` exactly when it is set in `a` and not in `w`. */
  lemma AndNotMeets(a: bv32, w: bv32, m: bv32)
    requires SingleBit(m)
    ensures Meets(a & !w, m) <==> Meets(a, m) && !Meets(w, m)
  {
    AndNotUnderMask(a, w, m);
    UnderSingleBit(a, m);
    UnderSingleBit(w, m);
  }
}
