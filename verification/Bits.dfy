/** Masks over 32-bit words.  Each lemma is one small fact; proofs elsewhere use these
    facts and never look inside the operations. */
module Bits {

  /** The part of a word that a mask lets through. */
  function Seen(s: bv32, mask: bv32): bv32
  {
    s & mask
  }

  function Outside(s: bv32, mask: bv32): bv32
  {
    s & !mask
  }

  function Join(a: bv32, b: bv32): bv32
  {
    a | b
  }

  lemma SeenSym(a: bv32, b: bv32)
    ensures Seen(a, b) == Seen(b, a)
  {}

  lemma SeenSelf(a: bv32)
    ensures Seen(a, a) == a
  {}

  lemma SeenNone(s: bv32)
    ensures Seen(s, 0) == 0
  {}

  lemma JoinNone(a: bv32)
    ensures Join(a, 0) == a
  {}

  lemma JoinAssoc(a: bv32, b: bv32, c: bv32)
    ensures Join(Join(a, b), c) == Join(a, Join(b, c))
  {}

  /** Clearing a mask does not show under a mask that does not meet it. */
  lemma OutsideApart(s: bv32, mask: bv32, other: bv32)
    requires Seen(mask, other) == 0
    ensures Seen(Outside(s, mask), other) == Seen(s, other)
  {}

  lemma OutsideOwn(s: bv32, mask: bv32)
    ensures Seen(Outside(s, mask), mask) == 0
  {}

  /** Bits under one mask are invisible to a mask that does not meet it. */
  lemma WithinApart(bits: bv32, mask: bv32, other: bv32)
    requires Seen(mask, other) == 0 && Seen(bits, mask) == bits
    ensures Seen(bits, other) == 0
  {}

  lemma JoinHidden(s: bv32, bits: bv32, other: bv32)
    requires Seen(bits, other) == 0
    ensures Seen(Join(s, bits), other) == Seen(s, other)
  {}

  lemma JoinShown(s: bv32, bits: bv32, mask: bv32)
    requires Seen(s, mask) == 0 && Seen(bits, mask) == bits
    ensures Seen(Join(s, bits), mask) == bits
  {}

  lemma SeenJoin(a: bv32, b: bv32, c: bv32, m: bv32)
    requires Seen(a, c) == Seen(b, c) && Seen(a, m) == Seen(b, m)
    ensures Seen(a, Join(c, m)) == Seen(b, Join(c, m))
  {}

  lemma OutsideJoin(s: bv32, a: bv32, b: bv32)
    requires Outside(s, a) == 0 || s == b
    ensures Outside(s, Join(a, b)) == 0
  {}

  lemma OutsideOutside(s: bv32, mask: bv32, cover: bv32)
    requires Outside(s, cover) == 0
    ensures Outside(Outside(s, mask), cover) == 0
  {}

  lemma JoinCovered(a: bv32, b: bv32, cover: bv32)
    requires Outside(a, cover) == 0 && Outside(b, cover) == 0
    ensures Outside(Join(a, b), cover) == 0
  {}

  lemma WithinCovered(bits: bv32, mask: bv32, cover: bv32)
    requires Seen(bits, mask) == bits && Outside(mask, cover) == 0
    ensures Outside(bits, cover) == 0
  {}

  lemma CoveredSame(a: bv32, b: bv32, cover: bv32)
    requires Outside(a, cover) == 0 && Outside(b, cover) == 0 && Seen(a, cover) == Seen(b, cover)
    ensures a == b
  {}

  lemma CoversApart(m: bv32, n: bv32, c: bv32, d: bv32)
    requires Seen(c, d) == 0 && Outside(m, c) == 0 && Outside(n, d) == 0
    ensures Seen(m, n) == 0
  {}

  lemma OutsideSeen(s: bv32, cover: bv32, gap: bv32)
    requires gap == !cover
    ensures Outside(s, cover) == Seen(s, gap)
  {}

  /** Exactly one bit is set. */
  predicate Single(m: bv32)
  {
    m != 0 && m & (m - 1) == 0
  }

  lemma SingleSeen(m: bv32, s: bv32)
    requires Single(m)
    ensures Seen(s, m) == 0 || Seen(s, m) == m
  {}
}
