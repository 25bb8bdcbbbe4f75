/** The bit arrays of src/tools.h: bit `i` is bit `i & 7` of byte `i >> 3`. */
module Bitmaps {

  function ByteBit(k: nat): bv8
    requires k < 8
  {
    if k == 0 then 1 else if k == 1 then 2 else if k == 2 then 4 else if k == 3 then 8
    else if k == 4 then 16 else if k == 5 then 32 else if k == 6 then 64 else 128
  }

  predicate Test(b: bv8, k: nat)
    requires k < 8
  {
    b & ByteBit(k) != 0
  }

  function Clear(b: bv8, k: nat): bv8
    requires k < 8
  {
    b & !ByteBit(k)
  }

  predicate BitGet(bytes: seq<bv8>, i: nat)
    requires i < 8 * |bytes|
  {
    Test(bytes[i / 8], i % 8)
  }

  /** The bits of a byte are numbered from the lowest. */
  lemma TestIsShift(b: bv8, k: nat)
    requires k < 8
    ensures Test(b, k) <==> (b >> k) & 1 == 1
  {}

  lemma ClearOwn(b: bv8, m: bv8)
    ensures (b & !m) & m == 0
  {}

  lemma ClearOther(b: bv8, m: bv8, n: bv8)
    requires m & n == 0
    ensures (b & !m) & n == b & n
  {}

  lemma Apart(j: nat, k: nat)
    requires j < 8 && k < 8 && j != k
    ensures ByteBit(k) & ByteBit(j) == 0
  {}

  lemma ClearOne(b: bv8, j: nat, k: nat)
    requires j < 8 && k < 8
    ensures Test(Clear(b, k), j) <==> j != k && Test(b, j)
  {
    if j == k {
      ClearOwn(b, ByteBit(k));
    } else {
      Apart(j, k);
      ClearOther(b, ByteBit(k), ByteBit(j));
    }
  }

  lemma ClearBit(bytes: seq<bv8>, i: nat, j: nat)
    requires i < 8 * |bytes| && j < 8 * |bytes|
    ensures BitGet(bytes[i / 8 := Clear(bytes[i / 8], i % 8)], j) <==> j != i && BitGet(bytes, j)
  {
    hide Test, Clear;
    ClearOne(bytes[i / 8], j % 8, i % 8);
  }

  ghost function FlagsUpTo(bytes: seq<bv8>, n: nat): (flags: seq<bool>)
    requires n <= 8 * |bytes|
    ensures |flags| == n && forall i :: 0 <= i < n ==> flags[i] == BitGet(bytes, i)
  {
    if n == 0 then [] else FlagsUpTo(bytes, n - 1) + [BitGet(bytes, n - 1)]
  }

  /** A bitmap read as a sequence of flags. */
  ghost function Flags(bytes: seq<bv8>): (flags: seq<bool>)
    ensures |flags| == 8 * |bytes|
    ensures forall i :: 0 <= i < |flags| ==> flags[i] == BitGet(bytes, i)
  {
    FlagsUpTo(bytes, 8 * |bytes|)
  }

  /** The byte with the first of the given bits. */
  function PackByte(flags: seq<bool>, n: nat): bv8
    requires n <= 8 && n <= |flags|
  {
    if n == 0 then 0 else Set(PackByte(flags, n - 1), if flags[n - 1] then ByteBit(n - 1) else 0)
  }

  function Set(b: bv8, m: bv8): bv8
  {
    b | m
  }

  lemma SetOwn(b: bv8, m: bv8)
    ensures Set(b, m) & m == m
  {}

  lemma SetOther(b: bv8, m: bv8, n: bv8)
    requires m & n == 0
    ensures Set(b, m) & n == b & n
  {}

  lemma SetTest(b: bv8, k: nat, on: bool, j: nat)
    requires k < 8 && j < 8
    ensures Test(Set(b, if on then ByteBit(k) else 0), j) <==> (j == k && on) || Test(b, j)
  {
    var m := if on then ByteBit(k) else 0;
    if j == k && on {
      SetOwn(b, m);
    } else {
      if j != k { Apart(j, k); }
      SetOther(b, m, ByteBit(j));
    }
    hide Set;
  }

  lemma {:induction false} PackedBit(flags: seq<bool>, n: nat, j: nat)
    requires n <= 8 && n <= |flags| && j < 8
    ensures Test(PackByte(flags, n), j) <==> j < n && flags[j]
  {
    if n == 0 {
      assert PackByte(flags, 0) == 0;
    } else {
      hide Set, Test, ByteBit;
      PackedBit(flags, n - 1, j);
      SetTest(PackByte(flags, n - 1), n - 1, flags[n - 1], j);
    }
  }

  /** The bitmap of `n` bytes with the first of the given flags. */
  function Pack(flags: seq<bool>, n: nat): (bytes: seq<bv8>)
    requires 8 * n <= |flags|
    ensures |bytes| == n
  {
    if n == 0 then [] else Pack(flags, n - 1) + [PackByte(flags[8 * (n - 1)..], 8)]
  }

  lemma BitAppend(bytes: seq<bv8>, b: bv8, i: nat)
    requires i < 8 * |bytes| + 8
    ensures BitGet(bytes + [b], i) == if i < 8 * |bytes| then BitGet(bytes, i) else Test(b, i - 8 * |bytes|)
  {
    hide Test;
    if i >= 8 * |bytes| {
      assert i / 8 == |bytes| && i % 8 == i - 8 * |bytes|;
    }
  }

  lemma {:induction false} PackedBits(flags: seq<bool>, n: nat, i: nat)
    requires 8 * n <= |flags| && i < 8 * n
    ensures BitGet(Pack(flags, n), i) == flags[i]
  {
    hide PackByte, Test, BitGet;
    var last := flags[8 * (n - 1)..];
    BitAppend(Pack(flags, n - 1), PackByte(last, 8), i);
    if i < 8 * (n - 1) {
      PackedBits(flags, n - 1, i);
    } else {
      PackedBit(last, 8, i - 8 * (n - 1));
    }
  }

  /** Packing and reading back gives the same flags. */
  lemma PackedFlags(flags: seq<bool>, n: nat)
    requires |flags| == 8 * n
    ensures Flags(Pack(flags, n)) == flags
  {
    hide Pack, BitGet;
    forall i | 0 <= i < |flags| ensures BitGet(Pack(flags, n), i) == flags[i] {
      PackedBits(flags, n, i);
    }
  }

  method BitClear(bytes: array<bv8>, i: nat)
    requires i < 8 * bytes.Length
    modifies bytes
    ensures Flags(bytes[..]) == Flags(old(bytes[..]))[i := false]
  {
    hide Test, Clear, BitGet;
    ghost var was := bytes[..];
    bytes[i / 8] := Clear(bytes[i / 8], i % 8);
    assert bytes[..] == was[i / 8 := Clear(was[i / 8], i % 8)];
    forall j | 0 <= j < 8 * |was| ensures BitGet(bytes[..], j) == (j != i && BitGet(was, j)) {
      ClearBit(was, i, j);
    }
  }
}
