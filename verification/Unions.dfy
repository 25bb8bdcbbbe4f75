/** A 16-bit word as the union of disjoint masks, each switched on or off. */
module Unions {

  function Both(a: bv16, b: bv16): bv16
  {
    a & b
  }

  function With(a: bv16, b: bv16): bv16
  {
    a | b
  }

  function Without(a: bv16, b: bv16): bv16
  {
    a & !b
  }

  // small facts about bits

  lemma BothSym(a: bv16, b: bv16)
    ensures Both(a, b) == Both(b, a)
  {}

  lemma BothNone(a: bv16)
    ensures Both(a, 0) == 0
  {}

  lemma BothSelf(a: bv16)
    ensures Both(a, a) == a
  {}

  lemma WithNone(a: bv16)
    ensures With(a, 0) == a
  {}

  lemma WithAgain(a: bv16, b: bv16)
    ensures With(With(a, b), b) == With(a, b)
  {}

  lemma WithSym(a: bv16, b: bv16)
    ensures With(a, b) == With(b, a)
  {}

  lemma WithAssoc(a: bv16, b: bv16, c: bv16)
    ensures With(With(a, b), c) == With(a, With(b, c))
  {}

  lemma WithSwap(a: bv16, b: bv16, c: bv16)
    ensures With(With(a, b), c) == With(With(a, c), b)
  {
    hide With;
    WithAssoc(a, b, c);
    WithSym(b, c);
    WithAssoc(a, c, b);
  }

  lemma BothWith(a: bv16, b: bv16, m: bv16)
    requires Both(a, m) == 0 && Both(b, m) == 0
    ensures Both(With(a, b), m) == 0
  {}

  lemma WithShown(a: bv16, m: bv16)
    requires Both(a, m) == 0
    ensures Both(With(a, m), m) == m
  {}

  lemma WithHidden(a: bv16, b: bv16, m: bv16)
    requires Both(b, m) == 0
    ensures Both(With(a, b), m) == Both(a, m)
  {}

  lemma WithoutSame(a: bv16, m: bv16)
    requires Both(a, m) == 0
    ensures Without(a, m) == a && Without(With(a, m), m) == a
  {}

  lemma WithoutWith(a: bv16, b: bv16, m: bv16)
    requires Both(b, m) == 0
    ensures Without(With(a, b), m) == With(Without(a, m), b)
  {}

  lemma WithoutTwo(a: bv16, b: bv16, c: bv16)
    ensures Without(a, With(b, c)) == Without(Without(a, b), c)
  {}

  // ----------------------------------------------------------------- unions

  ghost predicate Disjoint(masks: seq<bv16>)
  {
    forall i, j :: 0 <= i < j < |masks| ==> Both(masks[i], masks[j]) == 0
  }

  /** The masks that are on, together. */
  ghost function Union(masks: seq<bv16>, on: seq<bool>): bv16
    requires |masks| == |on|
  {
    if masks == [] then 0
    else
      var n := |masks| - 1;
      With(Union(masks[..n], on[..n]), if on[n] then masks[n] else 0)
  }

  lemma UnionApart(masks: seq<bv16>, on: seq<bool>, m: bv16)
    requires |masks| == |on| && forall i :: 0 <= i < |masks| ==> Both(masks[i], m) == 0
    ensures Both(Union(masks, on), m) == 0
  {
    BothNone(m);
    BothSym(0, m);
    hide Both, With;
    if masks != [] {
      var n := |masks| - 1;
      UnionApart(masks[..n], on[..n], m);
      BothWith(Union(masks[..n], on[..n]), if on[n] then masks[n] else 0, m);
    }
  }

  lemma TailApart(masks: seq<bv16>, on: seq<bool>)
    requires |masks| == |on| && masks != [] && Disjoint(masks)
    ensures var n := |masks| - 1;
      Both(Union(masks[..n], on[..n]), masks[n]) == 0 && Disjoint(masks[..n])
  {
    hide Both;
    var n := |masks| - 1;
    assert forall i, j :: 0 <= i < j < n ==> masks[..n][i] == masks[i] && masks[..n][j] == masks[j];
    UnionApart(masks[..n], on[..n], masks[n]);
  }

  /** Setting the bits of one mask in the union switches that mask on and no other. */
  lemma UnionSet(masks: seq<bv16>, on: seq<bool>, j: nat)
    requires |masks| == |on| && j < |masks| && Disjoint(masks)
    ensures With(Union(masks, on), masks[j]) == Union(masks, on[j := true])
  {
    hide Both, With;
    var n := |masks| - 1;
    var rest := Union(masks[..n], on[..n]);
    TailApart(masks, on);
    if j == n {
      assert on[j := true][..n] == on[..n];
      WithAgain(rest, masks[n]);
      WithNone(rest);
    } else {
      UnionSet(masks[..n], on[..n], j);
      assert on[j := true][..n] == on[..n][j := true];
      WithSwap(rest, if on[n] then masks[n] else 0, masks[j]);
    }
  }

  /** Clearing the bits of one mask switches that mask off and no other. */
  lemma UnionClear(masks: seq<bv16>, on: seq<bool>, j: nat)
    requires |masks| == |on| && j < |masks| && Disjoint(masks)
    ensures Without(Union(masks, on), masks[j]) == Union(masks, on[j := false])
  {
    hide Both, With, Without;
    var n := |masks| - 1;
    var rest := Union(masks[..n], on[..n]);
    TailApart(masks, on);
    if j == n {
      assert on[j := false][..n] == on[..n];
      WithoutSame(rest, masks[n]);
      WithNone(rest);
    } else {
      UnionClear(masks[..n], on[..n], j);
      assert on[j := false][..n] == on[..n][j := false];
      var last := if on[n] then masks[n] else 0;
      BothNone(masks[j]);
      BothSym(masks[j], masks[n]);
      BothSym(masks[j], 0);
      WithoutWith(rest, last, masks[j]);
    }
  }

  /** Each mask of the union reads back as switched. */
  lemma UnionRead(masks: seq<bv16>, on: seq<bool>, j: nat)
    requires |masks| == |on| && j < |masks| && Disjoint(masks)
    ensures Both(Union(masks, on), masks[j]) == if on[j] then masks[j] else 0
  {
    hide Both, With;
    var n := |masks| - 1;
    var rest := Union(masks[..n], on[..n]);
    TailApart(masks, on);
    WithNone(rest);
    if j == n {
      WithShown(rest, masks[n]);
    } else {
      UnionRead(masks[..n], on[..n], j);
      BothSym(masks[j], masks[n]);
      WithHidden(rest, masks[n], masks[j]);
    }
  }

  lemma UnionOff(masks: seq<bv16>, on: seq<bool>)
    requires |masks| == |on| && forall i :: 0 <= i < |on| ==> !on[i]
    ensures Union(masks, on) == 0
  {
    hide With;
    if masks != [] {
      UnionOff(masks[..|masks| - 1], on[..|masks| - 1]);
      WithNone(0);
    }
  }
}
