/** The keystroke engine of src/dll.c: a walk from a remembered button state to the
    current one that reports one key at a time.

    Button states are 32-bit words.  A table entry is "active" in a state when the
    masked state equals the entry's bits.  The eight directions of a stick share one
    mask, so one direction must be released before another is pressed. */
module Keystroke {
  import opened Bits
  import opened Wrappers

  datatype Entry = Entry(bits: bv32, mask: bv32, vk: nat)

  /** One reported change: the table row and whether its key went down. */
  datatype Stroke = Stroke(row: nat, down: bool)

  // ---------------------------------------------------------------- tables

  ghost predicate RowProper(e: Entry)
  {
    e.bits != 0 && Seen(e.bits, e.mask) == e.bits
  }

  ghost predicate Compatible(d: Entry, e: Entry)
  {
    if d.mask == e.mask then d.bits != e.bits else Seen(d.mask, e.mask) == 0
  }

  /** What the engine needs of a table: rows with the same mask are alternatives, rows
      with different masks do not overlap, and no row is active in the empty state. */
  ghost predicate Proper(t: seq<Entry>)
  {
    && (forall i :: 0 <= i < |t| ==> RowProper(t[i]))
    && (forall i, j :: 0 <= i < |t| && 0 <= j < |t| && i != j ==> Compatible(t[i], t[j]))
  }

  predicate IsActive(e: Entry, s: bv32)
  {
    Seen(s, e.mask) == e.bits
  }

  ghost function Active(t: seq<Entry>, s: bv32): (a: set<nat>)
    ensures forall i :: i in a <==> 0 <= i < |t| && IsActive(t[i], s)
  {
    set i: nat | i < |t| && IsActive(t[i], s)
  }

  ghost function Releases(t: seq<Entry>, from: bv32, to: bv32): set<nat>
  {
    Active(t, from) - Active(t, to)
  }

  ghost function Presses(t: seq<Entry>, from: bv32, to: bv32): set<nat>
  {
    Active(t, to) - Active(t, from)
  }

  /** The state after reporting a stroke. */
  function Apply(e: Entry, s: bv32, down: bool): bv32
  {
    Write(e.mask, e.bits, s, down)
  }

  function Write(mask: bv32, bits: bv32, s: bv32, down: bool): bv32
  {
    if down then Join(Outside(s, mask), bits) else Outside(s, mask)
  }

  /** Every bit of the state belongs to some row, and every mask holds nothing or the
      bits of one of its rows. */
  ghost predicate WellFormed(t: seq<Entry>, s: bv32)
  {
    && Outside(s, Cover(t)) == 0
    && (forall i :: 0 <= i < |t| ==> Settled(t, t[i].mask, s))
  }

  ghost predicate Settled(t: seq<Entry>, mask: bv32, s: bv32)
  {
    Seen(s, mask) == 0 || exists j :: 0 <= j < |t| && t[j].mask == mask && IsActive(t[j], s)
  }

  ghost function Cover(t: seq<Entry>): bv32
  {
    if t == [] then 0 else Join(Cover(t[..|t| - 1]), t[|t| - 1].mask)
  }

  // ------------------------------------------------- one call of the engine

  predicate Released(e: Entry, from: bv32, to: bv32)
  {
    IsActive(e, from) && !IsActive(e, to)
  }

  /** The first row at or after `i` active in `from` and not in `to`, or the table size. */
  function FirstReleased(t: seq<Entry>, from: bv32, to: bv32, i: nat): (r: nat)
    requires i <= |t|
    ensures i <= r <= |t|
    ensures r < |t| ==> Released(t[r], from, to)
    ensures forall k :: i <= k < r ==> !Released(t[k], from, to)
    decreases |t| - i
  {
    if i == |t| then i
    else if Released(t[i], from, to) then i
    else FirstReleased(t, from, to, i + 1)
  }

  /** Releases are reported before presses, each in table order. */
  function NextStroke(t: seq<Entry>, from: bv32, to: bv32): Option<Stroke>
  {
    var up := FirstReleased(t, from, to, 0);
    var down := FirstReleased(t, to, from, 0);
    if up < |t| then Some(Stroke(up, false))
    else if down < |t| then Some(Stroke(down, true))
    else None
  }

  function Take(t: seq<Entry>, from: bv32, to: bv32): (next: bv32)
  {
    match NextStroke(t, from, to)
    case None => from
    case Some(k) => Apply(t[k.row], from, k.down)
  }

  // ------------------------------------------------------------ bit algebra

  /** A stroke leaves what any other mask sees alone. */
  lemma WriteOther(mask: bv32, bits: bv32, s: bv32, down: bool, other: bv32)
    requires Seen(mask, other) == 0 && Seen(bits, mask) == bits
    ensures Seen(Write(mask, bits, s, down), other) == Seen(s, other)
  {
    hide Seen, Outside, Join;
    OutsideApart(s, mask, other);
    if down {
      WithinApart(bits, mask, other);
      JoinHidden(Outside(s, mask), bits, other);
    }
  }

  lemma WriteOwn(mask: bv32, bits: bv32, s: bv32, down: bool)
    requires Seen(bits, mask) == bits
    ensures Seen(Write(mask, bits, s, down), mask) == if down then bits else 0
  {
    hide Seen, Outside, Join;
    OutsideOwn(s, mask);
    if down { JoinShown(Outside(s, mask), bits, mask); }
  }

  lemma ActiveAfter(t: seq<Entry>, s: bv32, i: nat, down: bool, j: nat)
    requires Proper(t) && i < |t| && j < |t|
    ensures IsActive(t[j], Apply(t[i], s, down)) <==>
            if t[i].mask == t[j].mask then i == j && down else IsActive(t[j], s)
  {
    hide Write, Seen;
    var d, e := t[i], t[j];
    assert RowProper(d) && RowProper(e);
    assert i != j ==> Compatible(d, e);
    if d.mask == e.mask {
      WriteOwn(d.mask, d.bits, s, down);
    } else {
      WriteOther(d.mask, d.bits, s, down, e.mask);
    }
  }

  /** At most one row of a mask is active. */
  lemma OneOfMask(t: seq<Entry>, s: bv32, i: nat, j: nat)
    requires Proper(t) && i in Active(t, s) && j in Active(t, s) && t[i].mask == t[j].mask
    ensures i == j
  {
    assert i != j ==> Compatible(t[i], t[j]);
  }

  /** A release takes exactly its own row out of the active set. */
  lemma ActiveAfterUp(t: seq<Entry>, s: bv32, i: nat)
    requires Proper(t) && i in Active(t, s)
    ensures Active(t, Apply(t[i], s, false)) == Active(t, s) - {i}
  {
    var s' := Apply(t[i], s, false);
    forall j: nat | j < |t|
      ensures j in Active(t, s') <==> j in Active(t, s) && j != i
    {
      ActiveAfter(t, s, i, false, j);
      if j in Active(t, s) && t[i].mask == t[j].mask { OneOfMask(t, s, i, j); }
    }
  }

  /** A press reported while nothing is left to release adds exactly its own row. */
  lemma ActiveAfterDown(t: seq<Entry>, from: bv32, to: bv32, i: nat)
    requires Proper(t) && Active(t, from) <= Active(t, to)
    requires i in Active(t, to) && i !in Active(t, from)
    ensures Active(t, Apply(t[i], from, true)) == Active(t, from) + {i}
  {
    var s' := Apply(t[i], from, true);
    forall j: nat | j < |t|
      ensures j in Active(t, s') <==> j in Active(t, from) || j == i
    {
      ActiveAfter(t, from, i, true, j);
      if j in Active(t, from) && t[i].mask == t[j].mask { OneOfMask(t, to, i, j); }
    }
  }

  // ----------------------------------------------------------- step measure

  ghost function Distance(t: seq<Entry>, from: bv32, to: bv32): nat
  {
    |Releases(t, from, to)| + |Presses(t, from, to)|
  }

  /** No stroke is reported exactly when both states have the same active rows. */
  lemma NoStrokeIff(t: seq<Entry>, from: bv32, to: bv32)
    ensures NextStroke(t, from, to).None? <==> Active(t, from) == Active(t, to)
  {
    var up := FirstReleased(t, from, to, 0);
    var down := FirstReleased(t, to, from, 0);
    if NextStroke(t, from, to).None? {
      forall i: nat | i < |t| ensures IsActive(t[i], from) <==> IsActive(t[i], to) {
        assert !Released(t[i], from, to) && !Released(t[i], to, from);
      }
    } else if up < |t| {
      assert up in Active(t, from) && up !in Active(t, to);
    } else {
      assert down in Active(t, to) && down !in Active(t, from);
    }
  }

  lemma NoStrokeToItself(t: seq<Entry>, s: bv32)
    ensures NextStroke(t, s, s).None?
  {}

  ghost predicate Least(i: nat, s: set<nat>)
  {
    i in s && forall j :: j in s ==> i <= j
  }

  lemma StepUp(t: seq<Entry>, from: bv32, to: bv32)
    requires Proper(t) && FirstReleased(t, from, to, 0) < |t|
    ensures var up := FirstReleased(t, from, to, 0);
      var next := Apply(t[up], from, false);
      && Least(up, Releases(t, from, to))
      && Releases(t, next, to) == Releases(t, from, to) - {up}
      && Presses(t, next, to) == Presses(t, from, to)
  {
    hide Apply, Seen;
    var up := FirstReleased(t, from, to, 0);
    ActiveAfterUp(t, from, up);
    forall j | j in Releases(t, from, to) ensures up <= j {
      assert Released(t[j], from, to);
    }
  }

  lemma NothingReleased(t: seq<Entry>, from: bv32, to: bv32)
    requires FirstReleased(t, from, to, 0) == |t|
    ensures Active(t, from) <= Active(t, to) && Releases(t, from, to) == {}
  {
    hide Seen;
    forall j: nat | j < |t| ensures j in Active(t, from) ==> j in Active(t, to) {
      assert !Released(t[j], from, to);
    }
  }

  lemma StepDown(t: seq<Entry>, from: bv32, to: bv32)
    requires Proper(t) && FirstReleased(t, from, to, 0) == |t| && FirstReleased(t, to, from, 0) < |t|
    ensures var down := FirstReleased(t, to, from, 0);
      var next := Apply(t[down], from, true);
      && Least(down, Presses(t, from, to))
      && Active(t, next) == Active(t, from) + {down}
      && Releases(t, from, to) == Releases(t, next, to) == {}
      && Presses(t, next, to) == Presses(t, from, to) - {down}
  {
    hide Apply, Seen;
    var down := FirstReleased(t, to, from, 0);
    NothingReleased(t, from, to);
    ActiveAfterDown(t, from, to, down);
    forall j | j in Presses(t, from, to) ensures down <= j {
      assert Released(t[j], to, from);
    }
  }

  /** One successful call changes the active rows by exactly the reported one, which is
      the least pending release or, when there is none, the least pending press, and
      brings the state one row closer to the target. */
  lemma StepChangesOneRow(t: seq<Entry>, from: bv32, to: bv32)
    requires Proper(t) && NextStroke(t, from, to).Some?
    ensures var k := NextStroke(t, from, to).value;
      var next := Take(t, from, to);
      && k.row < |t|
      && (!k.down ==> Least(k.row, Releases(t, from, to)) && Active(t, next) == Active(t, from) - {k.row})
      && (k.down ==> Releases(t, from, to) == {} && Least(k.row, Presses(t, from, to))
                     && Active(t, next) == Active(t, from) + {k.row})
      && Distance(t, next, to) == Distance(t, from, to) - 1
  {
    hide Apply, IsActive, Seen, Active;
    if FirstReleased(t, from, to, 0) < |t| {
      StepUp(t, from, to);
      ActiveAfterUp(t, from, FirstReleased(t, from, to, 0));
    } else {
      StepDown(t, from, to);
    }
  }

  // ------------------------------------------------------------ well-formed

  lemma CoverRow(t: seq<Entry>, i: nat)
    requires i < |t|
    ensures Outside(t[i].mask, Cover(t)) == 0
  {
    hide Outside, Join;
    var last := |t| - 1;
    if i < last {
      CoverRow(t[..last], i);
    }
    OutsideJoin(t[i].mask, Cover(t[..last]), t[last].mask);
  }

  lemma StaysCovered(mask: bv32, bits: bv32, s: bv32, down: bool, cover: bv32)
    requires Outside(s, cover) == 0 && Outside(mask, cover) == 0 && Seen(bits, mask) == bits
    ensures Outside(Write(mask, bits, s, down), cover) == 0
  {
    hide Seen, Outside, Join;
    OutsideOutside(s, mask, cover);
    WithinCovered(bits, mask, cover);
    if down { JoinCovered(Outside(s, mask), bits, cover); }
  }

  /** A stroke keeps a well-formed state well formed. */
  lemma ApplyWellFormed(t: seq<Entry>, s: bv32, i: nat, down: bool)
    requires Proper(t) && WellFormed(t, s) && i < |t|
    ensures WellFormed(t, Apply(t[i], s, down))
  {
    hide Seen, Write, Cover, Outside;
    var s' := Apply(t[i], s, down);
    assert RowProper(t[i]);
    CoverRow(t, i);
    StaysCovered(t[i].mask, t[i].bits, s, down, Cover(t));
    WriteOwn(t[i].mask, t[i].bits, s, down);
    forall j | 0 <= j < |t| ensures Settled(t, t[j].mask, s') {
      if t[i].mask == t[j].mask {
        assert down ==> IsActive(t[i], s');
      } else {
        assert Compatible(t[i], t[j]);
        WriteOther(t[i].mask, t[i].bits, s, down, t[j].mask);
        assert Settled(t, t[j].mask, s);
      }
    }
  }

  lemma SameSeen(t: seq<Entry>, a: bv32, b: bv32, i: nat)
    requires WellFormed(t, a) && WellFormed(t, b) && Active(t, a) == Active(t, b) && i < |t|
    ensures Seen(a, t[i].mask) == Seen(b, t[i].mask)
  {
    hide Seen, Cover, Outside;
    assert Settled(t, t[i].mask, a) && Settled(t, t[i].mask, b);
    assert forall j :: 0 <= j < |t| && IsActive(t[j], a) ==> j in Active(t, b);
    assert forall j :: 0 <= j < |t| && IsActive(t[j], b) ==> j in Active(t, a);
  }

  lemma SameUnderCover(t: seq<Entry>, a: bv32, b: bv32)
    requires forall i :: 0 <= i < |t| ==> Seen(a, t[i].mask) == Seen(b, t[i].mask)
    ensures Seen(a, Cover(t)) == Seen(b, Cover(t))
  {
    hide Seen, Join;
    if t == [] {
      SeenNone(a);
      SeenNone(b);
    } else {
      var rest := t[..|t| - 1];
      SameUnderCover(rest, a, b);
      SeenJoin(a, b, Cover(rest), t[|t| - 1].mask);
    }
  }

  /** Well-formed states with the same active rows are the same state. */
  lemma WellFormedUnique(t: seq<Entry>, a: bv32, b: bv32)
    requires WellFormed(t, a) && WellFormed(t, b) && Active(t, a) == Active(t, b)
    ensures a == b
  {
    hide Seen, Cover, Outside;
    forall i | 0 <= i < |t| ensures Seen(a, t[i].mask) == Seen(b, t[i].mask) {
      SameSeen(t, a, b, i);
    }
    SameUnderCover(t, a, b);
    CoveredSame(a, b, Cover(t));
  }

  // ------------------------------------------------------------------ drain

  /** The pending releases (or, with the states swapped, presses) from row `i` on. */
  function Pending(t: seq<Entry>, from: bv32, to: bv32, i: nat, down: bool): (ks: seq<Stroke>)
    requires i <= |t|
    decreases |t| - i
  {
    if i == |t| then []
    else if Released(t[i], from, to) then [Stroke(i, down)] + Pending(t, from, to, i + 1, down)
    else Pending(t, from, to, i + 1, down)
  }

  /** The strokes reported by repeated calls with a fixed target, until none is left. */
  ghost function Drain(t: seq<Entry>, from: bv32, to: bv32): (seq<Stroke>, bv32)
    requires Proper(t)
    decreases Distance(t, from, to)
  {
    if NextStroke(t, from, to).None? then ([], from)
    else
      StepChangesOneRow(t, from, to);
      var (ks, last) := Drain(t, Take(t, from, to), to);
      ([NextStroke(t, from, to).value] + ks, last)
  }

  lemma PendingSkip(t: seq<Entry>, from: bv32, to: bv32, i: nat, r: nat, down: bool)
    requires i <= r <= |t|
    requires forall k :: i <= k < r ==> !Released(t[k], from, to)
    ensures Pending(t, from, to, i, down) == Pending(t, from, to, r, down)
    decreases r - i
  {
    if i < r { PendingSkip(t, from, to, i + 1, r, down); }
  }

  lemma PendingSame(t: seq<Entry>, a: bv32, b: bv32, a': bv32, b': bv32, i: nat, down: bool)
    requires i <= |t|
    requires forall k :: i <= k < |t| ==> Released(t[k], a, b) == Released(t[k], a', b')
    ensures Pending(t, a, b, i, down) == Pending(t, a', b', i, down)
    decreases |t| - i
  {
    if i < |t| { PendingSame(t, a, b, a', b', i + 1, down); }
  }

  lemma PendingHead(t: seq<Entry>, a: bv32, b: bv32, a': bv32, b': bv32, down: bool)
    requires var r := FirstReleased(t, a, b, 0);
      && r < |t|
      && (forall k :: 0 <= k < |t| ==> (Released(t[k], a', b') <==> Released(t[k], a, b) && k != r))
    ensures var r := FirstReleased(t, a, b, 0);
      Pending(t, a, b, 0, down) == [Stroke(r, down)] + Pending(t, a', b', 0, down)
  {
    hide Released;
    var r := FirstReleased(t, a, b, 0);
    PendingSkip(t, a, b, 0, r, down);
    PendingSkip(t, a', b', 0, r + 1, down);
    PendingSame(t, a, b, a', b', r + 1, down);
  }

  lemma InReleases(t: seq<Entry>, a: bv32, b: bv32)
    ensures forall k :: 0 <= k < |t| ==> (Released(t[k], a, b) <==> k in Releases(t, a, b))
    ensures forall k :: 0 <= k < |t| ==> (Released(t[k], b, a) <==> k in Presses(t, a, b))
  {}

  lemma DrainUp(t: seq<Entry>, from: bv32, to: bv32)
    requires Proper(t) && FirstReleased(t, from, to, 0) < |t|
    ensures var up := FirstReleased(t, from, to, 0);
      var next := Apply(t[up], from, false);
      && Pending(t, from, to, 0, false) == [Stroke(up, false)] + Pending(t, next, to, 0, false)
      && Pending(t, to, from, 0, true) == Pending(t, to, next, 0, true)
  {
    hide Apply, IsActive, Seen, Released;
    var next := Apply(t[FirstReleased(t, from, to, 0)], from, false);
    StepUp(t, from, to);
    InReleases(t, from, to);
    InReleases(t, next, to);
    PendingHead(t, from, to, next, to, false);
    PendingSame(t, to, from, to, next, 0, true);
  }

  lemma DrainDown(t: seq<Entry>, from: bv32, to: bv32)
    requires Proper(t) && FirstReleased(t, from, to, 0) == |t| && FirstReleased(t, to, from, 0) < |t|
    ensures var down := FirstReleased(t, to, from, 0);
      var next := Apply(t[down], from, true);
      && Pending(t, from, to, 0, false) == Pending(t, next, to, 0, false) == []
      && Pending(t, to, from, 0, true) == [Stroke(down, true)] + Pending(t, to, next, 0, true)
  {
    hide Apply, IsActive, Seen, Released;
    var next := Apply(t[FirstReleased(t, to, from, 0)], from, true);
    StepDown(t, from, to);
    InReleases(t, from, to);
    InReleases(t, next, to);
    PendingSkip(t, from, to, 0, |t|, false);
    PendingSkip(t, next, to, 0, |t|, false);
    PendingHead(t, to, from, to, next, true);
  }

  lemma DrainHead(t: seq<Entry>, from: bv32, to: bv32)
    requires Proper(t) && NextStroke(t, from, to).Some?
    ensures var next := Take(t, from, to);
      Pending(t, from, to, 0, false) + Pending(t, to, from, 0, true) ==
      [NextStroke(t, from, to).value] + (Pending(t, next, to, 0, false) + Pending(t, to, next, 0, true))
  {
    hide Apply, IsActive, Seen, Active, Pending;
    if FirstReleased(t, from, to, 0) < |t| {
      DrainUp(t, from, to);
    } else {
      DrainDown(t, from, to);
    }
  }

  lemma DrainEmpty(t: seq<Entry>, from: bv32, to: bv32)
    requires Active(t, from) == Active(t, to)
    ensures Pending(t, from, to, 0, false) == [] == Pending(t, to, from, 0, true)
    ensures Distance(t, from, to) == 0
  {
    hide IsActive;
    InReleases(t, from, to);
    PendingSkip(t, from, to, 0, |t|, false);
    PendingSkip(t, to, from, 0, |t|, true);
  }

  /** Draining reports every release and then every press, each once and in table order,
      and stops with the active rows of the target. */
  lemma {:induction false} DrainIsSpec(t: seq<Entry>, from: bv32, to: bv32)
    requires Proper(t)
    ensures Drain(t, from, to).0 == Pending(t, from, to, 0, false) + Pending(t, to, from, 0, true)
    ensures Active(t, Drain(t, from, to).1) == Active(t, to)
    ensures |Drain(t, from, to).0| == Distance(t, from, to)
    decreases Distance(t, from, to)
  {
    hide Apply, IsActive, Seen, Active, Pending, FirstReleased, Releases, Presses;
    if NextStroke(t, from, to).None? {
      NoStrokeIff(t, from, to);
      DrainEmpty(t, from, to);
    } else {
      var next := Take(t, from, to);
      StepChangesOneRow(t, from, to);
      DrainIsSpec(t, next, to);
      DrainHead(t, from, to);
    }
  }

  lemma DrainWellFormed(t: seq<Entry>, from: bv32, to: bv32)
    requires Proper(t) && WellFormed(t, from)
    ensures WellFormed(t, Drain(t, from, to).1)
    decreases Distance(t, from, to)
  {
    hide Apply, IsActive, Seen, Active, WellFormed;
    if NextStroke(t, from, to).Some? {
      StepChangesOneRow(t, from, to);
      var k := NextStroke(t, from, to).value;
      ApplyWellFormed(t, from, k.row, k.down);
      DrainWellFormed(t, Take(t, from, to), to);
    }
  }

  /** The remembered state reaches the target exactly when the target is well formed:
      a target with stray bits or with two opposite directions is never remembered. */
  lemma DrainReachesTargetIff(t: seq<Entry>, from: bv32, to: bv32)
    requires Proper(t) && WellFormed(t, from)
    ensures Drain(t, from, to).1 == to <==> WellFormed(t, to)
  {
    hide WellFormed;
    DrainWellFormed(t, from, to);
    DrainIsSpec(t, from, to);
    if WellFormed(t, to) {
      WellFormedUnique(t, Drain(t, from, to).1, to);
    }
  }

  // ------------------------------------------------------------- stroke law

  /** The strokes of a run of polls with arbitrarily changing targets. */
  function Polls(t: seq<Entry>, s: bv32, targets: seq<bv32>): (seq<Stroke>, bv32)
    decreases |targets|
  {
    if targets == [] then ([], s)
    else
      var (ks, last) := Polls(t, Take(t, s, targets[0]), targets[1..]);
      match NextStroke(t, s, targets[0])
      case None => (ks, last)
      case Some(k) => ([k] + ks, last)
  }

  /** What a client that only follows the strokes believes to be down. */
  ghost function Replay(down: set<nat>, ks: seq<Stroke>): set<nat>
    decreases |ks|
  {
    if ks == [] then down
    else Replay(if ks[0].down then down + {ks[0].row} else down - {ks[0].row}, ks[1..])
  }

  /** Each stroke changes what is believed: no key goes down twice or up twice. */
  ghost predicate Lawful(down: set<nat>, ks: seq<Stroke>)
    decreases |ks|
  {
    ks == [] ||
    (ks[0].down != (ks[0].row in down) &&
     Lawful(if ks[0].down then down + {ks[0].row} else down - {ks[0].row}, ks[1..]))
  }

  /** Whatever the targets, following the strokes gives exactly the active rows of the
      remembered state, and no stroke repeats what is already believed. */
  lemma {:induction false} PollsLawful(t: seq<Entry>, s: bv32, targets: seq<bv32>)
    requires Proper(t)
    ensures var (ks, last) := Polls(t, s, targets);
      && Lawful(Active(t, s), ks)
      && Replay(Active(t, s), ks) == Active(t, last)
      && (WellFormed(t, s) ==> WellFormed(t, last))
    decreases |targets|
  {
    hide Apply, IsActive, Seen, Active, WellFormed, FirstReleased, Distance;
    if targets != [] {
      PollsLawful(t, Take(t, s, targets[0]), targets[1..]);
      if NextStroke(t, s, targets[0]).Some? {
        StepChangesOneRow(t, s, targets[0]);
        var k := NextStroke(t, s, targets[0]).value;
        if WellFormed(t, s) { ApplyWellFormed(t, s, k.row, k.down); }
      }
    }
  }

  /** The first stroke of a key releases it exactly if it was down at the start. */
  lemma {:induction false} LawfulFirst(down: set<nat>, ks: seq<Stroke>, b: nat)
    requires Lawful(down, ks) && b < |ks|
    requires forall c :: 0 <= c < b ==> ks[c].row != ks[b].row
    ensures ks[b].down <==> ks[b].row !in down
    decreases |ks|
  {
    if b > 0 {
      var down' := if ks[0].down then down + {ks[0].row} else down - {ks[0].row};
      LawfulFirst(down', ks[1..], b - 1);
    }
  }

  /** In a lawful stream the strokes of one key alternate. */
  lemma {:induction false} LawfulAlternates(down: set<nat>, ks: seq<Stroke>, a: nat, b: nat)
    requires Lawful(down, ks) && a < b < |ks| && ks[a].row == ks[b].row
    requires forall c :: a < c < b ==> ks[c].row != ks[a].row
    ensures ks[a].down != ks[b].down
    decreases |ks|
  {
    var down' := if ks[0].down then down + {ks[0].row} else down - {ks[0].row};
    if a > 0 {
      LawfulAlternates(down', ks[1..], a - 1, b - 1);
    } else {
      LawfulFirst(down', ks[1..], b - 1);
    }
  }

  /** A drain is lawful too, and leaves a client that follows it with the target's rows. */
  lemma {:induction false} DrainLawful(t: seq<Entry>, from: bv32, to: bv32)
    requires Proper(t)
    ensures Lawful(Active(t, from), Drain(t, from, to).0)
    ensures Replay(Active(t, from), Drain(t, from, to).0) == Active(t, to)
    decreases Distance(t, from, to)
  {
    hide Apply, IsActive, Seen, Active, FirstReleased;
    NoStrokeIff(t, from, to);
    if NextStroke(t, from, to).Some? {
      StepChangesOneRow(t, from, to);
      hide Distance;
      DrainLawful(t, Take(t, from, to), to);
    }
  }

  /** Lawful streams join end to end. */
  lemma {:induction false} LawfulConcat(down: set<nat>, a: seq<Stroke>, b: seq<Stroke>)
    requires Lawful(down, a)
    ensures Replay(down, a + b) == Replay(Replay(down, a), b)
    ensures Lawful(down, a + b) <==> Lawful(Replay(down, a), b)
    decreases |a|
  {
    if a == [] {
      assert a + b == b;
    } else {
      var down' := if a[0].down then down + {a[0].row} else down - {a[0].row};
      assert (a + b)[1..] == a[1..] + b;
      LawfulConcat(down', a[1..], b);
    }
  }

  lemma NoBits(mask: bv32)
    ensures Seen(0, mask) == 0 && Outside(0, mask) == 0
  {}

  lemma NothingActive(t: seq<Entry>)
    requires Proper(t)
    ensures Active(t, 0) == {} && WellFormed(t, 0)
  {
    NoBits(Cover(t));
    forall i: nat | i < |t| ensures Seen(0, t[i].mask) == 0 && !IsActive(t[i], 0) {
      assert RowProper(t[i]);
      NoBits(t[i].mask);
    }
    hide Seen, Outside;
  }
}
