/** Which devices the allocator serves well: when every axis a device announces has a use,
    and some ordinary devices on which the allocator does something unexpected. */
module Devices {
  import opened Gamepad
  import opened Translator
  import opened DeviceRun
  import opened Allocation
  import opened AllocationTheorems
  import opened Values

  // ------------------------------------------------------ the axis table

  /** What each axis code does in the end, by code, offset and bit.  A missing stick pair or
      trigger overwrites the items with the numbers of its flags: 1 and 2, 4 and 8, 16, 32. */
  function ItemTable(axes: seq<bool>, hat: nat, c: nat): Item
    requires |axes| == ABS_CNT
  {
    if c == 0 then if axes[0] && axes[1] then Axis(4) else Unmapped
    else if c == 1 then if axes[0] && axes[1] then AxisReverse(6) else Axis(4)
    else if c == 2 then if axes[0] && axes[1] then (if axes[2] then Axis(2) else Unmapped) else AxisReverse(6)
    else if c == 3 then if axes[3] && axes[4] then Axis(8) else Unmapped
    else if c == 4 then if axes[3] && axes[4] then AxisReverse(10) else Axis(8)
    else if c == 5 then if axes[5] then Axis(3) else Unmapped
    else if c == 8 then if axes[3] && axes[4] then Unmapped else AxisReverse(10)
    else if c == 16 && !axes[2] then Axis(4)
    else if c == 32 then if axes[5] then Unmapped else Axis(6)
    else if hat < ABS_CNT && c == hat then Hat(0x0008, 0x0004)
    else if hat < ABS_CNT && c == hat + 1 then Hat(0x0002, 0x0001)
    else Unmapped
  }

  lemma ItemsAre(keys: seq<bool>, axes: seq<bool>, c: nat)
    requires Capable(keys, axes) && c < ABS_CNT
    ensures ItemAfter(keys, axes, c, 6) == ItemTable(axes, HatOf(keys, axes), c)
  {
    hide HatOf;
    ItemsUpTo3(keys, axes, c);
    assert ItemAfter(keys, axes, c, 4)
      == if Missing(axes, 3) && c == FlagValue(3) then FlagItem(3) else ItemAfter(keys, axes, c, 3);
    assert ItemAfter(keys, axes, c, 5)
      == if Missing(axes, 4) && c == FlagValue(4) then FlagItem(4) else ItemAfter(keys, axes, c, 4);
  }

  lemma ItemsUpTo3(keys: seq<bool>, axes: seq<bool>, c: nat)
    requires Capable(keys, axes) && c < ABS_CNT
    ensures ItemAfter(keys, axes, c, 3) ==
      if Missing(axes, 2) && c == FlagValue(2) then FlagItem(2)
      else if Missing(axes, 1) && c == FlagValue(1) then FlagItem(1)
      else if Missing(axes, 0) && c == FlagValue(0) then FlagItem(0)
      else HatItem(HatOf(keys, axes), c, NamedItem(axes, c))
  {
    hide HatOf, Missing, FlagValue, FlagItem, HatItem, NamedItem;
    assert ItemAfter(keys, axes, c, 1)
      == if Missing(axes, 0) && c == FlagValue(0) then FlagItem(0) else ItemAfter(keys, axes, c, 0);
    assert ItemAfter(keys, axes, c, 2)
      == if Missing(axes, 1) && c == FlagValue(1) then FlagItem(1) else ItemAfter(keys, axes, c, 1);
  }

  /** On a device without a left trigger axis the first hat's horizontal axis writes the left
      stick's horizontal axis, and nothing else. */
  lemma HatMovesStick(keys: seq<bool>, axes: seq<bool>, v: bv32, g: Record)
    requires Capable(keys, axes) && !axes[2]
    ensures Fits(TablesOf(keys, axes), Abs(16, v))
    ensures var after := Step(TablesOf(keys, axes), Abs(16, v), g);
      && Short(Get(after, 4)) == Wrap(Signed(v))
      && forall b :: 0 <= b < SIZE && b != 4 && b != 5 ==> after[b] == g[b]
  {
    ItemsAre(keys, axes, 16);
    assert TablesOf(keys, axes).items[16] == Axis(4);
    TruncateInt(v);
    GetPut(g, 4, Truncate(v), 4);
    hide Short, Truncate, Wrap, Signed, Get, Lo, Hi;
  }

  /** Every axis is named, or some axis is announced that the hat in use does not take. */
  ghost predicate AxisLeft(axes: seq<bool>, hat: nat)
    requires |axes| == ABS_CNT
  {
    || (axes[0] && axes[1] && axes[2] && axes[3] && axes[4] && axes[5])
    || exists c :: 0 <= c < ABS_CNT && axes[c] && !(hat < ABS_CNT && (c == hat || c == hat + 1))
  }

  /** The verdict, by counting keys and looking for axes. */
  lemma VerdictIff(keys: seq<bool>, axes: seq<bool>)
    requires Capable(keys, axes)
    ensures Verdict(keys, axes) == Overrun <==> !AxisLeft(axes, HatOf(keys, axes))
    ensures Verdict(keys, axes) == Accepted <==> (
      && AxisLeft(axes, HatOf(keys, axes))
      && |ClaimedRows(keys, ROWS)| + (if HatOf(keys, axes) < ABS_CNT then 4 else 0)
         + |LeftoverKeys(keys, axes, KEY_CNT)| >= 15)
  {
    hide HatOf, EnoughKeys, ClaimedRows, LeftoverKeys;
    AcceptedByCounting(keys, axes);
    if ScanEnds(keys, axes) && !SixAxes(axes) {
      var c :| 0 <= c < ABS_CNT && Surviving(keys, axes, c);
      assert axes[c];
    }
    var hat := HatOf(keys, axes);
    if c :| 0 <= c < ABS_CNT && axes[c] && !(hat < ABS_CNT && (c == hat || c == hat + 1)) {
      assert Surviving(keys, axes, c);
    }
  }

  // ------------------------------------------------------- announced axes

  /** The fallback leaves an item usable exactly when it was, or when it fills it. */
  lemma {:induction false} FilledIff(keys: seq<bool>, axes: seq<bool>, c: nat, n: nat)
    requires Capable(keys, axes) && n <= 6
    ensures Usable(ItemAfter(keys, axes, c, n)) <==>
      Usable(ItemAfter(keys, axes, c, 0)) || exists f :: 0 <= f < n && Missing(axes, f) && FlagValue(f) == c
  {
    hide HatItem, NamedItem, Missing, FlagValue, HatOf;
    if n > 0 { FilledIff(keys, axes, c, n - 1); }
  }

  /** When an announced axis has an item that its events can use: always for four of the six
      names; for the horizontal axis of a stick with its other axis; for the codes that equal
      the flag of a missing axis; and for the hat in use. */
  ghost predicate HasUse(keys: seq<bool>, axes: seq<bool>, c: nat)
    requires Capable(keys, axes)
  {
    || c == ABS_Y || c == ABS_Z || c == ABS_RY || c == ABS_RZ
    || (c == ABS_X && axes[ABS_Y])
    || (c == ABS_RX && axes[ABS_RY])
    || (c == 8 && !RightPair(axes))
    || (c == 16 && !axes[ABS_Z])
    || (c == 32 && !axes[ABS_RZ])
    || (HatOf(keys, axes) < ABS_CNT && (c == HatOf(keys, axes) || c == HatOf(keys, axes) + 1))
  }

  lemma AnnouncedUsableIff(keys: seq<bool>, axes: seq<bool>, c: nat)
    requires Capable(keys, axes) && c < ABS_CNT && axes[c]
    ensures Usable(ItemAfter(keys, axes, c, 6)) <==> HasUse(keys, axes, c)
  {
    FilledIff(keys, axes, c, 6);
    FlagOf(axes, c);
    hide HatOf;
  }

  lemma FlagOf(axes: seq<bool>, c: nat)
    requires |axes| == ABS_CNT
    ensures (exists f :: 0 <= f < 6 && Missing(axes, f) && FlagValue(f) == c) <==>
      (c == 1 && Missing(axes, 0)) || (c == 2 && Missing(axes, 1)) || (c == 4 && Missing(axes, 2)) ||
      (c == 8 && Missing(axes, 3)) || (c == 16 && Missing(axes, 4)) || (c == 32 && Missing(axes, 5))
  {
    hide Missing;
    if c == 1 { assert FlagValue(0) == c; }
    if c == 2 { assert FlagValue(1) == c; }
    if c == 4 { assert FlagValue(2) == c; }
    if c == 8 { assert FlagValue(3) == c; }
    if c == 16 { assert FlagValue(4) == c; }
    if c == 32 { assert FlagValue(5) == c; }
  }

  /** The device sends only axes it announces. */
  ghost predicate Announced(axes: seq<bool>, es: seq<Event>)
    requires |axes| == ABS_CNT
  {
    forall i :: 0 <= i < |es| && es[i].Abs? ==> es[i].code < ABS_CNT && axes[es[i].code]
  }

  /** Every stream the device can send has usable axis codes exactly when every axis that it
      announces has a use. */
  lemma AllStreamsFitIff(keys: seq<bool>, axes: seq<bool>)
    requires Capable(keys, axes)
    ensures (forall es: seq<Event> :: Announced(axes, es) ==> AllFit(TablesOf(keys, axes), es)) <==>
      (forall c :: 0 <= c < ABS_CNT && axes[c] ==> HasUse(keys, axes, c))
  {
    hide HasUse, ItemAfter, Usable;
    var t := TablesOf(keys, axes);
    forall c | 0 <= c < ABS_CNT && axes[c] ensures Usable(t.items[c]) <==> HasUse(keys, axes, c) {
      AnnouncedUsableIff(keys, axes, c);
    }
    if forall es: seq<Event> :: Announced(axes, es) ==> AllFit(t, es) {
      forall c | 0 <= c < ABS_CNT && axes[c] ensures HasUse(keys, axes, c) {
        var one := [Abs(c, 0)];
        assert Announced(axes, one);
        assert Fits(t, one[0]);
      }
    }
  }

  // --------------------------------------------------------- some devices

  /** The capability flags of a device with exactly these codes. */
  ghost function Having(codes: set<nat>, n: nat): (flags: seq<bool>)
    ensures |flags| == n && forall c :: 0 <= c < n ==> flags[c] == (c in codes)
  {
    if n == 0 then [] else Having(codes, n - 1) + [n - 1 in codes]
  }

  /** The keys of the first rows of the name table. */
  ghost function FirstRows(rows: nat): (codes: set<nat>)
    requires rows <= 15
    ensures forall k :: k in codes <==> RowOf(k) < rows
  {
    set r | 0 <= r < rows :: Btn(r)
  }

  lemma CountBelow(rows: set<nat>, n: nat)
    requires forall r :: r in rows <==> 0 <= r < n
    ensures |rows| == n
  {
    if n > 0 {
      CountBelow(rows - {n - 1}, n - 1);
    }
  }

  /** A device that has just the first rows of the name table claims just these; it leaves
      the d-pad to a hat if they end before the d-pad keys. */
  lemma FirstRowsClaimed(keys: seq<bool>, axes: seq<bool>, n: nat)
    requires Capable(keys, axes) && n <= 15 && forall r :: 0 <= r < ROWS ==> (keys[Btn(r)] <==> r < n)
    ensures |ClaimedRows(keys, ROWS)| == n
    ensures n <= 11 ==> HatOf(keys, axes) == FirstHat(axes)
    ensures n == 15 ==> HatOf(keys, axes) == ABS_CNT
  {
    forall r | 0 <= r < ROWS ensures Claims(keys, r) <==> r < n { RowOfBtn(r); }
    forall r | 0 <= r < 11 ensures Pos(r) >= 4 {}
    assert Pos(13) == 0;
    hide Claims, Pos, Btn, FirstHat;
    CountBelow(ClaimedRows(keys, ROWS), n);
    forall p | 0 <= p < 4 ensures n <= 11 ==> !TakenByName(keys, ROWS)[p] { TakenByNameIff(keys, ROWS, p); }
    if n == 15 { TakenByNameIff(keys, ROWS, 0); }
    hide TakenByName;
  }

  lemma FirstRowsHad(rows: nat, extra: set<nat>)
    requires rows <= 15 && forall k :: k in extra ==> k < 6
    ensures forall r :: 0 <= r < ROWS ==>
      Btn(r) < KEY_CNT && (Having(FirstRows(rows) + extra, KEY_CNT)[Btn(r)] <==> r < rows)
  {
    forall r | 0 <= r < ROWS ensures Btn(r) < KEY_CNT && (Btn(r) in FirstRows(rows) + extra <==> r < rows) {
      RowOfBtn(r);
    }
  }

  /** The verdict on a device with the first rows, the first hat and some other axis. */
  lemma FirstRowsVerdict(keys: seq<bool>, axes: seq<bool>, n: nat, c: nat)
    requires Capable(keys, axes) && n <= 11 && forall r :: 0 <= r < ROWS ==> (keys[Btn(r)] <==> r < n)
    requires axes[16] && axes[17] && c < 16 && axes[c]
    ensures HatOf(keys, axes) == 16
    ensures Verdict(keys, axes) == if n + 4 + |LeftoverKeys(keys, axes, KEY_CNT)| >= 15 then Accepted else Refused
  {
    hide Btn, ClaimedRows, LeftoverKeys, EnoughKeys;
    FirstRowsClaimed(keys, axes, n);
    assert HatOf(keys, axes) == 16 by { hide HatOf; }
    hide HatOf;
    AcceptedByCounting(keys, axes);
    assert Surviving(keys, axes, c);
  }

  ghost const ELEVEN_KEYS: seq<bool> := Having(FirstRows(11) + {}, KEY_CNT)
  ghost const TEN_KEYS_AND_ESCAPE: seq<bool> := Having(FirstRows(10) + {1}, KEY_CNT)
  ghost const STICKS_AND_HAT: seq<bool> := Having({0, 1, 3, 4, 16, 17}, ABS_CNT)
  ghost const RIGHT_STICK_AND_HAT: seq<bool> := Having({3, 4, 16, 17}, ABS_CNT)

  /** A common pad: eleven buttons, two sticks, a hat, but no left trigger.  It is accepted,
      and nothing drives left and right of its d-pad. */
  lemma DeadDpad()
    ensures Capable(ELEVEN_KEYS, STICKS_AND_HAT) && Verdict(ELEVEN_KEYS, STICKS_AND_HAT) == Accepted
    ensures !HasOwner(ELEVEN_KEYS, STICKS_AND_HAT, 2) && !HasOwner(ELEVEN_KEYS, STICKS_AND_HAT, 3)
  {
    hide Verdict, HatOf, LeftoverKeys, HasOwner;
    FirstRowsHad(11, {});
    FirstRowsVerdict(ELEVEN_KEYS, STICKS_AND_HAT, 11, 0);
    AcceptedDrivesIff(ELEVEN_KEYS, STICKS_AND_HAT, 2);
    AcceptedDrivesIff(ELEVEN_KEYS, STICKS_AND_HAT, 3);
  }

  lemma TenAndEscape(keys: seq<bool>, axes: seq<bool>)
    requires Capable(keys, axes) && keys == Having(FirstRows(10) + {1}, KEY_CNT)
    ensures LeftoverKeys(keys, axes, KEY_CNT) == if Cleared(axes, 1) then {} else {1}
  {
    FirstRowsHad(10, {1});
    forall k: nat | k < KEY_CNT ensures Left(keys, axes, k) <==> k == 1 && !Cleared(axes, 1) {
      if keys[k] && k != 1 { RowOfBtn(RowOf(k)); }
    }
  }

  /** The same ten named buttons, hat and escape key, whose code is 1: without a left stick the key makes
      the device acceptable, with a left stick it is dropped and the device refused. */
  lemma ClearedKeyRefuses()
    ensures Capable(TEN_KEYS_AND_ESCAPE, RIGHT_STICK_AND_HAT) && Capable(TEN_KEYS_AND_ESCAPE, STICKS_AND_HAT)
    ensures Verdict(TEN_KEYS_AND_ESCAPE, RIGHT_STICK_AND_HAT) == Accepted
    ensures Verdict(TEN_KEYS_AND_ESCAPE, STICKS_AND_HAT) == Refused
  {
    hide Verdict, HatOf, LeftoverKeys;
    FirstRowsHad(10, {1});
    TenAndEscape(TEN_KEYS_AND_ESCAPE, RIGHT_STICK_AND_HAT);
    TenAndEscape(TEN_KEYS_AND_ESCAPE, STICKS_AND_HAT);
    FirstRowsVerdict(TEN_KEYS_AND_ESCAPE, RIGHT_STICK_AND_HAT, 10, 3);
    FirstRowsVerdict(TEN_KEYS_AND_ESCAPE, STICKS_AND_HAT, 10, 0);
  }

  ghost const FIFTEEN_KEYS: seq<bool> := Having(FirstRows(15) + {}, KEY_CNT)
  ghost const SIX_AXES_AND_HAT: seq<bool> := Having({0, 1, 2, 3, 4, 5, 16, 17}, ABS_CNT)
  ghost const HAT_ONLY: seq<bool> := Having({16, 17}, ABS_CNT)

  /** A pad with all buttons and d-pad keys under their names, six axes and also a hat: it is
      accepted, and the first event of the hat has no item to go to. */
  lemma UnusedHat()
    ensures Capable(FIFTEEN_KEYS, SIX_AXES_AND_HAT) && Verdict(FIFTEEN_KEYS, SIX_AXES_AND_HAT) == Accepted
    ensures Announced(SIX_AXES_AND_HAT, [Abs(16, 1)])
    ensures !AllFit(TablesOf(FIFTEEN_KEYS, SIX_AXES_AND_HAT), [Abs(16, 1)])
  {
    hide HatOf, LeftoverKeys, ClaimedRows, EnoughKeys, ItemAfter, Usable, Having;
    FirstRowsHad(15, {});
    hide FirstRows, Btn;
    FirstRowsClaimed(FIFTEEN_KEYS, SIX_AXES_AND_HAT, 15);
    AcceptedByCounting(FIFTEEN_KEYS, SIX_AXES_AND_HAT);
    AnnouncedUsableIff(FIFTEEN_KEYS, SIX_AXES_AND_HAT, 16);
    var es := [Abs(16, 1)];
    assert !Fits(TablesOf(FIFTEEN_KEYS, SIX_AXES_AND_HAT), es[0]);
  }

  /** An ordinary device on which the axis scan leaves its bit map: named buttons, and a d-pad
      hat as its only axes. */
  lemma HatOnly()
    ensures Capable(ELEVEN_KEYS, HAT_ONLY) && Verdict(ELEVEN_KEYS, HAT_ONLY) == Overrun
  {
    hide HatOf;
    FirstRowsHad(11, {});
    FirstRowsClaimed(ELEVEN_KEYS, HAT_ONLY, 11);
    assert forall c :: 0 <= c < ABS_CNT ==> !Surviving(ELEVEN_KEYS, HAT_ONLY, c);
  }
}
