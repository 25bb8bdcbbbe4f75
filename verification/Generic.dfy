/** The generic driver of src/linux_evdev/xinput_linux_evdev_generic.c: the allocator that
    builds the tables of a device from its capability bitmaps, and the event reader that
    interprets them.  Each block of the allocator is one method. */
module Generic {
  import opened Unions
  import opened Bitmaps
  import opened Gamepad
  import opened Translator
  import opened Allocation
  import opened DeviceRun

  lemma PadNonzero(p: nat)
    requires p < PADS
    ensures Pad(p) != 0
  {}

  /** Testing a pad bit of a union of pad bits. */
  lemma TestPad(taken: seq<bool>, p: nat)
    requires |taken| == PADS && p < PADS
    ensures Both(Union(ALL_PADS, taken), Pad(p)) == 0 <==> !taken[p]
  {
    hide Both, Union, Pad, Disjoint;
    PadsDisjoint();
    PadNonzero(p);
    UnionRead(ALL_PADS, taken, p);
  }

  lemma SetPad(taken: seq<bool>, p: nat)
    requires |taken| == PADS && p < PADS
    ensures With(Union(ALL_PADS, taken), Pad(p)) == Union(ALL_PADS, taken[p := true])
  {
    hide Both, With, Union, Pad, Disjoint;
    PadsDisjoint();
    UnionSet(ALL_PADS, taken, p);
  }

  lemma ReservedUnion(keys: seq<bool>)
    requires |keys| == KEY_CNT
    ensures Union(ALL_PADS, TakenByName(keys, 0)) == 0x0800
  {
    var off := [false, false, false, false, false, false, false, false,
                false, false, false, false, false, false, false, false];
    hide Union, With, Both;
    UnionOff(ALL_PADS, off);
    SetPad(off, RESERVED);
    assert off[RESERVED := true] == TakenByName(keys, 0);
    assert With(0, 0x0800) == 0x0800 by { WithSym(0, 0x0800); WithNone(0x0800); }
  }

  ghost predicate NamesDone(keys: seq<bool>, rows: nat, evKey: seq<bv8>, keyButtons: seq<bv16>)
    requires |keys| == KEY_CNT && rows <= ROWS
  {
    && 8 * |evKey| == KEY_CNT && |keyButtons| == KEY_CNT
    && (forall k :: 0 <= k < KEY_CNT ==> Flags(evKey)[k] == (keys[k] && !Named(keys, k, rows)))
    && (forall k :: 0 <= k < KEY_CNT ==> keyButtons[k] == NamedPad(keys, k, rows))
  }

  lemma NamedNext(keys: seq<bool>, k: nat, r: nat)
    requires |keys| == KEY_CNT && r < ROWS
    ensures Named(keys, k, r + 1) <==> Named(keys, k, r) || (k == Btn(r) && Claims(keys, r))
  {
    RowOfBtn(r);
  }

  lemma ClaimTest(keys: seq<bool>, r: nat)
    requires |keys| == KEY_CNT && r < ROWS
    ensures Btn(r) < KEY_CNT && !Named(keys, Btn(r), r)
    ensures Claims(keys, r) <==> !TakenByName(keys, r)[Pos(r)] && keys[Btn(r)]
  {
    RowOfBtn(r);
    FreeIff(keys, r);
    if r >= 15 { RowOfBtn(r - 4); }
  }

  lemma NamesStep(keys: seq<bool>, r: nat, ev: seq<bv8>, kb: seq<bv16>, ev': seq<bv8>, kb': seq<bv16>)
    requires |keys| == KEY_CNT && r < ROWS && NamesDone(keys, r, ev, kb) && |ev'| == |ev| && Btn(r) < KEY_CNT
    requires if Claims(keys, r)
      then Flags(ev') == Flags(ev)[Btn(r) := false] && kb' == kb[Btn(r) := Pad(Pos(r))]
      else ev' == ev && kb' == kb
    ensures NamesDone(keys, r + 1, ev', kb')
  {
    hide Btn, Pos, Pad, Claims, Named;
    RowOfBtn(r);
    forall k | 0 <= k < KEY_CNT
      ensures Flags(ev')[k] == (keys[k] && !Named(keys, k, r + 1))
      ensures kb'[k] == NamedPad(keys, k, r + 1)
    {
      NamedNext(keys, k, r);
    }
  }

  lemma NamesStart(keys: seq<bool>, ev: seq<bv8>, kb: seq<bv16>)
    requires |keys| == KEY_CNT && 8 * |ev| == KEY_CNT && |kb| == KEY_CNT && Flags(ev) == keys
    requires forall k :: 0 <= k < KEY_CNT ==> kb[k] == 0
    ensures NamesDone(keys, 0, ev, kb)
  {}

  lemma NameBit(keys: seq<bool>, r: nat, ev: seq<bv8>, kb: seq<bv16>)
    requires |keys| == KEY_CNT && r < ROWS && NamesDone(keys, r, ev, kb)
    ensures Btn(r) < KEY_CNT && BitGet(ev, Btn(r)) == keys[Btn(r)]
  {
    ClaimTest(keys, r);
    assert Flags(ev)[Btn(r)] == (keys[Btn(r)] && !Named(keys, Btn(r), r));
  }

  /** generic.c, the loop over the name table. */
  method NameKeys(ghost keys: seq<bool>, evKey: array<bv8>, keyButtons: array<bv16>) returns (buttons: bv16)
    requires |keys| == KEY_CNT && 8 * evKey.Length == KEY_CNT && keyButtons.Length == KEY_CNT
    requires Flags(evKey[..]) == keys
    requires forall k :: 0 <= k < KEY_CNT ==> keyButtons[k] == 0
    modifies evKey, keyButtons
    ensures buttons == Union(ALL_PADS, TakenByName(keys, ROWS))
    ensures NamesDone(keys, ROWS, evKey[..], keyButtons[..])
  {
    hide Union, With, Both, Btn, Pos, RowOf, Pad, Claims, BitGet, Named, NamedPad, NamesDone;
    ReservedUnion(keys);
    NamesStart(keys, evKey[..], keyButtons[..]);
    buttons := 0x0800;
    var index := 0;
    while index < ROWS
      invariant index <= ROWS
      invariant buttons == Union(ALL_PADS, TakenByName(keys, index))
      invariant NamesDone(keys, index, evKey[..], keyButtons[..])
    {
      RowOfBtn(index);
      ClaimTest(keys, index);
      NameBit(keys, index, evKey[..], keyButtons[..]);
      TestPad(TakenByName(keys, index), Pos(index));
      ghost var ev, kb := evKey[..], keyButtons[..];
      var btn, pad := Btn(index), Pad(Pos(index));
      if Both(buttons, pad) == 0 {
        if BitGet(evKey[..], btn) {
          BitClear(evKey, btn);
          keyButtons[btn] := pad;
          buttons := With(buttons, pad);
          SetPad(TakenByName(keys, index), Pos(index));
        }
      }
      NamesStep(keys, index, ev, kb, evKey[..], keyButtons[..]);
      index := index + 1;
    }
  }

  // ------------------------------------------------------------- named axes

  /** Which of the six axis flags are set once the named axes are taken.  The BYTE of the
      source is kept in the low bits of a word. */
  ghost function AxesFound(axes: seq<bool>): (found: seq<bool>)
    requires |axes| == ABS_CNT
    ensures |found| == PADS
    ensures forall f :: 0 <= f < 6 ==> found[f] == !Missing(axes, f)
  {
    [LeftPair(axes), LeftPair(axes), RightPair(axes), RightPair(axes), axes[ABS_Z], axes[ABS_RZ],
     false, false, false, false, false, false, false, false, false, false]
  }

  const NO_PADS: seq<bool> := [false, false, false, false, false, false, false, false,
                               false, false, false, false, false, false, false, false]

  lemma NothingFound()
    ensures Union(ALL_PADS, NO_PADS) == 0
  {
    hide Union;
    UnionOff(ALL_PADS, NO_PADS);
  }

  lemma FlagBit(bits: seq<bv8>, axes: seq<bool>, c: nat)
    requires |axes| == ABS_CNT == 8 * |bits| && Flags(bits) == axes && c < ABS_CNT
    ensures BitGet(bits, c) == axes[c]
  {}

  // The effect of one test, on flags, items and found axes, when `have` holds.

  ghost function PairKeys(flags: seq<bool>, have: bool, a: nat, b: nat): seq<bool>
    requires a < |flags| && b < |flags|
  {
    if have then flags[a := false][b := false] else flags
  }

  ghost function PairItems(items: seq<Item>, have: bool, a: nat, x: Item, b: nat, y: Item): seq<Item>
    requires a < |items| && b < |items|
  {
    if have then items[a := x][b := y] else items
  }

  ghost function PairFound(found: seq<bool>, have: bool, f: nat, h: nat): seq<bool>
    requires f < |found| && h < |found|
  {
    if have then found[f := true][h := true] else found
  }

  /** A pair of stick axes: the key codes of the same numbers are cleared, the first axis
      is stored as it is and the second one complemented. */
  method TakePair(ghost axes: seq<bool>, evKey: array<bv8>, evAbs: array<bv8>, items: array<Item>, axis: bv16,
                  ghost found: seq<bool>, first: nat, second: nat, at: nat, next: nat, flag: nat) returns (now: bv16)
    requires |axes| == ABS_CNT == 8 * evAbs.Length && Flags(evAbs[..]) == axes && evKey != evAbs
    requires 8 * evKey.Length == KEY_CNT && items.Length == ABS_CNT && first < ABS_CNT && second < ABS_CNT
    requires |found| == PADS && flag + 1 < PADS && axis == Union(ALL_PADS, found)
    modifies evKey, items
    ensures var have := axes[first] && axes[second];
      && Flags(evKey[..]) == PairKeys(old(Flags(evKey[..])), have, first, second)
      && items[..] == PairItems(old(items[..]), have, first, Axis(at), second, AxisReverse(next))
      && now == Union(ALL_PADS, PairFound(found, have, flag, flag + 1))
  {
    hide Union, With, BitGet, Pad;
    FlagBit(evAbs[..], axes, first);
    FlagBit(evAbs[..], axes, second);
    now := axis;
    if BitGet(evAbs[..], first) && BitGet(evAbs[..], second) {
      BitClear(evKey, first);
      BitClear(evKey, second);
      SetAxis(items, first, at);
      SetSixa(items, second, next);
      now := With(With(axis, Pad(flag)), Pad(flag + 1));
      SetPad(found, flag);
      SetPad(found[flag := true], flag + 1);
    }
  }

  /** A trigger axis. */
  method TakeOne(ghost axes: seq<bool>, evKey: array<bv8>, evAbs: array<bv8>, items: array<Item>, axis: bv16,
                 ghost found: seq<bool>, code: nat, at: nat, flag: nat) returns (now: bv16)
    requires |axes| == ABS_CNT == 8 * evAbs.Length && Flags(evAbs[..]) == axes && evKey != evAbs
    requires 8 * evKey.Length == KEY_CNT && items.Length == ABS_CNT && code < ABS_CNT
    requires |found| == PADS && flag < PADS && axis == Union(ALL_PADS, found)
    modifies evKey, items
    ensures && Flags(evKey[..]) == PairKeys(old(Flags(evKey[..])), axes[code], code, code)
            && items[..] == PairItems(old(items[..]), axes[code], code, Axis(at), code, Axis(at))
            && now == Union(ALL_PADS, PairFound(found, axes[code], flag, flag))
  {
    hide Union, With, BitGet, Pad;
    FlagBit(evAbs[..], axes, code);
    now := axis;
    if BitGet(evAbs[..], code) {
      BitClear(evKey, code);
      SetAxis(items, code, at);
      now := With(axis, Pad(flag));
      SetPad(found, flag);
      assert found[flag := true][flag := true] == found[flag := true];
    }
  }

  ghost function AfterAxesKeys(flags: seq<bool>, axes: seq<bool>): seq<bool>
    requires |flags| == KEY_CNT && |axes| == ABS_CNT
  {
    PairKeys(PairKeys(PairKeys(PairKeys(flags, LeftPair(axes), ABS_X, ABS_Y), RightPair(axes), ABS_RX, ABS_RY),
             axes[ABS_Z], ABS_Z, ABS_Z), axes[ABS_RZ], ABS_RZ, ABS_RZ)
  }

  lemma AfterAxesKeysAt(flags: seq<bool>, axes: seq<bool>, k: nat)
    requires |flags| == KEY_CNT && |axes| == ABS_CNT && k < KEY_CNT
    ensures AfterAxesKeys(flags, axes)[k] == (flags[k] && !Cleared(axes, k))
  {}

  ghost function AfterAxesItems(items: seq<Item>, axes: seq<bool>): seq<Item>
    requires |items| == ABS_CNT && |axes| == ABS_CNT
  {
    PairItems(PairItems(PairItems(PairItems(items,
      LeftPair(axes), ABS_X, Axis(LX_AT), ABS_Y, AxisReverse(LY_AT)),
      RightPair(axes), ABS_RX, Axis(RX_AT), ABS_RY, AxisReverse(RY_AT)),
      axes[ABS_Z], ABS_Z, Axis(LEFT_TRIGGER_AT), ABS_Z, Axis(LEFT_TRIGGER_AT)),
      axes[ABS_RZ], ABS_RZ, Axis(RIGHT_TRIGGER_AT), ABS_RZ, Axis(RIGHT_TRIGGER_AT))
  }

  lemma AfterAxesItemsAt(items: seq<Item>, axes: seq<bool>, c: nat)
    requires |items| == ABS_CNT && |axes| == ABS_CNT && c < ABS_CNT && items[c] == Unmapped
    ensures AfterAxesItems(items, axes)[c] == NamedItem(axes, c)
  {}

  lemma AfterAxesFound(axes: seq<bool>)
    requires |axes| == ABS_CNT
    ensures PairFound(PairFound(PairFound(PairFound(NO_PADS, LeftPair(axes), 0, 1), RightPair(axes), 2, 3),
              axes[ABS_Z], 4, 4), axes[ABS_RZ], 5, 5) == AxesFound(axes)
  {}

  lemma FoundSize(found: seq<bool>, have: bool, f: nat, h: nat)
    requires |found| == PADS && f < PADS && h < PADS
    ensures |PairFound(found, have, f, h)| == PADS
  {}

  /** generic.c, the four tests for axes under their own names. */
  method NameAxes(ghost axes: seq<bool>, evKey: array<bv8>, evAbs: array<bv8>, items: array<Item>) returns (axis: bv16)
    requires |axes| == ABS_CNT && 8 * evKey.Length == KEY_CNT && 8 * evAbs.Length == ABS_CNT && evKey != evAbs
    requires Flags(evAbs[..]) == axes && items.Length == ABS_CNT
    modifies evKey, items
    ensures Flags(evKey[..]) == AfterAxesKeys(old(Flags(evKey[..])), axes)
    ensures items[..] == AfterAxesItems(old(items[..]), axes)
    ensures axis == Union(ALL_PADS, AxesFound(axes))
  {
    hide Union, Pad, PairFound, PairKeys, PairItems;
    NothingFound();
    AfterAxesFound(axes);
    axis := TakePair(axes, evKey, evAbs, items, 0, NO_PADS, ABS_X, ABS_Y, LX_AT, LY_AT, 0);
    ghost var found := PairFound(NO_PADS, LeftPair(axes), 0, 1);
    FoundSize(NO_PADS, LeftPair(axes), 0, 1);
    axis := TakePair(axes, evKey, evAbs, items, axis, found, ABS_RX, ABS_RY, RX_AT, RY_AT, 2);
    FoundSize(found, RightPair(axes), 2, 3);
    found := PairFound(found, RightPair(axes), 2, 3);
    axis := TakeOne(axes, evKey, evAbs, items, axis, found, ABS_Z, LEFT_TRIGGER_AT, 4);
    FoundSize(found, axes[ABS_Z], 4, 4);
    found := PairFound(found, axes[ABS_Z], 4, 4);
    axis := TakeOne(axes, evKey, evAbs, items, axis, found, ABS_RZ, RIGHT_TRIGGER_AT, 5);
  }

  // -------------------------------------------------------------------- hats

  lemma FourBits(w: bv16)
    ensures Both(w, 0x0F) == 0 <==> Both(w, 8) == 0 && Both(w, 4) == 0 && Both(w, 2) == 0 && Both(w, 1) == 0
  {}

  lemma DpadFree(taken: seq<bool>)
    requires |taken| == PADS
    ensures Both(Union(ALL_PADS, taken), 0x0F) == 0 <==> !taken[0] && !taken[1] && !taken[2] && !taken[3]
  {
    hide Both, Union;
    TestPad(taken, 0); TestPad(taken, 1); TestPad(taken, 2); TestPad(taken, 3);
    FourBits(Union(ALL_PADS, taken));
  }

  /** Uses a complete hat for the d-pad: its axis bits are cleared, its items drive the
      four d-pad bits. */
  method TakeHatAt(ghost taken: seq<bool>, evAbs: array<bv8>, items: array<Item>, buttons: bv16, h: nat) returns (now: bv16)
    requires |taken| == PADS && buttons == Union(ALL_PADS, taken)
    requires 8 * evAbs.Length == ABS_CNT == items.Length && h + 1 < ABS_CNT
    modifies evAbs, items
    ensures Flags(evAbs[..]) == old(Flags(evAbs[..]))[h := false][h + 1 := false]
    ensures items[..] == old(items[..])[h := Hat(DPAD_RIGHT, DPAD_LEFT)][h + 1 := Hat(DPAD_DOWN, DPAD_UP)]
    ensures now == Union(ALL_PADS, taken[3 := true][2 := true][1 := true][0 := true])
  {
    hide Union, With;
    BitClear(evAbs, h);
    BitClear(evAbs, h + 1);
    SetBttn(items, h, DPAD_RIGHT, DPAD_LEFT);
    SetBttn(items, h + 1, DPAD_DOWN, DPAD_UP);
    now := With(With(With(With(buttons, DPAD_RIGHT), DPAD_LEFT), DPAD_DOWN), DPAD_UP);
    SetPad(taken, 3);
    SetPad(taken[3 := true], 2);
    SetPad(taken[3 := true][2 := true], 1);
    SetPad(taken[3 := true][2 := true][1 := true], 0);
  }

  lemma HatBits(bits: seq<bv8>, axes: seq<bool>)
    requires |axes| == ABS_CNT == 8 * |bits| && Flags(bits) == axes
    ensures forall h :: 16 <= h < 24 ==> BitGet(bits, h) == axes[h]
  {
    hide BitGet;
    forall h | 16 <= h < 24 ensures BitGet(bits, h) == axes[h] {
      FlagBit(bits, axes, h);
    }
  }

  /** What the choice of a hat leaves: axis flags, items and button word. */
  ghost predicate HatChosen(keys: seq<bool>, axes: seq<bool>, flags: seq<bool>,
                            before: seq<Item>, items: seq<Item>, now: bv16)
    requires Capable(keys, axes)
  {
    && |flags| == |before| == |items| == ABS_CNT
    && (forall c :: 0 <= c < ABS_CNT ==> flags[c] == Surviving(keys, axes, c))
    && (forall c :: 0 <= c < ABS_CNT ==> items[c] == HatItem(HatOf(keys, axes), c, before[c]))
    && now == Union(ALL_PADS, Taken(keys, axes))
  }

  lemma HatUsed(keys: seq<bool>, axes: seq<bool>, before: seq<Item>, h: nat)
    requires Capable(keys, axes) && |before| == ABS_CNT && h == HatOf(keys, axes) < ABS_CNT
    ensures HatChosen(keys, axes, axes[h := false][h + 1 := false],
              before, before[h := Hat(DPAD_RIGHT, DPAD_LEFT)][h + 1 := Hat(DPAD_DOWN, DPAD_UP)],
              Union(ALL_PADS, TakenByName(keys, ROWS)[3 := true][2 := true][1 := true][0 := true]))
  {
    hide Union, TakenByName, HatOf;
  }

  lemma HatUnused(keys: seq<bool>, axes: seq<bool>, before: seq<Item>)
    requires Capable(keys, axes) && |before| == ABS_CNT && HatOf(keys, axes) == ABS_CNT
    ensures HatChosen(keys, axes, axes, before, before, Union(ALL_PADS, TakenByName(keys, ROWS)))
  {
    hide Union, TakenByName, HatOf;
  }

  /** generic.c, the choice of a hat for the d-pad. */
  method TakeHat(ghost keys: seq<bool>, ghost axes: seq<bool>, evAbs: array<bv8>, items: array<Item>, buttons: bv16)
    returns (now: bv16)
    requires Capable(keys, axes) && 8 * evAbs.Length == ABS_CNT == items.Length
    requires Flags(evAbs[..]) == axes && buttons == Union(ALL_PADS, TakenByName(keys, ROWS))
    modifies evAbs, items
    ensures HatChosen(keys, axes, Flags(evAbs[..]), old(items[..]), items[..], now)
  {
    hide Union, Both, BitGet, TakenByName, HatChosen;
    ghost var named := TakenByName(keys, ROWS);
    DpadFree(named);
    now := buttons;
    if HatOf(keys, axes) == ABS_CNT {
      HatUnused(keys, axes, items[..]);
    } else {
      HatUsed(keys, axes, items[..], HatOf(keys, axes));
    }
    if Both(buttons, 0x0F) == 0 {
      HatBits(evAbs[..], axes);
      if BitGet(evAbs[..], 16) && BitGet(evAbs[..], 17) {
        now := TakeHatAt(named, evAbs, items, buttons, 16);
      } else if BitGet(evAbs[..], 18) && BitGet(evAbs[..], 19) {
        now := TakeHatAt(named, evAbs, items, buttons, 18);
      } else if BitGet(evAbs[..], 20) && BitGet(evAbs[..], 21) {
        now := TakeHatAt(named, evAbs, items, buttons, 20);
      } else if BitGet(evAbs[..], 22) && BitGet(evAbs[..], 23) {
        now := TakeHatAt(named, evAbs, items, buttons, 22);
      }
    }
  }

  // ------------------------------------------------- first come, first served

  /** Every pad bit below `p` is in use. */
  ghost predicate UsedBelow(on: seq<bool>, p: nat)
    requires p <= |on|
  {
    forall q :: 0 <= q < p ==> on[q]
  }

  ghost predicate InUseAfter(taken: seq<bool>, m: nat, p: nat)
    requires |taken| == PADS && p < PADS
  {
    taken[p] || FreeBelow(taken, p) < m
  }

  /** The pad bits in use once `m` leftover keys have been served. */
  ghost function Served(taken: seq<bool>, m: nat, n: nat): (s: seq<bool>)
    requires |taken| == PADS && n <= PADS
    ensures |s| == n && forall p :: 0 <= p < n ==> s[p] == InUseAfter(taken, m, p)
  {
    if n == 0 then [] else Served(taken, m, n - 1) + [InUseAfter(taken, m, n - 1)]
  }

  lemma NotServed(taken: seq<bool>, m: nat, p: nat)
    requires |taken| == PADS && p <= PADS && m < FreeBelow(taken, p)
    ensures exists q :: 0 <= q < p && !Served(taken, m, PADS)[q]
  {
    var q := FreeAt(taken, p, m);
    assert !Served(taken, m, PADS)[q];
  }

  /** The first bit not in use is the one of the next leftover key. */
  lemma NextServed(taken: seq<bool>, m: nat, p: nat)
    requires |taken| == PADS && p < PADS
    requires var s := Served(taken, m, PADS); !s[p] && forall q :: 0 <= q < p ==> s[q]
    ensures FreeBelow(taken, p) == m && FreePos(taken, m, 0) == p
    ensures Served(taken, m, PADS)[p := true] == Served(taken, m + 1, PADS)
  {
    if m < FreeBelow(taken, p) {
      NotServed(taken, m, p);
      assert false;
    }
    forall q | 0 <= q < PADS && q != p ensures !taken[q] ==> FreeBelow(taken, q) != m {
      if q < p { FreeMonotone(taken, q, p); } else { FreeMonotone(taken, p, q); }
    }
  }

  lemma AllServed(taken: seq<bool>, m: nat)
    requires |taken| == PADS
    ensures UsedBelow(Served(taken, m, PADS), PADS) <==> FreeBelow(taken, PADS) <= m
  {
    if m < FreeBelow(taken, PADS) {
      var q := FreeAt(taken, PADS, m);
      assert !Served(taken, m, PADS)[q];
    } else {
      forall p | 0 <= p < PADS ensures Served(taken, m, PADS)[p] {
        FreeMonotone(taken, p, PADS);
      }
    }
  }

  lemma AllBits(w: bv16)
    requires forall p :: 0 <= p < PADS ==> Both(w, Pad(p)) != 0
    ensures w == 0xFFFF
  {
    assert Both(w, Pad(0)) != 0 && Both(w, Pad(1)) != 0 && Both(w, Pad(2)) != 0 && Both(w, Pad(3)) != 0;
    assert Both(w, Pad(4)) != 0 && Both(w, Pad(5)) != 0 && Both(w, Pad(6)) != 0 && Both(w, Pad(7)) != 0;
    assert Both(w, Pad(8)) != 0 && Both(w, Pad(9)) != 0 && Both(w, Pad(10)) != 0 && Both(w, Pad(11)) != 0;
    assert Both(w, Pad(12)) != 0 && Both(w, Pad(13)) != 0 && Both(w, Pad(14)) != 0 && Both(w, Pad(15)) != 0;
  }

  lemma FullBit(p: nat)
    requires p < PADS
    ensures Both(0xFFFF, Pad(p)) != 0
  {}

  /** The word is full exactly when every pad bit is in use. */
  lemma FullIff(on: seq<bool>)
    requires |on| == PADS
    ensures Union(ALL_PADS, on) == 0xFFFF <==> UsedBelow(on, PADS)
  {
    hide Both, Union, Pad;
    forall p | 0 <= p < PADS ensures Both(Union(ALL_PADS, on), Pad(p)) != 0 <==> on[p] {
      TestPad(on, p);
    }
    if UsedBelow(on, PADS) {
      AllBits(Union(ALL_PADS, on));
    } else {
      var p :| 0 <= p < PADS && !on[p];
      FullBit(p);
    }
  }

  /** The inner scan: the first pad bit, from `p` on, that is not in use. */
  method NextPad(ghost on: seq<bool>, buttons: bv16, p: nat) returns (q: nat)
    requires |on| == PADS && p <= PADS && buttons == Union(ALL_PADS, on)
    requires UsedBelow(on, p)
    ensures p <= q <= PADS && UsedBelow(on, q) && (q < PADS ==> !on[q])
  {
    hide Both, Union, Pad;
    q := p;
    while q < PADS
      invariant p <= q <= PADS && UsedBelow(on, q)
    {
      TestPad(on, q);
      if Both(buttons, Pad(q)) == 0 {
        return;
      }
      q := q + 1;
    }
  }

  /** Once every pad bit is in use, later keys get none. */
  lemma NoneLeft(keys: seq<bool>, axes: seq<bool>, i: nat, k: nat)
    requires Capable(keys, axes) && i <= k < KEY_CNT
    requires FreeBelow(Taken(keys, axes), PADS) <= Rank(keys, axes, i)
    ensures KeyButton(keys, axes, k) == NamedPad(keys, k, ROWS)
  {
    hide Left, Named, Rank, Taken, Pad, Pos, RowOf;
    RankMonotone(keys, axes, i, k);
    var taken, j := Taken(keys, axes), Rank(keys, axes, k);
    if Named(keys, k, ROWS) { KeyNamed(keys, axes, k); }
    if Left(keys, axes, k) && !Named(keys, k, ROWS) {
      forall q | 0 <= q < PADS && !taken[q] ensures FreeBelow(taken, q) != j {
        FreeMonotone(taken, q, PADS);
      }
    }
  }

  ghost predicate KeysDone(keys: seq<bool>, axes: seq<bool>, i: nat, evKey: seq<bv8>, keyButtons: seq<bv16>)
    requires Capable(keys, axes)
  {
    && 8 * |evKey| == KEY_CNT == |keyButtons|
    && (forall k :: i <= k < KEY_CNT ==> Flags(evKey)[k] == Left(keys, axes, k))
    && (forall k :: 0 <= k < KEY_CNT ==>
          keyButtons[k] == if k < i then KeyButton(keys, axes, k) else NamedPad(keys, k, ROWS))
  }

  lemma KeyOfLeft(keys: seq<bool>, axes: seq<bool>, i: nat)
    requires Capable(keys, axes) && i < KEY_CNT
    ensures Rank(keys, axes, i + 1) == Rank(keys, axes, i) + if Left(keys, axes, i) then 1 else 0
    ensures Left(keys, axes, i) ==>
      KeyButton(keys, axes, i) == PadOrNone(FreePos(Taken(keys, axes), Rank(keys, axes, i), 0))
    ensures !Left(keys, axes, i) ==> KeyButton(keys, axes, i) == NamedPad(keys, i, ROWS)
  {
    hide Pad, Pos, RowOf, Btn, Claims, FreePos, Taken, Cleared;
    if Named(keys, i, ROWS) { KeyNamed(keys, axes, i); }
  }

  lemma ServeStep(keys: seq<bool>, axes: seq<bool>, i: nat, p: nat)
    requires Capable(keys, axes) && i < KEY_CNT && p < PADS && Left(keys, axes, i)
    requires var s := Served(Taken(keys, axes), Rank(keys, axes, i), PADS); !s[p] && UsedBelow(s, p)
    ensures KeyButton(keys, axes, i) == Pad(p)
    ensures Served(Taken(keys, axes), Rank(keys, axes, i), PADS)[p := true]
      == Served(Taken(keys, axes), Rank(keys, axes, i + 1), PADS)
    ensures UsedBelow(Served(Taken(keys, axes), Rank(keys, axes, i + 1), PADS), p)
  {
    hide Left, Taken, Rank, Served, FreePos, KeyButton, Pad;
    KeyOfLeft(keys, axes, i);
    NextServed(Taken(keys, axes), Rank(keys, axes, i), p);
  }

  lemma SomeFree(on: seq<bool>, p: nat)
    requires |on| == PADS && p <= PADS && UsedBelow(on, p) && Union(ALL_PADS, on) != 0xFFFF
    ensures p < PADS
  {
    hide Union;
    FullIff(on);
  }

  /** The loop's invariant: the first leftover keys have been served, and no pad bit
      below `p` is free. */
  ghost predicate Serving(keys: seq<bool>, axes: seq<bool>, i: nat, p: nat, now: bv16)
    requires Capable(keys, axes) && i <= KEY_CNT
  {
    var on := Served(Taken(keys, axes), Rank(keys, axes, i), PADS);
    p <= PADS && now == Union(ALL_PADS, on) && UsedBelow(on, p)
  }

  lemma ServingStart(keys: seq<bool>, axes: seq<bool>)
    requires Capable(keys, axes)
    ensures Serving(keys, axes, 0, 0, Union(ALL_PADS, Taken(keys, axes)))
  {
    hide Union, Taken;
    assert Served(Taken(keys, axes), 0, PADS) == Taken(keys, axes);
  }

  lemma KeyBit(keys: seq<bool>, axes: seq<bool>, i: nat, ev: seq<bv8>, kb: seq<bv16>)
    requires Capable(keys, axes) && i < KEY_CNT && KeysDone(keys, axes, i, ev, kb)
    ensures 8 * |ev| == KEY_CNT == |kb| && BitGet(ev, i) == Left(keys, axes, i)
    ensures kb[i] == NamedPad(keys, i, ROWS)
  {
    assert Flags(ev)[i] == Left(keys, axes, i);
  }

  lemma KeysStep(keys: seq<bool>, axes: seq<bool>, i: nat, ev: seq<bv8>, kb: seq<bv16>, ev': seq<bv8>, kb': seq<bv16>)
    requires Capable(keys, axes) && i < KEY_CNT && KeysDone(keys, axes, i, ev, kb)
    requires |ev'| == |ev| && (Flags(ev') == Flags(ev) || Flags(ev') == Flags(ev)[i := false])
    requires kb' == kb[i := KeyButton(keys, axes, i)]
    ensures KeysDone(keys, axes, i + 1, ev', kb')
  {
    hide KeyButton, NamedPad, Left;
  }

  lemma KeysEnd(keys: seq<bool>, axes: seq<bool>, i: nat, p: nat, now: bv16, kb: seq<bv16>, ev: seq<bv8>)
    requires Capable(keys, axes) && i <= KEY_CNT && KeysDone(keys, axes, i, ev, kb)
    requires Serving(keys, axes, i, p, now)
    requires now == 0xFFFF || i == KEY_CNT
    ensures |kb| == KEY_CNT && forall k :: 0 <= k < KEY_CNT ==> kb[k] == KeyButton(keys, axes, k)
    ensures now == 0xFFFF <==> EnoughKeys(keys, axes)
  {
    hide Union, Taken, Left, KeyButton, NamedPad, Served, FreeBelow, UsedBelow;
    var taken := Taken(keys, axes);
    FullIff(Served(taken, Rank(keys, axes, i), PADS));
    AllServed(taken, Rank(keys, axes, i));
    hide Rank;
    RankMonotone(keys, axes, i, KEY_CNT);
    if now == 0xFFFF {
      forall k | i <= k < KEY_CNT ensures KeyButton(keys, axes, k) == NamedPad(keys, k, ROWS) {
        NoneLeft(keys, axes, i, k);
      }
    }
  }

  /** One leftover key takes the next free pad bit. */
  method ServeKey(ghost keys: seq<bool>, ghost axes: seq<bool>, evKey: array<bv8>, keyButtons: array<bv16>,
                  buttons: bv16, i: nat, p: nat) returns (now: bv16, q: nat)
    requires Capable(keys, axes) && i < KEY_CNT && KeysDone(keys, axes, i, evKey[..], keyButtons[..])
    requires Serving(keys, axes, i, p, buttons) && buttons != 0xFFFF && Left(keys, axes, i)
    modifies evKey, keyButtons
    ensures KeysDone(keys, axes, i + 1, evKey[..], keyButtons[..]) && Serving(keys, axes, i + 1, q, now)
  {
    hide Union, With, Both, BitGet, Taken, Left, Rank, KeyButton, NamedPad, KeysDone, Served, Pad, UsedBelow, FreePos;
    ghost var on := Served(Taken(keys, axes), Rank(keys, axes, i), PADS);
    ghost var ev, kb := evKey[..], keyButtons[..];
    KeyBit(keys, axes, i, ev, kb);
    BitClear(evKey, i);
    q := NextPad(on, buttons, p);
    SomeFree(on, q);
    keyButtons[i] := Pad(q);
    now := With(buttons, Pad(q));
    SetPad(on, q);
    ServeStep(keys, axes, i, q);
    KeysStep(keys, axes, i, ev, kb, evKey[..], keyButtons[..]);
  }

  lemma SkipKey(keys: seq<bool>, axes: seq<bool>, i: nat, p: nat, now: bv16, ev: seq<bv8>, kb: seq<bv16>)
    requires Capable(keys, axes) && i < KEY_CNT && KeysDone(keys, axes, i, ev, kb)
    requires Serving(keys, axes, i, p, now) && !Left(keys, axes, i)
    ensures KeysDone(keys, axes, i + 1, ev, kb) && Serving(keys, axes, i + 1, p, now)
  {
    hide Union, Taken, KeyButton, NamedPad, Served, FreePos, UsedBelow;
    KeyOfLeft(keys, axes, i);
    KeyBit(keys, axes, i, ev, kb);
    hide Left, Rank;
    KeysStep(keys, axes, i, ev, kb, ev, kb);
  }

  /** generic.c, the keys left over: first come, first served.  Pad bit `p` of the source
      is `1 << p`. */
  method ServeKeys(ghost keys: seq<bool>, ghost axes: seq<bool>, evKey: array<bv8>, keyButtons: array<bv16>, buttons: bv16)
    returns (now: bv16)
    requires Capable(keys, axes) && KeysDone(keys, axes, 0, evKey[..], keyButtons[..])
    requires buttons == Union(ALL_PADS, Taken(keys, axes))
    modifies evKey, keyButtons
    ensures keyButtons.Length == KEY_CNT && forall k :: 0 <= k < KEY_CNT ==> keyButtons[k] == KeyButton(keys, axes, k)
    ensures now == 0xFFFF <==> EnoughKeys(keys, axes)
  {
    hide Union, BitGet, Taken, Left, KeyButton, KeysDone, Serving, EnoughKeys;
    var i, p := 0, 0;
    now := buttons;
    ServingStart(keys, axes);
    while now != 0xFFFF && i < KEY_CNT
      invariant i <= KEY_CNT && Serving(keys, axes, i, p, now)
      invariant KeysDone(keys, axes, i, evKey[..], keyButtons[..])
      decreases KEY_CNT - i
    {
      KeyBit(keys, axes, i, evKey[..], keyButtons[..]);
      if BitGet(evKey[..], i) {
        now, p := ServeKey(keys, axes, evKey, keyButtons, now, i, p);
      } else {
        SkipKey(keys, axes, i, p, now, evKey[..], keyButtons[..]);
      }
      i := i + 1;
    }
    KeysEnd(keys, axes, i, p, now, keyButtons[..], evKey[..]);
  }

  // ---------------------------------------------------------- missing axes

  const AXES: nat := 6
  const AXES_ALL: bv16 := 0x3F

  /** The axis flags once the fallback has handled the first `n`. */
  ghost function FoundAfter(axes: seq<bool>, n: nat): (found: seq<bool>)
    requires |axes| == ABS_CNT && n <= AXES
    ensures |found| == PADS
    ensures forall f :: 0 <= f < AXES ==> found[f] == (f < n || !Missing(axes, f))
    ensures forall f :: AXES <= f < PADS ==> !found[f]
  {
    if n == 0 then AxesFound(axes) else FoundAfter(axes, n - 1)[n - 1 := true]
  }

  lemma SixBits(w: bv16)
    requires forall p :: 0 <= p < AXES ==> Both(w, Pad(p)) != 0
    requires forall p :: AXES <= p < PADS ==> Both(w, Pad(p)) == 0
    ensures w == AXES_ALL
  {
    assert Both(w, Pad(0)) != 0 && Both(w, Pad(1)) != 0 && Both(w, Pad(2)) != 0 && Both(w, Pad(3)) != 0;
    assert Both(w, Pad(4)) != 0 && Both(w, Pad(5)) != 0 && Both(w, Pad(6)) == 0 && Both(w, Pad(7)) == 0;
    assert Both(w, Pad(8)) == 0 && Both(w, Pad(9)) == 0 && Both(w, Pad(10)) == 0 && Both(w, Pad(11)) == 0;
    assert Both(w, Pad(12)) == 0 && Both(w, Pad(13)) == 0 && Both(w, Pad(14)) == 0 && Both(w, Pad(15)) == 0;
  }

  lemma SixBit(p: nat)
    requires p < AXES
    ensures Both(AXES_ALL, Pad(p)) != 0
  {}

  lemma SixIff(found: seq<bool>)
    requires |found| == PADS && forall f :: AXES <= f < PADS ==> !found[f]
    ensures Union(ALL_PADS, found) == AXES_ALL <==> forall f :: 0 <= f < AXES ==> found[f]
  {
    hide Both, Union, Pad;
    forall p | 0 <= p < PADS ensures Both(Union(ALL_PADS, found), Pad(p)) != 0 <==> found[p] {
      TestPad(found, p);
    }
    if forall f :: 0 <= f < AXES ==> found[f] {
      SixBits(Union(ALL_PADS, found));
    } else {
      var f :| 0 <= f < AXES && !found[f];
      SixBit(f);
    }
  }

  lemma AllNamedIff(axes: seq<bool>)
    requires |axes| == ABS_CNT
    ensures Union(ALL_PADS, AxesFound(axes)) == AXES_ALL <==> SixAxes(axes)
  {
    hide Union, LeftPair, RightPair;
    var found := AxesFound(axes);
    SixIff(found);
    assert found[0] && found[2] && found[4] && found[5] <==> SixAxes(axes);
  }

  ghost predicate ItemsDone(keys: seq<bool>, axes: seq<bool>, items: seq<Item>, flags: nat)
    requires Capable(keys, axes) && flags <= AXES
  {
    |items| == ABS_CNT && forall c :: 0 <= c < ABS_CNT ==> items[c] == ItemAfter(keys, axes, c, flags)
  }

  /** The field each missing flag is given: the store goes to the item whose index is the
      flag's value. */
  method FillFlag(items: array<Item>, flag: nat)
    requires items.Length == ABS_CNT && flag < AXES
    modifies items
    ensures items[..] == old(items[..])[FlagValue(flag) := FlagItem(flag)]
  {
    if flag == 0 { SetAxis(items, 1, LX_AT); }
    else if flag == 1 { SetSixa(items, 2, LY_AT); }
    else if flag == 2 { SetAxis(items, 4, RX_AT); }
    else if flag == 3 { SetSixa(items, 8, RY_AT); }
    else if flag == 4 { SetAxis(items, 16, LX_AT); }
    else { SetAxis(items, 32, LY_AT); }
  }

  lemma FoundSame(axes: seq<bool>, f: nat)
    requires |axes| == ABS_CNT && f < AXES
    ensures FoundAfter(axes, f)[f := true] == FoundAfter(axes, f + 1)
    ensures FoundAfter(axes, f)[f] ==> FoundAfter(axes, f) == FoundAfter(axes, f + 1)
  {}

  /** The inner loop on an axis bit: it has no exit, so it fills every missing flag. */
  method FillAxes(ghost keys: seq<bool>, ghost axes: seq<bool>, items: array<Item>, axis: bv16) returns (now: bv16)
    requires Capable(keys, axes) && ItemsDone(keys, axes, items[..], 0) && axis == Union(ALL_PADS, AxesFound(axes))
    modifies items
    ensures ItemsDone(keys, axes, items[..], AXES) && now == AXES_ALL
  {
    hide Union, Both, With, Pad, HatItem, NamedItem, FlagItem, Missing, HatOf, AxesFound;
    var f := 0;
    now := axis;
    while f < AXES
      invariant f <= AXES && items.Length == ABS_CNT && ItemsDone(keys, axes, items[..], f)
      invariant now == Union(ALL_PADS, FoundAfter(axes, f))
    {
      TestPad(FoundAfter(axes, f), f);
      if Both(now, Pad(f)) == 0 {
        FillFlag(items, f);
        now := With(now, Pad(f));
      }
      SetPad(FoundAfter(axes, f), f);
      FoundSame(axes, f);
      f := f + 1;
    }
    SixIff(FoundAfter(axes, AXES));
  }

  /** Axis bits below `i` are gone. */
  ghost predicate NoneBelow(keys: seq<bool>, axes: seq<bool>, i: nat)
    requires Capable(keys, axes) && i <= ABS_CNT
  {
    forall c :: 0 <= c < i ==> !Surviving(keys, axes, c)
  }

  lemma NothingMissing(keys: seq<bool>, axes: seq<bool>, items: seq<Item>)
    requires Capable(keys, axes) && SixAxes(axes) && ItemsDone(keys, axes, items, 0)
    ensures ItemsDone(keys, axes, items, AXES)
  {
    forall c | 0 <= c < ABS_CNT ensures ItemAfter(keys, axes, c, AXES) == ItemAfter(keys, axes, c, 0) {
      NoneMissing(keys, axes, c, AXES);
    }
  }

  /** generic.c, the scan for axes that were not named.  The source reads past the bitmap
      when it has no axis bit left; here the scan then gives up. */
  method ServeAxes(ghost keys: seq<bool>, ghost axes: seq<bool>, evAbs: array<bv8>, items: array<Item>, axis: bv16)
    returns (ended: bool)
    requires Capable(keys, axes) && ItemsDone(keys, axes, items[..], 0) && axis == Union(ALL_PADS, AxesFound(axes))
    requires 8 * evAbs.Length == ABS_CNT == items.Length
    requires forall c :: 0 <= c < ABS_CNT ==> Flags(evAbs[..])[c] == Surviving(keys, axes, c)
    modifies evAbs, items
    ensures ended <==> ScanEnds(keys, axes)
    ensures items.Length == ABS_CNT && ItemsDone(keys, axes, items[..], if ended then AXES else 0)
  {
    hide Union, BitGet, Surviving, ItemsDone, AxesFound;
    AllNamedIff(axes);
    if axis == AXES_ALL { NothingMissing(keys, axes, items[..]); }
    var i, now := 0, axis;
    ghost var bits := evAbs[..];
    while now != AXES_ALL
      invariant i <= ABS_CNT && items.Length == ABS_CNT
      invariant now != AXES_ALL ==> now == axis && evAbs[..] == bits && NoneBelow(keys, axes, i)
      invariant now != AXES_ALL ==> ItemsDone(keys, axes, items[..], 0)
      invariant now == AXES_ALL ==> ItemsDone(keys, axes, items[..], AXES) && ScanEnds(keys, axes)
      decreases now != AXES_ALL, ABS_CNT - i
    {
      if i == ABS_CNT {
        return false;
      }
      assert Flags(bits)[i] == Surviving(keys, axes, i);
      if BitGet(evAbs[..], i) {
        BitClear(evAbs, i);
        now := FillAxes(keys, axes, items, now);
      }
      i := i + 1;
    }
    ended := true;
  }

  // ----------------------------------------------------------- the allocator

  lemma AfterNames(keys: seq<bool>, axes: seq<bool>, ev: seq<bv8>, kb: seq<bv16>, ev': seq<bv8>)
    requires Capable(keys, axes) && NamesDone(keys, ROWS, ev, kb)
    requires |ev'| == |ev| && Flags(ev') == AfterAxesKeys(Flags(ev), axes)
    ensures KeysDone(keys, axes, 0, ev', kb)
  {
    hide Named, NamedPad, Cleared, AfterAxesKeys;
    forall k | 0 <= k < KEY_CNT ensures Flags(ev')[k] == Left(keys, axes, k) {
      AfterAxesKeysAt(Flags(ev), axes, k);
    }
  }

  lemma AfterHats(keys: seq<bool>, axes: seq<bool>, zeroed: seq<Item>, flags: seq<bool>, items: seq<Item>, now: bv16)
    requires Capable(keys, axes) && |zeroed| == ABS_CNT
    requires forall c :: 0 <= c < ABS_CNT ==> zeroed[c] == Unmapped
    requires HatChosen(keys, axes, flags, AfterAxesItems(zeroed, axes), items, now)
    ensures ItemsDone(keys, axes, items, 0) && now == Union(ALL_PADS, Taken(keys, axes))
    ensures |flags| == ABS_CNT && forall c :: 0 <= c < ABS_CNT ==> flags[c] == Surviving(keys, axes, c)
  {
    hide HatItem, HatOf, NamedItem, AfterAxesItems, Union, Taken, Surviving;
    forall c | 0 <= c < ABS_CNT ensures items[c] == ItemAfter(keys, axes, c, 0) {
      AfterAxesItemsAt(zeroed, axes, c);
    }
  }

  ghost predicate Probed(evKey: seq<bv8>, evAbs: seq<bv8>)
  {
    8 * |evKey| == KEY_CNT && 8 * |evAbs| == ABS_CNT
  }

  method Zero<T>(table: array<T>, zero: T)
    modifies table
    ensures forall k :: 0 <= k < table.Length ==> table[k] == zero
  {
    forall k | 0 <= k < table.Length { table[k] := zero; }
  }

  method Copy(bytes: seq<bv8>) returns (a: array<bv8>)
    ensures fresh(a) && a[..] == bytes
  {
    a := new bv8[|bytes|](i requires 0 <= i < |bytes| => bytes[i]);
  }

  lemma SameTables(keys: seq<bool>, axes: seq<bool>, kb: seq<bv16>, items: seq<Item>)
    requires Capable(keys, axes) && |kb| == KEY_CNT && ItemsDone(keys, axes, items, AXES)
    requires forall k :: 0 <= k < KEY_CNT ==> kb[k] == KeyButton(keys, axes, k)
    ensures Tables(kb, items) == TablesOf(keys, axes)
  {
    hide KeyButton, ItemAfter;
    assert kb == TablesOf(keys, axes).buttons;
    assert items == TablesOf(keys, axes).items;
  }

  /** The whole allocator, on private copies of the capability bitmaps. */
  method Translate(evKey: seq<bv8>, evAbs: seq<bv8>, keyButtons: array<bv16>, items: array<Item>) returns (outcome: Outcome)
    requires Probed(evKey, evAbs) && keyButtons.Length == KEY_CNT && items.Length == ABS_CNT
    modifies keyButtons, items
    ensures outcome == Verdict(Flags(evKey), Flags(evAbs))
    ensures !outcome.Overrun? ==> Tables(keyButtons[..], items[..]) == TablesOf(Flags(evKey), Flags(evAbs))
  {
    hide Union, Flags, NamesDone, KeysDone, AfterAxesKeys, AfterAxesItems, AxesFound, HatChosen, Taken, Surviving,
      ItemsDone, ScanEnds, EnoughKeys;
    ghost var keys, axes := Flags(evKey), Flags(evAbs);
    var localKey := Copy(evKey);
    var localAbs := Copy(evAbs);
    Zero(keyButtons, 0);
    Zero(items, Unmapped);
    ghost var zeroed := items[..];
    var buttons := NameKeys(keys, localKey, keyButtons);
    ghost var ev := localKey[..];
    var axis := NameAxes(axes, localKey, localAbs, items);
    AfterNames(keys, axes, ev, keyButtons[..], localKey[..]);
    buttons := TakeHat(keys, axes, localAbs, items, buttons);
    AfterHats(keys, axes, zeroed, Flags(localAbs[..]), items[..], buttons);
    buttons := ServeKeys(keys, axes, localKey, keyButtons, buttons);
    var ended := ServeAxes(keys, axes, localAbs, items, axis);
    if !ended {
      return Overrun;
    }
    SameTables(keys, axes, keyButtons[..], items[..]);
    outcome := if buttons == 0xFFFF then Accepted else Refused;
  }

  // -------------------------------------------------------------- the driver

  /** A device of the generic driver: its tables and its gamepad. */
  class Device {
    const keyButtons: array<bv16>
    const items: array<Item>
    const gamepad: array<bv8>

    ghost predicate Valid()
    {
      keyButtons.Length == KEY_CNT && items.Length == ABS_CNT && gamepad.Length == SIZE
    }

    ghost function Maps(): (t: Tables)
      requires Valid()
      reads keyButtons, items
      ensures Sized(t)
    {
      Tables(keyButtons[..], items[..])
    }

    constructor ()
      ensures Valid() && fresh(keyButtons) && fresh(items) && fresh(gamepad) && gamepad[..] == ZEROED
    {
      keyButtons := new bv16[KEY_CNT](_ => 0);
      items := new Item[ABS_CNT](_ => Unmapped);
      gamepad := new bv8[SIZE](_ => 0);
    }

    /** One event: keys through the whole code range, mapped axes through their items,
        anything else ignored. */
    method Read(e: Event)
      requires Valid() && Fits(Maps(), e)
      modifies gamepad
      ensures gamepad[..] == Step(Maps(), e, old(gamepad[..]))
    {
      hide KeyStep, ItemStep;
      match e
      case Key(code, value) => KeyEvent(0, keyButtons, code, value, gamepad);
      case Abs(code, value) => AbsEvent(items, code, value, gamepad);
      case Other =>
    }

    /** Copies the gamepad out. */
    method Update(to: array<bv8>)
      requires Valid() && to.Length == SIZE && to != gamepad
      modifies to
      ensures to[..] == gamepad[..]
    {
      forall b | 0 <= b < SIZE { to[b] := gamepad[b]; }
    }
  }

  /** Whether the driver takes a device. */
  method CanTranslate(evKey: seq<bv8>, evAbs: seq<bv8>) returns (outcome: Outcome)
    requires Probed(evKey, evAbs)
    ensures outcome == Verdict(Flags(evKey), Flags(evAbs))
  {
    var keyButtons := new bv16[KEY_CNT];
    var items := new Item[ABS_CNT];
    outcome := Translate(evKey, evAbs, keyButtons, items);
  }

  /** A device is made exactly when the same capabilities could be translated. */
  method NewInstance(evKey: seq<bv8>, evAbs: seq<bv8>) returns (outcome: Outcome, device: Device?)
    requires Probed(evKey, evAbs)
    ensures outcome == Verdict(Flags(evKey), Flags(evAbs))
    ensures device != null <==> outcome == Accepted
    ensures device != null ==> fresh(device) && device.Valid() && device.gamepad[..] == ZEROED
    ensures device != null ==> device.Maps() == TablesOf(Flags(evKey), Flags(evAbs))
  {
    var data := new Device();
    outcome := Translate(evKey, evAbs, data.keyButtons, data.items);
    device := if outcome == Accepted then data else null;
  }
}
