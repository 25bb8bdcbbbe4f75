/** What the allocator guarantees for every device: no pad bit is given out twice, the
    tables never send two events to one bit, acceptance is a matter of counting, and which
    pad bits an accepted device drives. */
module AllocationTheorems {
  import opened Unions
  import opened Gamepad
  import opened Translator
  import opened DeviceRun
  import opened Allocation

  // -------------------------------------------------- names and hats, by code

  /** The eight keys that can take a d-pad bit: BTN_DPAD_UP and on, BTN_TRIGGER_HAPPY1 and on. */
  ghost predicate HasDpadKey(keys: seq<bool>)
    requires |keys| == KEY_CNT
  {
    || keys[0x220] || keys[0x221] || keys[0x222] || keys[0x223]
    || keys[0x2c0] || keys[0x2c1] || keys[0x2c2] || keys[0x2c3]
  }

  /** The first choice for the d-pad bit of a BTN_TRIGGER_HAPPY key. */
  function FirstChoice(code: nat): nat
  {
    match code
    case 0x2c0 => 0x222  // left
    case 0x2c1 => 0x223  // right
    case 0x2c2 => 0x220  // up
    case 0x2c3 => 0x221  // down
    case _ => 0
  }

  /** Exactly which keys are taken by name: the buttons and BTN_DPAD keys that the device has,
      and a BTN_TRIGGER_HAPPY key when it has not the BTN_DPAD key of the same direction. */
  lemma NamedIff(keys: seq<bool>, code: nat)
    requires |keys| == KEY_CNT && code < KEY_CNT
    ensures Named(keys, code, ROWS) <==>
      keys[code] &&
      (code in {0x130, 0x131, 0x133, 0x134, 0x136, 0x137, 0x13a, 0x13b, 0x13c, 0x13d, 0x13e} ||
       code in {0x220, 0x221, 0x222, 0x223} ||
       (code in {0x2c0, 0x2c1, 0x2c2, 0x2c3} && !keys[FirstChoice(code)]))
  {
    if RowOf(code) < ROWS { RowOfBtn(RowOf(code)); }
  }

  /** Exactly which keys are left for first come, first served: those that are not taken by
      name and whose code is not that of an axis taken by name. */
  lemma LeftIff(keys: seq<bool>, axes: seq<bool>, k: nat)
    requires Capable(keys, axes) && k < KEY_CNT
    ensures Left(keys, axes, k) <==>
      && keys[k] && !Named(keys, k, ROWS)
      && !((k == 0 || k == 1) && axes[0] && axes[1]) && !((k == 3 || k == 4) && axes[3] && axes[4])
      && !(k == 2 && axes[2]) && !(k == 5 && axes[5])
  {
    hide Named;
  }

  lemma DpadRows(keys: seq<bool>)
    requires |keys| == KEY_CNT
    ensures forall r :: 11 <= r < ROWS ==> Pos(r) < 4
    ensures (exists r :: 11 <= r < ROWS && Claims(keys, r)) <==> HasDpadKey(keys)
  {
    if keys[0x222] { assert Claims(keys, 11); }
    if keys[0x223] { assert Claims(keys, 12); }
    if keys[0x220] { assert Claims(keys, 13); }
    if keys[0x221] { assert Claims(keys, 14); }
    if keys[0x2c0] && !keys[0x222] { assert Claims(keys, 15); }
    if keys[0x2c1] && !keys[0x223] { assert Claims(keys, 16); }
    if keys[0x2c2] && !keys[0x220] { assert Claims(keys, 17); }
    if keys[0x2c3] && !keys[0x221] { assert Claims(keys, 18); }
  }

  lemma DpadTaken(keys: seq<bool>)
    requires |keys| == KEY_CNT
    ensures var taken := TakenByName(keys, ROWS);
      taken[0] || taken[1] || taken[2] || taken[3] <==> HasDpadKey(keys)
  {
    hide TakenByName;
    DpadRows(keys);
    var taken := TakenByName(keys, ROWS);
    if HasDpadKey(keys) {
      var r :| 11 <= r < ROWS && Claims(keys, r);
      TakenByNameIff(keys, ROWS, Pos(r));
      assert taken[Pos(r)];
    }
    if p :| 0 <= p < 4 && taken[p] {
      TakenByNameIff(keys, ROWS, p);
      var r :| 0 <= r < ROWS && Claims(keys, r) && Pos(r) == p;
      assert r >= 11;
    }
  }

  /** Both axes of hat `k` are announced. */
  ghost predicate CompleteHat(axes: seq<bool>, k: nat)
    requires |axes| == ABS_CNT && k < 4
  {
    axes[0x10 + 2 * k] && axes[0x11 + 2 * k]
  }

  /** Exactly which hat drives the d-pad: the first complete pair of axes among HAT0 to HAT3,
      on a device that has no d-pad key. */
  lemma HatChoice(keys: seq<bool>, axes: seq<bool>)
    requires Capable(keys, axes)
    ensures HatOf(keys, axes) == ABS_CNT <==> HasDpadKey(keys) || forall k :: 0 <= k < 4 ==> !CompleteHat(axes, k)
    ensures forall k :: 0 <= k < 4 ==>
      (HatOf(keys, axes) == 0x10 + 2 * k <==>
        !HasDpadKey(keys) && CompleteHat(axes, k) && forall j :: 0 <= j < k ==> !CompleteHat(axes, j))
  {
    hide TakenByName, HasDpadKey;
    DpadTaken(keys);
    assert CompleteHat(axes, 0) == (axes[16] && axes[17]) && CompleteHat(axes, 1) == (axes[18] && axes[19]);
    assert CompleteHat(axes, 2) == (axes[20] && axes[21]) && CompleteHat(axes, 3) == (axes[22] && axes[23]);
    hide CompleteHat;
  }

  // ------------------------------------------------------ one key per pad bit

  lemma NamedIsTaken(keys: seq<bool>, axes: seq<bool>, k: nat)
    requires Capable(keys, axes) && k < KEY_CNT && Named(keys, k, ROWS)
    ensures Pos(RowOf(k)) < PADS && Pos(RowOf(k)) != RESERVED
    ensures TakenByName(keys, ROWS)[Pos(RowOf(k))] && Taken(keys, axes)[Pos(RowOf(k))]
  {
    hide Pos, Btn, RowOf, Claims;
    RowOfBtn(RowOf(k));
    TakenByNameIff(keys, ROWS, Pos(RowOf(k)));
  }

  lemma ReservedTaken(keys: seq<bool>, axes: seq<bool>)
    requires Capable(keys, axes)
    ensures Taken(keys, axes)[RESERVED]
  {
    hide Claims, Pos;
    TakenByNameIff(keys, ROWS, RESERVED);
  }

  /** Two rows claim the same pad bit only if they are the same row. */
  lemma ClaimsDistinct(keys: seq<bool>, q: nat, r: nat)
    requires |keys| == KEY_CNT && q < r < ROWS && Claims(keys, q) && Claims(keys, r)
    ensures Pos(q) != Pos(r)
  {
    SamePosition(q, r);
  }

  lemma NamedDistinct(keys: seq<bool>, j: nat, k: nat)
    requires |keys| == KEY_CNT && j != k && Named(keys, j, ROWS) && Named(keys, k, ROWS)
    ensures Pos(RowOf(j)) != Pos(RowOf(k))
  {
    hide Pos, Claims;
    if RowOf(j) < RowOf(k) {
      ClaimsDistinct(keys, RowOf(j), RowOf(k));
    } else if RowOf(k) < RowOf(j) {
      ClaimsDistinct(keys, RowOf(k), RowOf(j));
    }
  }

  lemma LeftDistinct(keys: seq<bool>, axes: seq<bool>, j: nat, k: nat)
    requires Capable(keys, axes) && j < k < KEY_CNT && Left(keys, axes, j) && Left(keys, axes, k)
    ensures Rank(keys, axes, j) < Rank(keys, axes, k)
  {
    hide Left;
    RankMonotone(keys, axes, j + 1, k);
  }

  /** No two keys drive the same pad bit. */
  lemma KeysApart(keys: seq<bool>, axes: seq<bool>, j: nat, k: nat)
    requires Capable(keys, axes) && j < k < KEY_CNT
    requires KeyPos(keys, axes, j) < PADS && KeyPos(keys, axes, k) < PADS
    ensures KeyPos(keys, axes, j) != KeyPos(keys, axes, k)
  {
    hide Pos, RowOf, Named, Left, Taken, FreePos, Rank;
    if Named(keys, j, ROWS) { NamedIsTaken(keys, axes, j); }
    if Named(keys, k, ROWS) { NamedIsTaken(keys, axes, k); }
    if Named(keys, j, ROWS) && Named(keys, k, ROWS) {
      NamedDistinct(keys, j, k);
    } else if Left(keys, axes, j) && Left(keys, axes, k) {
      LeftDistinct(keys, axes, j, k);
    }
  }

  lemma NamedKey(keys: seq<bool>, k: nat)
    requires |keys| == KEY_CNT && Named(keys, k, ROWS)
    ensures k < KEY_CNT && keys[k]
  {
    RowOfBtn(RowOf(k));
  }

  /** Only keys the device has drive anything, and never the reserved bit. */
  lemma KeyOwns(keys: seq<bool>, axes: seq<bool>, k: nat)
    requires Capable(keys, axes) && k < KEY_CNT && KeyPos(keys, axes, k) < PADS
    ensures keys[k] && KeyPos(keys, axes, k) != RESERVED
  {
    hide Pos, RowOf, Taken, FreePos, Rank, Btn;
    if Named(keys, k, ROWS) {
      NamedIsTaken(keys, axes, k);
      NamedKey(keys, k);
    } else {
      ReservedTaken(keys, axes);
    }
  }

  /** When a hat drives the d-pad, no key does. */
  lemma HatAlone(keys: seq<bool>, axes: seq<bool>, k: nat)
    requires Capable(keys, axes) && k < KEY_CNT && HatOf(keys, axes) < ABS_CNT
    ensures KeyPos(keys, axes, k) >= 4
  {
    hide Pos, RowOf, Rank, FirstHat, TakenByName, FreePos, Named, Left;
    if Named(keys, k, ROWS) { NamedIsTaken(keys, axes, k); }
  }

  lemma FreePosIff(taken: seq<bool>, j: nat, p: nat)
    requires |taken| == PADS && p < PADS && !taken[p]
    ensures FreePos(taken, j, 0) == p <==> FreeBelow(taken, p) == j
  {
    var q := FreePos(taken, j, 0);
    if q < p { FreeMonotone(taken, q, p); }
    if p < q < PADS { FreeMonotone(taken, p, q); }
  }

  /** The j-th leftover key, in code order, drives the j-th free pad bit, if there is one. */
  lemma FirstComeFirstServed(keys: seq<bool>, axes: seq<bool>, k: nat, p: nat)
    requires Capable(keys, axes) && k < KEY_CNT && Left(keys, axes, k) && p < PADS && !Taken(keys, axes)[p]
    ensures KeyPos(keys, axes, k) == p <==> FreeBelow(Taken(keys, axes), p) == Rank(keys, axes, k)
  {
    hide Pos, RowOf, Claims, Btn, Rank, Taken, Cleared;
    FreePosIff(Taken(keys, axes), Rank(keys, axes, k), p);
  }

  /** Exactly when a key of the device drives something: it is taken by name, or its code is
      not that of a named axis and enough pad bits are free when its turn comes.  So a key
      whose code is that of a named axis is dead: the allocator clears the key bit where it
      could have cleared the axis bit. */
  lemma KeyDrivesIff(keys: seq<bool>, axes: seq<bool>, k: nat)
    requires Capable(keys, axes) && k < KEY_CNT && keys[k]
    ensures KeyPos(keys, axes, k) < PADS <==>
      Named(keys, k, ROWS) || (!Cleared(axes, k) && Rank(keys, axes, k) < FreeBelow(Taken(keys, axes), PADS))
    ensures Cleared(axes, k) ==> KeyPos(keys, axes, k) == PADS
  {
    assert Cleared(axes, k) ==> !Named(keys, k, ROWS);
    hide Pos, RowOf, Btn, Claims, Rank, Taken, Cleared, FreePos, FreeBelow;
    if Named(keys, k, ROWS) {
      NamedIsTaken(keys, axes, k);
    } else if !Cleared(axes, k) {
      FreePosExists(Taken(keys, axes), Rank(keys, axes, k));
    }
  }

  lemma FreePosExists(taken: seq<bool>, j: nat)
    requires |taken| == PADS
    ensures FreePos(taken, j, 0) < PADS <==> j < FreeBelow(taken, PADS)
  {
    var q := FreePos(taken, j, 0);
    if q < PADS { FreeMonotone(taken, q, PADS); }
    if j < FreeBelow(taken, PADS) {
      var p := FreeAt(taken, PADS, j);
    }
  }

  // -------------------------------------------------- no bit has two owners

  /** The position of the pad bit an owner of the tables drives, or PADS. */
  ghost function OwnerPos(keys: seq<bool>, axes: seq<bool>, j: nat): (p: nat)
    requires Capable(keys, axes) && j < OWNERS
    ensures p <= PADS
  {
    if j < KEY_CNT then KeyPos(keys, axes, j)
    else
      var c := if j < KEY_CNT + ABS_CNT then j - KEY_CNT else j - KEY_CNT - ABS_CNT;
      var positive := j < KEY_CNT + ABS_CNT;
      if !ItemAfter(keys, axes, c, 6).Hat? then PADS
      else if c == HatOf(keys, axes) then if positive then 3 else 2
      else if positive then 1 else 0
  }

  lemma HatOrAxis(keys: seq<bool>, axes: seq<bool>, c: nat, n: nat)
    requires Capable(keys, axes) && c < ABS_CNT && n <= 6
    ensures var item := ItemAfter(keys, axes, c, n);
      && (item.Hat? ==> var hat := HatOf(keys, axes);
            && hat < ABS_CNT && (c == hat || c == hat + 1)
            && item == if c == hat then Hat(DPAD_RIGHT, DPAD_LEFT) else Hat(DPAD_DOWN, DPAD_UP))
      && (item.Axis? ==> LEFT_TRIGGER_AT <= item.to < SIZE - 1)
      && (item.AxisReverse? ==> LEFT_TRIGGER_AT <= item.to < SIZE - 1)
  {
    hide HatOf, Missing, LeftPair, RightPair, FlagValue;
    if n > 0 { HatOrAxis(keys, axes, c, n - 1); }
  }

  lemma MaskIsPad(keys: seq<bool>, axes: seq<bool>, j: nat)
    requires Capable(keys, axes) && j < OWNERS
    ensures Mask(TablesOf(keys, axes), j) == PadOrNone(OwnerPos(keys, axes, j))
  {
    hide KeyPos, HatOf;
    var t := TablesOf(keys, axes);
    if j < KEY_CNT {
      assert t.buttons[j] == KeyButton(keys, axes, j);
    } else {
      var c := if j < KEY_CNT + ABS_CNT then j - KEY_CNT else j - KEY_CNT - ABS_CNT;
      assert t.items[c] == ItemAfter(keys, axes, c, 6);
      HatOrAxis(keys, axes, c, 6);
      hide ItemAfter;
    }
  }

  lemma OwnersApart(keys: seq<bool>, axes: seq<bool>, i: nat, j: nat)
    requires Capable(keys, axes) && i < j < OWNERS
    requires OwnerPos(keys, axes, i) < PADS && OwnerPos(keys, axes, j) < PADS
    ensures OwnerPos(keys, axes, i) != OwnerPos(keys, axes, j)
  {
    hide KeyPos, HatOf;
    if j < KEY_CNT {
      KeysApart(keys, axes, i, j);
    } else {
      var d := if j < KEY_CNT + ABS_CNT then j - KEY_CNT else j - KEY_CNT - ABS_CNT;
      HatOrAxis(keys, axes, d, 6);
      if i < KEY_CNT {
        HatAlone(keys, axes, i);
      } else {
        var c := if i < KEY_CNT + ABS_CNT then i - KEY_CNT else i - KEY_CNT - ABS_CNT;
        HatOrAxis(keys, axes, c, 6);
        hide ItemAfter;
      }
    }
  }

  lemma PadsNoneApart(p: nat, q: nat)
    requires p <= PADS && q <= PADS && (p < PADS && q < PADS ==> p != q)
    ensures Both(PadOrNone(p), PadOrNone(q)) == 0
  {
    BothNone(PadOrNone(p));
    BothNone(PadOrNone(q));
    BothSym(PadOrNone(p), PadOrNone(q));
    if p < PADS && q < PADS {
      hide Both, Pad;
      if p < q { PadsApart(p, q); } else { PadsApart(q, p); BothSym(Pad(q), Pad(p)); }
    }
  }

  /** The tables of every device, accepted or not, give each bit of the button word at
      most one owner and keep axis stores away from it. */
  lemma TablesOwned(keys: seq<bool>, axes: seq<bool>)
    requires Capable(keys, axes)
    ensures Owned(TablesOf(keys, axes))
  {
    hide OwnerPos, PadOrNone, Both, ItemAfter, KeyPos;
    var t := TablesOf(keys, axes);
    forall i, j | 0 <= i < j < OWNERS ensures Both(Masks(t)[i], Masks(t)[j]) == 0 {
      MaskIsPad(keys, axes, i);
      MaskIsPad(keys, axes, j);
      if OwnerPos(keys, axes, i) < PADS && OwnerPos(keys, axes, j) < PADS { OwnersApart(keys, axes, i, j); }
      PadsNoneApart(OwnerPos(keys, axes, i), OwnerPos(keys, axes, j));
    }
    forall c | 0 <= c < ABS_CNT
      ensures t.items[c].Axis? ==> LEFT_TRIGGER_AT <= t.items[c].to
      ensures t.items[c].AxisReverse? ==> LEFT_TRIGGER_AT <= t.items[c].to
    {
      HatOrAxis(keys, axes, c, 6);
    }
  }

  /** Entries of the key table are single pad bits, never the reserved one, and only on
      keys the device has. */
  lemma ButtonTableSound(keys: seq<bool>, axes: seq<bool>, k: nat)
    requires Capable(keys, axes) && k < KEY_CNT && TablesOf(keys, axes).buttons[k] != 0
    ensures keys[k] && exists p :: 0 <= p < PADS && p != RESERVED && TablesOf(keys, axes).buttons[k] == Pad(p)
  {
    hide KeyPos, Pad;
    assert TablesOf(keys, axes).buttons[k] == KeyButton(keys, axes, k);
    KeyOwns(keys, axes, k);
  }

  /** No two keys share a bit. */
  lemma ButtonTableInjective(keys: seq<bool>, axes: seq<bool>, j: nat, k: nat)
    requires Capable(keys, axes) && j < k < KEY_CNT
    ensures var b := TablesOf(keys, axes).buttons;
      Both(b[j], b[k]) == 0 && (b[j] != 0 ==> b[j] != b[k])
  {
    TablesOwned(keys, axes);
    var t := TablesOf(keys, axes);
    BothSelf(t.buttons[j]);
    hide Both, Masks;
    assert Masks(t)[j] == t.buttons[j] && Masks(t)[k] == t.buttons[k];
  }

  // -------------------------------------------------------------- acceptance

  ghost function ClaimedRows(keys: seq<bool>, rows: nat): set<nat>
    requires |keys| == KEY_CNT && rows <= ROWS
  {
    set r: nat | r < rows && Claims(keys, r)
  }

  ghost function LeftoverKeys(keys: seq<bool>, axes: seq<bool>, n: nat): set<nat>
    requires Capable(keys, axes) && n <= KEY_CNT
  {
    set k: nat | k < n && Left(keys, axes, k)
  }

  lemma RankCounts(keys: seq<bool>, axes: seq<bool>, n: nat)
    requires Capable(keys, axes) && n <= KEY_CNT
    ensures Rank(keys, axes, n) == |LeftoverKeys(keys, axes, n)|
  {
    hide Left;
    if n == 0 {
      assert LeftoverKeys(keys, axes, 0) == {};
    } else {
      RankCounts(keys, axes, n - 1);
      var before := LeftoverKeys(keys, axes, n - 1);
      assert LeftoverKeys(keys, axes, n) == if Left(keys, axes, n - 1) then before + {n - 1} else before;
    }
  }

  /** Taking a free pad bit leaves one free bit fewer. */
  lemma TakeOneFree(taken: seq<bool>, p: nat, n: nat)
    requires |taken| == PADS && p < PADS && !taken[p] && n <= PADS
    ensures FreeBelow(taken[p := true], n) + (if p < n then 1 else 0) == FreeBelow(taken, n)
  {
    if n > 0 { TakeOneFree(taken, p, n - 1); }
  }

  lemma FreshFree(taken: seq<bool>, n: nat)
    requires |taken| == PADS && n <= PADS && forall p :: 0 <= p < PADS ==> (taken[p] <==> p == RESERVED)
    ensures FreeBelow(taken, n) == if n <= RESERVED then n else n - 1
  {
    if n > 0 { FreshFree(taken, n - 1); }
  }

  lemma ClaimIsFree(keys: seq<bool>, r: nat)
    requires |keys| == KEY_CNT && r < ROWS && Claims(keys, r)
    ensures Pos(r) < PADS && !TakenByName(keys, r)[Pos(r)]
  {
    RowOfBtn(r);
    FreeIff(keys, r);
  }

  lemma ClaimsCount(keys: seq<bool>, n: nat)
    requires |keys| == KEY_CNT && n <= ROWS
    ensures FreeBelow(TakenByName(keys, n), PADS) + |ClaimedRows(keys, n)| == 15
  {
    hide Claims, Pos, FreeBelow, Btn;
    if n == 0 {
      FreshFree(TakenByName(keys, 0), PADS);
      assert ClaimedRows(keys, 0) == {};
    } else {
      ClaimsCount(keys, n - 1);
      var before := ClaimedRows(keys, n - 1);
      assert ClaimedRows(keys, n) == if Claims(keys, n - 1) then before + {n - 1} else before;
      if Claims(keys, n - 1) {
        ClaimIsFree(keys, n - 1);
        TakeOneFree(TakenByName(keys, n - 1), Pos(n - 1), PADS);
      }
    }
  }

  lemma HatCount(keys: seq<bool>, axes: seq<bool>)
    requires Capable(keys, axes)
    ensures FreeBelow(Taken(keys, axes), PADS) + (if HatOf(keys, axes) < ABS_CNT then 4 else 0)
      == FreeBelow(TakenByName(keys, ROWS), PADS)
  {
    hide FreeBelow, TakenByName, FirstHat;
    var named := TakenByName(keys, ROWS);
    if HatOf(keys, axes) < ABS_CNT {
      TakeOneFree(named, 3, PADS);
      TakeOneFree(named[3 := true], 2, PADS);
      TakeOneFree(named[3 := true][2 := true], 1, PADS);
      TakeOneFree(named[3 := true][2 := true][1 := true], 0, PADS);
    }
  }

  /** A device has enough buttons exactly when the pads claimed by name, the four of a
      hat in use and the leftover keys number at least fifteen. */
  lemma AcceptedByCounting(keys: seq<bool>, axes: seq<bool>)
    requires Capable(keys, axes)
    ensures EnoughKeys(keys, axes) <==>
      |ClaimedRows(keys, ROWS)| + (if HatOf(keys, axes) < ABS_CNT then 4 else 0) + |LeftoverKeys(keys, axes, KEY_CNT)| >= 15
  {
    hide FreeBelow, Rank, Taken, HatOf, TakenByName, ClaimedRows, LeftoverKeys;
    ClaimsCount(keys, ROWS);
    HatCount(keys, axes);
    RankCounts(keys, axes, KEY_CNT);
  }

  // ---------------------------------------------------------- full coverage

  lemma RankAt(keys: seq<bool>, axes: seq<bool>, n: nat, j: nat) returns (k: nat)
    requires Capable(keys, axes) && n <= KEY_CNT && j < Rank(keys, axes, n)
    ensures k < n && Left(keys, axes, k) && Rank(keys, axes, k) == j
  {
    hide Left;
    k := n - 1;
    if Rank(keys, axes, k) > j || !Left(keys, axes, k) {
      k := RankAt(keys, axes, n - 1, j);
    }
  }

  lemma FreeBelowNext(taken: seq<bool>, p: nat)
    requires |taken| == PADS && p < PADS && !taken[p]
    ensures FreeBelow(taken, p + 1) == FreeBelow(taken, p) + 1
  {}

  lemma NamedDriver(keys: seq<bool>, axes: seq<bool>, p: nat) returns (k: nat)
    requires Capable(keys, axes) && p < PADS && p != RESERVED && TakenByName(keys, ROWS)[p]
    ensures k < KEY_CNT && keys[k] && KeyPos(keys, axes, k) == p
  {
    hide Pos, Btn, RowOf;
    TakenByNameIff(keys, ROWS, p);
    var r :| 0 <= r < ROWS && Claims(keys, r) && Pos(r) == p;
    RowOfBtn(r);
    k := Btn(r);
  }

  /** An accepted device has a key for every pad bit but the reserved one, or leaves the
      d-pad bit to its hat. */
  lemma KeyOrHat(keys: seq<bool>, axes: seq<bool>, p: nat)
    requires Capable(keys, axes) && Verdict(keys, axes) == Accepted && p < PADS && p != RESERVED
    ensures (HatOf(keys, axes) < ABS_CNT && p < 4) || exists k :: 0 <= k < KEY_CNT && keys[k] && KeyPos(keys, axes, k) == p
  {
    hide Pos, RowOf, Btn, FreePos, Rank, FreeBelow, FirstHat, TakenByName, KeyPos;
    var taken := Taken(keys, axes);
    if !taken[p] {
      FreeMonotone(taken, p + 1, PADS);
      FreeBelowNext(taken, p);
      var k := RankAt(keys, axes, KEY_CNT, FreeBelow(taken, p));
      FirstComeFirstServed(keys, axes, k, p);
    } else if TakenByName(keys, ROWS)[p] {
      var k := NamedDriver(keys, axes, p);
    }
  }

  /** The fallback for a missing left trigger stores at the item with number 16, which is
      the horizontal axis of the first hat; no other hat item is overwritten. */
  lemma HatItemKept(keys: seq<bool>, axes: seq<bool>, c: nat)
    requires Capable(keys, axes) && HatOf(keys, axes) < ABS_CNT
    requires c == HatOf(keys, axes) || c == HatOf(keys, axes) + 1
    ensures ItemAfter(keys, axes, c, 6).Hat? <==> !(c == 16 && !axes[ABS_Z])
  {
    hide HatOf, LeftPair, RightPair;
    assert forall f :: 0 <= f < 6 && FlagValue(f) == c ==> c == 16 && f == 4;
    SixTimes(keys, axes, c);
  }

  lemma SixTimes(keys: seq<bool>, axes: seq<bool>, c: nat)
    requires Capable(keys, axes) && (forall f :: 0 <= f < 6 && FlagValue(f) == c ==> f == 4)
    ensures ItemAfter(keys, axes, c, 6)
      == if c == 16 && Missing(axes, 4) then FlagItem(4) else ItemAfter(keys, axes, c, 0)
  {
    hide HatItem, NamedItem, Missing;
    assert ItemAfter(keys, axes, c, 1) == ItemAfter(keys, axes, c, 0);
    assert ItemAfter(keys, axes, c, 2) == ItemAfter(keys, axes, c, 1);
    assert ItemAfter(keys, axes, c, 3) == ItemAfter(keys, axes, c, 2);
    assert ItemAfter(keys, axes, c, 4) == ItemAfter(keys, axes, c, 3);
    assert ItemAfter(keys, axes, c, 6) == ItemAfter(keys, axes, c, 5);
  }

  /** Some key or hat direction drives the pad bit. */
  ghost predicate HasOwner(keys: seq<bool>, axes: seq<bool>, p: nat)
    requires Capable(keys, axes)
  {
    exists j :: 0 <= j < OWNERS && OwnerPos(keys, axes, j) == p
  }

  /** With a hat in use, the owners of the four d-pad bits are its two items. */
  lemma HatOwners(keys: seq<bool>, axes: seq<bool>, p: nat)
    requires Capable(keys, axes) && HatOf(keys, axes) < ABS_CNT && p < 4
    ensures HasOwner(keys, axes, p) <==>
      ItemAfter(keys, axes, if p >= 2 then HatOf(keys, axes) else HatOf(keys, axes) + 1, 6).Hat?
  {
    hide KeyPos, ItemAfter, HatOf;
    var hat := HatOf(keys, axes);
    assert hat == 16 || hat == 18 || hat == 20 || hat == 22;
    var c := if p >= 2 then hat else hat + 1;
    if ItemAfter(keys, axes, c, 6).Hat? {
      var j := if p == 1 || p == 3 then KEY_CNT + c else KEY_CNT + ABS_CNT + c;
      assert OwnerPos(keys, axes, j) == p;
    } else {
      forall j | 0 <= j < OWNERS ensures OwnerPos(keys, axes, j) != p {
        if j < KEY_CNT {
          HatAlone(keys, axes, j);
        } else {
          HatOrAxis(keys, axes, if j < KEY_CNT + ABS_CNT then j - KEY_CNT else j - KEY_CNT - ABS_CNT, 6);
        }
      }
    }
  }

  /** An accepted device drives a pad bit other than the reserved one exactly when the bit is
      not left or right of a d-pad on the first hat of a device without a left trigger. */
  lemma AcceptedDrivesIff(keys: seq<bool>, axes: seq<bool>, p: nat)
    requires Capable(keys, axes) && Verdict(keys, axes) == Accepted && p < PADS && p != RESERVED
    ensures HasOwner(keys, axes, p) <==> !(HatOf(keys, axes) == 16 && !axes[ABS_Z] && (p == 2 || p == 3))
  {
    hide KeyPos, ItemAfter, HatOf, Verdict;
    var hat := HatOf(keys, axes);
    if hat < ABS_CNT && p < 4 {
      HatOwners(keys, axes, p);
      HatItemKept(keys, axes, if p >= 2 then hat else hat + 1);
    } else {
      KeyOrHat(keys, axes, p);
      var k :| 0 <= k < KEY_CNT && keys[k] && KeyPos(keys, axes, k) == p;
      assert OwnerPos(keys, axes, k) == p;
    }
  }
}
