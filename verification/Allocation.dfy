/** What the allocator of src/linux_evdev/xinput_linux_evdev_generic.c decides, as a
    closed form over a device's capability flags: which pad bit each key gets, what each
    axis does, and whether the device is accepted. */
module Allocation {
  import opened Unions
  import opened Gamepad
  import opened Translator
  import opened DeviceRun

  // codes of linux/input.h
  const ABS_X: nat := 0
  const ABS_Y: nat := 1
  const ABS_Z: nat := 2
  const ABS_RX: nat := 3
  const ABS_RY: nat := 4
  const ABS_RZ: nat := 5
  const ABS_HAT0X: nat := 0x10

  const DPAD_UP: bv16 := 0x0001
  const DPAD_DOWN: bv16 := 0x0002
  const DPAD_LEFT: bv16 := 0x0004
  const DPAD_RIGHT: bv16 := 0x0008

  /** The sixteen pad bits in ascending order. */
  const PADS: nat := 16

  function Pad(p: nat): bv16
    requires p < PADS
  {
    if p == 0 then 0x0001 else if p == 1 then 0x0002 else if p == 2 then 0x0004 else if p == 3 then 0x0008
    else if p == 4 then 0x0010 else if p == 5 then 0x0020 else if p == 6 then 0x0040 else if p == 7 then 0x0080
    else if p == 8 then 0x0100 else if p == 9 then 0x0200 else if p == 10 then 0x0400 else if p == 11 then 0x0800
    else if p == 12 then 0x1000 else if p == 13 then 0x2000 else if p == 14 then 0x4000 else 0x8000
  }

  const RESERVED: nat := 11

  ghost function PadSeq(n: nat): (s: seq<bv16>)
    requires n <= PADS
    ensures |s| == n && forall p :: 0 <= p < n ==> s[p] == Pad(p)
  {
    if n == 0 then [] else PadSeq(n - 1) + [Pad(n - 1)]
  }

  ghost const ALL_PADS: seq<bv16> := PadSeq(PADS)

  lemma PadsApart(p: nat, q: nat)
    requires p < q < PADS
    ensures Both(Pad(p), Pad(q)) == 0
  {}

  lemma PadsDisjoint()
    ensures Disjoint(ALL_PADS)
  {
    hide Both, Pad;
    forall p, q | 0 <= p < q < PADS ensures Both(ALL_PADS[p], ALL_PADS[q]) == 0 {
      PadsApart(p, q);
    }
  }

  // ------------------------------------------------- the translation table

  /** Rows of the name table: the key code and the position of its pad bit. */
  const ROWS: nat := 19

  function Btn(r: nat): nat
    requires r < ROWS
  {
    if r == 0 then 0x130 else if r == 1 then 0x131 else if r == 2 then 0x133 else if r == 3 then 0x134
    else if r == 4 then 0x136 else if r == 5 then 0x137 else if r == 6 then 0x13a else if r == 7 then 0x13b
    else if r == 8 then 0x13c else if r == 9 then 0x13d else if r == 10 then 0x13e
    else if r == 11 then 0x222 else if r == 12 then 0x223 else if r == 13 then 0x220 else if r == 14 then 0x221
    else 0x2c0 + (r - 15)
  }

  function Pos(r: nat): nat
    requires r < ROWS
  {
    if r < 4 then 12 + r
    else if r == 4 then 8 else if r == 5 then 9 else if r == 6 then 5 else if r == 7 then 4
    else if r == 8 then 10 else if r == 9 then 6 else if r == 10 then 7
    else if r == 11 || r == 15 then 2 else if r == 12 || r == 16 then 3
    else if r == 13 || r == 17 then 0 else 1
  }

  /** The row naming a key, or the number of rows. */
  function RowOf(k: nat): (r: nat)
    ensures r <= ROWS
    ensures r < ROWS ==> Btn(r) == k
  {
    if k == 0x130 then 0 else if k == 0x131 then 1 else if k == 0x133 then 2 else if k == 0x134 then 3
    else if k == 0x136 then 4 else if k == 0x137 then 5 else if k == 0x13a then 6 else if k == 0x13b then 7
    else if k == 0x13c then 8 else if k == 0x13d then 9 else if k == 0x13e then 10
    else if k == 0x222 then 11 else if k == 0x223 then 12 else if k == 0x220 then 13 else if k == 0x221 then 14
    else if 0x2c0 <= k < 0x2c4 then 15 + (k - 0x2c0)
    else ROWS
  }

  lemma RowOfBtn(r: nat)
    requires r < ROWS
    ensures RowOf(Btn(r)) == r && Btn(r) < KEY_CNT && Pos(r) < PADS && Pos(r) != RESERVED
  {}

  /** Two rows name the same pad bit only when one is a second-choice d-pad row. */
  lemma SamePosition(q: nat, r: nat)
    requires q < r < ROWS
    ensures Pos(q) == Pos(r) <==> r >= 15 && q == r - 4
  {}

  // ------------------------------------------------------ keys taken by name

  ghost predicate Capable(keys: seq<bool>, axes: seq<bool>)
  {
    |keys| == KEY_CNT && |axes| == ABS_CNT
  }

  /** A row claims its pad bit when the device has the key and, for a second-choice
      d-pad row, does not have the first choice. */
  ghost predicate Claims(keys: seq<bool>, r: nat)
    requires |keys| == KEY_CNT && r < ROWS
  {
    RowOfBtn(r);
    keys[Btn(r)] && (r < 15 || (RowOfBtn(r - 4); !keys[Btn(r - 4)]))
  }

  ghost predicate Named(keys: seq<bool>, k: nat, rows: nat)
    requires |keys| == KEY_CNT && rows <= ROWS
  {
    RowOf(k) < rows && Claims(keys, RowOf(k))
  }

  /** The pad bit a key has by name after the first rows, or none. */
  ghost function NamedPad(keys: seq<bool>, k: nat, rows: nat): bv16
    requires |keys| == KEY_CNT && rows <= ROWS
  {
    if Named(keys, k, rows) then (RowOfBtn(RowOf(k)); Pad(Pos(RowOf(k)))) else 0
  }

  /** The pad bits in use after the first rows; the reserved bit is never given out. */
  ghost function TakenByName(keys: seq<bool>, rows: nat): (taken: seq<bool>)
    requires |keys| == KEY_CNT && rows <= ROWS
    ensures |taken| == PADS
  {
    if rows == 0 then
      [false, false, false, false, false, false, false, false,
       false, false, false, true, false, false, false, false]
    else
      var before := TakenByName(keys, rows - 1);
      if Claims(keys, rows - 1) then before[Pos(rows - 1) := true] else before
  }

  lemma TakenByNameIff(keys: seq<bool>, rows: nat, p: nat)
    requires |keys| == KEY_CNT && rows <= ROWS && p < PADS
    ensures TakenByName(keys, rows)[p] <==> p == RESERVED || exists r :: 0 <= r < rows && Claims(keys, r) && Pos(r) == p
  {
    hide Pos, Claims;
    if rows > 0 { TakenByNameIff(keys, rows - 1, p); }
  }

  /** The source's test that a row's pad bit is free is the first-choice rule. */
  lemma FreeIff(keys: seq<bool>, r: nat)
    requires |keys| == KEY_CNT && r < ROWS
    ensures TakenByName(keys, r)[Pos(r)] <==> r >= 15 && Claims(keys, r - 4)
  {
    hide Pos, Claims;
    RowOfBtn(r);
    TakenByNameIff(keys, r, Pos(r));
    forall q | 0 <= q < r ensures Pos(q) == Pos(r) <==> r >= 15 && q == r - 4 {
      SamePosition(q, r);
    }
  }

  // ------------------------------------------------------------------- axes

  ghost predicate LeftPair(axes: seq<bool>)
    requires |axes| == ABS_CNT
  {
    axes[ABS_X] && axes[ABS_Y]
  }

  ghost predicate RightPair(axes: seq<bool>)
    requires |axes| == ABS_CNT
  {
    axes[ABS_RX] && axes[ABS_RY]
  }

  /** All six axes found under their own names. */
  ghost predicate SixAxes(axes: seq<bool>)
    requires |axes| == ABS_CNT
  {
    LeftPair(axes) && RightPair(axes) && axes[ABS_Z] && axes[ABS_RZ]
  }

  /** Key codes dropped because their number is that of a named axis. */
  ghost predicate Cleared(axes: seq<bool>, k: nat)
    requires |axes| == ABS_CNT
  {
    match k
    case 0 => LeftPair(axes)
    case 1 => LeftPair(axes)
    case 2 => axes[ABS_Z]
    case 3 => RightPair(axes)
    case 4 => RightPair(axes)
    case 5 => axes[ABS_RZ]
    case _ => false
  }

  /** The horizontal axis of the first complete hat, or ABS_CNT. */
  ghost function FirstHat(axes: seq<bool>): (h: nat)
    requires |axes| == ABS_CNT
    ensures h == ABS_CNT || h == 16 || h == 18 || h == 20 || h == 22
    ensures h < ABS_CNT ==> axes[h] && axes[h + 1]
  {
    if axes[16] && axes[17] then 16
    else if axes[18] && axes[19] then 18
    else if axes[20] && axes[21] then 20
    else if axes[22] && axes[23] then 22
    else ABS_CNT
  }

  /** The hat used for the d-pad: only when no key took a d-pad bit. */
  ghost function HatOf(keys: seq<bool>, axes: seq<bool>): (h: nat)
    requires Capable(keys, axes)
    ensures h == ABS_CNT || h == 16 || h == 18 || h == 20 || h == 22
  {
    var taken := TakenByName(keys, ROWS);
    if taken[0] || taken[1] || taken[2] || taken[3] then ABS_CNT else FirstHat(axes)
  }

  ghost function Taken(keys: seq<bool>, axes: seq<bool>): (taken: seq<bool>)
    requires Capable(keys, axes)
    ensures |taken| == PADS
  {
    var named := TakenByName(keys, ROWS);
    if HatOf(keys, axes) == ABS_CNT then named else named[3 := true][2 := true][1 := true][0 := true]
  }

  // -------------------------------------------- first come, first served

  /** Keys the device has that no rule has used. */
  ghost predicate Left(keys: seq<bool>, axes: seq<bool>, k: nat)
    requires Capable(keys, axes) && k < KEY_CNT
  {
    keys[k] && !Named(keys, k, ROWS) && !Cleared(axes, k)
  }

  /** How many leftover keys have a smaller code. */
  ghost function Rank(keys: seq<bool>, axes: seq<bool>, k: nat): nat
    requires Capable(keys, axes) && k <= KEY_CNT
  {
    if k == 0 then 0 else Rank(keys, axes, k - 1) + if Left(keys, axes, k - 1) then 1 else 0
  }

  /** How many pad bits below `p` are free. */
  ghost function FreeBelow(taken: seq<bool>, p: nat): (n: nat)
    requires |taken| == PADS && p <= PADS
    ensures n <= p
  {
    if p == 0 then 0 else FreeBelow(taken, p - 1) + if taken[p - 1] then 0 else 1
  }

  /** The position of the free pad bit with `j` free ones below, or PADS. */
  ghost function FreePos(taken: seq<bool>, j: nat, p: nat): (r: nat)
    requires |taken| == PADS && p <= PADS
    requires forall q :: 0 <= q < p && !taken[q] ==> FreeBelow(taken, q) != j
    ensures r <= PADS
    ensures r < PADS ==> !taken[r] && FreeBelow(taken, r) == j
    ensures r == PADS ==> forall q :: 0 <= q < PADS && !taken[q] ==> FreeBelow(taken, q) != j
    decreases PADS - p
  {
    if p == PADS then PADS
    else if !taken[p] && FreeBelow(taken, p) == j then p
    else FreePos(taken, j, p + 1)
  }

  /** The position of the pad bit a key drives, or PADS: its own by name, otherwise the
      j-th leftover key in code order drives the j-th free pad bit. */
  ghost function KeyPos(keys: seq<bool>, axes: seq<bool>, k: nat): (p: nat)
    requires Capable(keys, axes) && k < KEY_CNT
    ensures p <= PADS
  {
    if Named(keys, k, ROWS) then (RowOfBtn(RowOf(k)); Pos(RowOf(k)))
    else if Left(keys, axes, k) then FreePos(Taken(keys, axes), Rank(keys, axes, k), 0)
    else PADS
  }

  /** Between two counts of free bits lies every count. */
  lemma FreeAt(taken: seq<bool>, p: nat, m: nat) returns (q: nat)
    requires |taken| == PADS && p <= PADS && m < FreeBelow(taken, p)
    ensures q < p && !taken[q] && FreeBelow(taken, q) == m
  {
    q := p - 1;
    if FreeBelow(taken, q) > m {
      q := FreeAt(taken, q, m);
    }
  }

  lemma FreeMonotone(taken: seq<bool>, p: nat, q: nat)
    requires |taken| == PADS && p <= q <= PADS
    ensures FreeBelow(taken, p) + (if p < q && !taken[p] then 1 else 0) <= FreeBelow(taken, q)
    decreases q
  {
    if p < q { FreeMonotone(taken, p, q - 1); }
  }

  lemma RankMonotone(keys: seq<bool>, axes: seq<bool>, i: nat, k: nat)
    requires Capable(keys, axes) && i <= k <= KEY_CNT
    ensures Rank(keys, axes, i) <= Rank(keys, axes, k)
    decreases k
  {
    hide Left;
    if i < k { RankMonotone(keys, axes, i, k - 1); }
  }

  function PadOrNone(p: nat): bv16
    requires p <= PADS
  {
    if p < PADS then Pad(p) else 0
  }

  ghost function KeyButton(keys: seq<bool>, axes: seq<bool>, k: nat): bv16
    requires Capable(keys, axes) && k < KEY_CNT
  {
    PadOrNone(KeyPos(keys, axes, k))
  }

  // -------------------------------------------------------------- axis items

  ghost function NamedItem(axes: seq<bool>, c: nat): Item
    requires |axes| == ABS_CNT
  {
    match c
    case 0 => if LeftPair(axes) then Axis(LX_AT) else Unmapped
    case 1 => if LeftPair(axes) then AxisReverse(LY_AT) else Unmapped
    case 2 => if axes[ABS_Z] then Axis(LEFT_TRIGGER_AT) else Unmapped
    case 3 => if RightPair(axes) then Axis(RX_AT) else Unmapped
    case 4 => if RightPair(axes) then AxisReverse(RY_AT) else Unmapped
    case 5 => if axes[ABS_RZ] then Axis(RIGHT_TRIGGER_AT) else Unmapped
    case _ => Unmapped
  }

  ghost function HatItem(hat: nat, c: nat, otherwise: Item): Item
  {
    if hat == ABS_CNT then otherwise
    else if c == hat then Hat(DPAD_RIGHT, DPAD_LEFT)
    else if c == hat + 1 then Hat(DPAD_DOWN, DPAD_UP)
    else otherwise
  }

  /** Whether the fallback fills the field of a flag: the flag's axis was not named. */
  ghost predicate Missing(axes: seq<bool>, flag: nat)
    requires |axes| == ABS_CNT && flag < 6
  {
    match flag
    case 0 => !LeftPair(axes)
    case 1 => !LeftPair(axes)
    case 2 => !RightPair(axes)
    case 3 => !RightPair(axes)
    case 4 => !axes[ABS_Z]
    case _ => !axes[ABS_RZ]
  }

  /** The fallback stores at the item whose index is the value of the flag. */
  function FlagValue(flag: nat): nat
    requires flag < 6
  {
    if flag == 0 then 1 else if flag == 1 then 2 else if flag == 2 then 4
    else if flag == 3 then 8 else if flag == 4 then 16 else 32
  }

  function FlagItem(flag: nat): Item
    requires flag < 6
  {
    if flag == 0 then Axis(LX_AT) else if flag == 1 then AxisReverse(LY_AT)
    else if flag == 2 then Axis(RX_AT) else if flag == 3 then AxisReverse(RY_AT)
    else if flag == 4 then Axis(LX_AT) else Axis(LY_AT)
  }

  /** An axis bit the fallback scan can find: any but those of the hat in use. */
  ghost predicate Surviving(keys: seq<bool>, axes: seq<bool>, c: nat)
    requires Capable(keys, axes) && c < ABS_CNT
  {
    var hat := HatOf(keys, axes);
    axes[c] && (hat == ABS_CNT || (c != hat && c != hat + 1))
  }

  /** The items after the fallback has handled the first flags. */
  ghost function ItemAfter(keys: seq<bool>, axes: seq<bool>, c: nat, flags: nat): Item
    requires Capable(keys, axes) && flags <= 6
  {
    if flags == 0 then HatItem(HatOf(keys, axes), c, NamedItem(axes, c))
    else if Missing(axes, flags - 1) && c == FlagValue(flags - 1) then FlagItem(flags - 1)
    else ItemAfter(keys, axes, c, flags - 1)
  }

  lemma NoneMissing(keys: seq<bool>, axes: seq<bool>, c: nat, n: nat)
    requires Capable(keys, axes) && SixAxes(axes) && n <= 6
    ensures ItemAfter(keys, axes, c, n) == ItemAfter(keys, axes, c, 0)
  {
    if n > 0 { NoneMissing(keys, axes, c, n - 1); }
  }

  lemma KeyNamed(keys: seq<bool>, axes: seq<bool>, k: nat)
    requires Capable(keys, axes) && k < KEY_CNT && Named(keys, k, ROWS)
    ensures KeyButton(keys, axes, k) == NamedPad(keys, k, ROWS)
  {
    hide Pos, Pad, Claims, Btn;
    RowOfBtn(RowOf(k));
  }

  // -------------------------------------------------------------- acceptance

  datatype Outcome = Accepted | Refused | Overrun

  /** The axis scan runs past the bitmap exactly when an axis is missing and no axis bit
      is left to stand in for it. */
  ghost predicate ScanEnds(keys: seq<bool>, axes: seq<bool>)
    requires Capable(keys, axes)
  {
    SixAxes(axes) || exists c :: 0 <= c < ABS_CNT && Surviving(keys, axes, c)
  }

  /** Enough leftover keys for the pad bits still free. */
  ghost predicate EnoughKeys(keys: seq<bool>, axes: seq<bool>)
    requires Capable(keys, axes)
  {
    Rank(keys, axes, KEY_CNT) >= FreeBelow(Taken(keys, axes), PADS)
  }

  /** The tables of an accepted device. */
  ghost function TablesOf(keys: seq<bool>, axes: seq<bool>): (t: Tables)
    requires Capable(keys, axes)
    ensures Sized(t)
    ensures forall k :: 0 <= k < KEY_CNT ==> t.buttons[k] == KeyButton(keys, axes, k)
    ensures forall c :: 0 <= c < ABS_CNT ==> t.items[c] == ItemAfter(keys, axes, c, 6)
  {
    Tables(ButtonsUpTo(keys, axes, KEY_CNT), ItemsUpTo(keys, axes, ABS_CNT))
  }

  ghost function ButtonsUpTo(keys: seq<bool>, axes: seq<bool>, n: nat): (buttons: seq<bv16>)
    requires Capable(keys, axes) && n <= KEY_CNT
    ensures |buttons| == n && forall k :: 0 <= k < n ==> buttons[k] == KeyButton(keys, axes, k)
  {
    if n == 0 then [] else ButtonsUpTo(keys, axes, n - 1) + [KeyButton(keys, axes, n - 1)]
  }

  ghost function ItemsUpTo(keys: seq<bool>, axes: seq<bool>, n: nat): (items: seq<Item>)
    requires Capable(keys, axes) && n <= ABS_CNT
    ensures |items| == n && forall c :: 0 <= c < n ==> items[c] == ItemAfter(keys, axes, c, 6)
  {
    if n == 0 then [] else ItemsUpTo(keys, axes, n - 1) + [ItemAfter(keys, axes, n - 1, 6)]
  }

  ghost function Verdict(keys: seq<bool>, axes: seq<bool>): Outcome
    requires Capable(keys, axes)
  {
    if !ScanEnds(keys, axes) then Overrun
    else if EnoughKeys(keys, axes) then Accepted
    else Refused
  }
}
