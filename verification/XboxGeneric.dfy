/** The Xbox tables against the allocator: on a device that has an Xbox pad's keys and axes the
    generic driver finds the same tables by itself. */
module XboxGeneric {
  import opened Gamepad
  import opened Translator
  import opened DeviceRun
  import opened Allocation
  import opened AllocationTheorems
  import opened Values
  import opened AxisBytes
  import opened Devices
  import opened Xboxpads

  lemma PadRowMask(r: nat)
    requires r < 6
    ensures Pos(r) < PADS && KeyMask(Btn(r)) == Pad(Pos(r))
  {}

  lemma MenuRowMask(r: nat)
    requires 6 <= r < 11
    ensures Pos(r) < PADS && KeyMask(Btn(r)) == Pad(Pos(r))
  {}

  lemma HappyRowMask(r: nat)
    requires 15 <= r < ROWS
    ensures Pos(r) < PADS && KeyMask(Btn(r)) == Pad(Pos(r))
  {}

  lemma OtherThanDpad(r: nat)
    requires r < ROWS && !(0x220 <= Btn(r) < 0x224)
    ensures r < 11 || 15 <= r
  {}

  /** The Xbox mask of a key that both drivers know by name is the pad bit that the generic
      driver gives it. */
  lemma XboxKeyNamed(code: nat)
    requires RowOf(code) < ROWS && !(0x220 <= code < 0x224)
    ensures Pos(RowOf(code)) < PADS && KeyMask(code) == Pad(Pos(RowOf(code)))
  {
    hide KeyMask, Pad, Pos, Btn, RowOf;
    var r := RowOf(code);
    OtherThanDpad(r);
    if r < 6 { PadRowMask(r); } else if r < 11 { MenuRowMask(r); } else { HappyRowMask(r); }
  }

  /** The keys without a name have no mask. */
  lemma XboxKeyUnnamed(code: nat)
    requires RowOf(code) == ROWS
    ensures KeyMask(code) == 0
  {}

  /** An event that an Xbox pad sends: a key taken by name, or a named or hat axis. */
  ghost predicate PadEvent(keys: seq<bool>, axes: seq<bool>, e: Event)
    requires Capable(keys, axes)
  {
    match e
    case Key(code, _) => Named(keys, code, ROWS) && !(0x220 <= code < 0x224)
    case Abs(code, _) => code < 6 || ((code == 16 || code == 17) && HatOf(keys, axes) == 16)
    case Other => true
  }

  ghost predicate PadEvents(keys: seq<bool>, axes: seq<bool>, es: seq<Event>)
    requires Capable(keys, axes)
  {
    forall i :: 0 <= i < |es| ==> PadEvent(keys, axes, es[i])
  }

  lemma SameItem(keys: seq<bool>, axes: seq<bool>, c: nat)
    requires Capable(keys, axes) && SixAxes(axes)
    requires c < 6 || ((c == 16 || c == 17) && HatOf(keys, axes) == 16)
    ensures ItemAfter(keys, axes, c, 6) == XboxItem(c) && Usable(XboxItem(c))
  {
    hide HatOf, ItemAfter;
    ItemsAre(keys, axes, c);
  }

  lemma SameButton(keys: seq<bool>, axes: seq<bool>, code: nat)
    requires Capable(keys, axes) && Named(keys, code, ROWS) && !(0x220 <= code < 0x224)
    ensures code < KEY_CNT && KeyButton(keys, axes, code) == KeyMask(code)
  {
    NamedKey(keys, code);
    KeyNamed(keys, axes, code);
    XboxKeyNamed(code);
    hide Pos, Pad, RowOf, Claims, KeyMask, KeyPos;
  }

  lemma SameStep(keys: seq<bool>, axes: seq<bool>, e: Event, g: Record)
    requires Capable(keys, axes) && SixAxes(axes) && PadEvent(keys, axes, e)
    ensures InTable(e) && Fits(TablesOf(keys, axes), e)
    ensures TableStep(e, g) == Step(TablesOf(keys, axes), e, g)
  {
    hide HatOf, ItemAfter, KeyButton, Named, KeyWord, KeyMask, ItemStep, Put, Get;
    match e
    case Key(code, value) =>
      SameButton(keys, axes, code);
      TableKeyForm(code, value, g);
      hide TableStep;
    case Abs(code, value) => SameItem(keys, axes, code);
    case Other =>
  }

  lemma {:induction false} SameRun(keys: seq<bool>, axes: seq<bool>, es: seq<Event>)
    requires Capable(keys, axes) && SixAxes(axes) && PadEvents(keys, axes, es)
    ensures AllFit(TablesOf(keys, axes), es) && forall i :: 0 <= i < |es| ==> InTable(es[i])
    ensures TableRun(es) == Run(TablesOf(keys, axes), es)
  {
    hide PadEvent, Step, TableStep, InTable, Fits;
    forall i | 0 <= i < |es| ensures InTable(es[i]) && Fits(TablesOf(keys, axes), es[i]) {
      SameStep(keys, axes, es[i], ZEROED);
    }
    if es != [] {
      var rest, e := es[..|es| - 1], es[|es| - 1];
      SameRun(keys, axes, rest);
      SameStep(keys, axes, e, TableRun(rest));
    }
  }

  /** After any stream of an Xbox pad whose keys and axes the generic driver takes by name, the
      three drivers' gamepads: the generic one and the table-driven one are equal, and the
      hand-written one is equal to them exactly when no trigger has spilt a visible byte. */
  lemma ThreeDrivers(keys: seq<bool>, axes: seq<bool>, es: seq<Event>)
    requires Capable(keys, axes) && SixAxes(axes) && PadEvents(keys, axes, es)
    requires forall i :: 0 <= i < |es| ==> Ordinary(es[i])
    ensures AllFit(TablesOf(keys, axes), es) && AllOrdinary(es)
    ensures TableRun(es) == Run(TablesOf(keys, axes), es)
    ensures HandRun(es) == Run(TablesOf(keys, axes), es) <==> Clean(es)
  {
    SameRun(keys, axes, es);
    hide PadEvents, InTable, Ordinary, Clean, Run, HandRun, TableRun, AllFit;
    DriversEqualIff(es);
  }

  /** The sign that the hand-written driver takes of a hat's value is that of the integer. */
  lemma WideSignInt(v: bv32)
    ensures WideSign(v) == Sign.Positive <==> Signed(v) > 0
    ensures WideSign(v) == Sign.Negative <==> Signed(v) < 0
  {
    WideZero(v);
    ValueInt(v);
    WordRange(Truncate(v));
    WordRange(Upper(v));
    hide Wide, Unsigned, Truncate, Upper;
  }

  lemma WideZero(v: bv32)
    ensures Wide(v) == 0 <==> v == 0
  {}
}
