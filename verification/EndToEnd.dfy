/** From device events to the keys a client believes to be down: the generic driver's
    tables, the gamepad record, the button state and the keystroke engine together. */
module EndToEnd {
  import opened Bits
  import opened XInput
  import opened Keystroke
  import opened KeystrokeApi
  import opened Unions
  import opened Gamepad
  import opened Translator
  import opened DeviceRun
  import opened Allocation
  import opened AllocationTheorems
  import opened AxisBytes

  // -------------------------------------------- rows of the table and pad bits

  /** The table row of a pad bit. */
  function PadRow(p: nat): (i: nat)
    requires p < PADS && p != RESERVED
    ensures Plain(i)
  {
    if p < 10 then p else if p == 10 then 32 else p - 2
  }

  lemma PadRowMask(p: nat)
    requires p < PADS && p != RESERVED
    ensures |BUTTONS| == 33 && BUTTONS[PadRow(p)].mask == Widen(Pad(p))
  {
    if p < 4 { assert BUTTONS[p] == PAD_KEYS[p]; }
    else if p < 8 { assert BUTTONS[p] == MENU_KEYS[p - 4]; }
    else if p < 10 { assert BUTTONS[p] == FACE_KEYS[p - 8]; }
    else if p == 10 { assert BUTTONS[32] == GUIDE_KEY[0]; }
    else if p < 14 { assert BUTTONS[p - 2] == FACE_KEYS[p - 10]; }
    else { assert BUTTONS[p - 2] == TRIGGER_KEYS[p - 14]; }
  }

  lemma WidenBoth(w: bv16, m: bv16)
    ensures Seen(Widen(w), Widen(m)) == 0 <==> Both(w, m) == 0
  {}

  lemma PadNotNone(p: nat)
    requires p < PADS
    ensures Pad(p) != 0
  {}

  lemma ReservedMask()
    ensures RESERVED0 == Widen(Pad(RESERVED))
  {}

  // ----------------------------------------- the button word, bit by bit

  /** Some key or hat direction that drives the pad bit is on. */
  ghost predicate Driven(keys: seq<bool>, axes: seq<bool>, es: seq<Event>, p: nat)
    requires Capable(keys, axes)
  {
    exists j :: 0 <= j < OWNERS && OwnerPos(keys, axes, j) == p && On(es, j)
  }

  lemma OwnerPad(keys: seq<bool>, axes: seq<bool>, es: seq<Event>, j: nat)
    requires Capable(keys, axes) && AllFit(TablesOf(keys, axes), es) && j < OWNERS && OwnerPos(keys, axes, j) < PADS
    ensures Both(Get(Run(TablesOf(keys, axes), es), BUTTONS_AT), Pad(OwnerPos(keys, axes, j))) != 0 <==> On(es, j)
  {
    hide OwnerPos, Pad, Both, Get, Run, On, Mask, Owned;
    TablesOwned(keys, axes);
    MaskIsPad(keys, axes, j);
    OwnerReads(TablesOf(keys, axes), es, j);
    PadNotNone(OwnerPos(keys, axes, j));
  }

  lemma PadIsPad(p: nat)
    requires p < PADS
    ensures PadOrNone(p) == Pad(p)
  {}

  lemma NoOwnerPad(keys: seq<bool>, axes: seq<bool>, es: seq<Event>, p: nat)
    requires Capable(keys, axes) && AllFit(TablesOf(keys, axes), es) && p < PADS
    requires forall j :: 0 <= j < OWNERS ==> OwnerPos(keys, axes, j) != p
    ensures Both(Get(Run(TablesOf(keys, axes), es), BUTTONS_AT), Pad(p)) == 0
  {
    hide OwnerPos, Pad, PadOrNone, Both, Get, Run, On, Mask, Owned, Union;
    var t := TablesOf(keys, axes);
    TablesOwned(keys, axes);
    ButtonsAreUnion(t, es);
    forall j | 0 <= j < OWNERS ensures Both(Masks(t)[j], Pad(p)) == 0 {
      MaskIsPad(keys, axes, j);
      PadsNoneApart(OwnerPos(keys, axes, j), p);
      PadIsPad(p);
    }
    UnionApart(Masks(t), AllOn(es), Pad(p));
  }

  /** Each bit of the button word is set exactly when a key or hat direction that drives
      it is on. */
  lemma PadBitIff(keys: seq<bool>, axes: seq<bool>, es: seq<Event>, p: nat)
    requires Capable(keys, axes) && AllFit(TablesOf(keys, axes), es) && p < PADS
    ensures Both(Get(Run(TablesOf(keys, axes), es), BUTTONS_AT), Pad(p)) != 0 <==> Driven(keys, axes, es, p)
  {
    hide OwnerPos, Pad, Both, Get, Run, On;
    if j: nat :| j < OWNERS && OwnerPos(keys, axes, j) == p {
      OwnerPad(keys, axes, es, j);
      if Driven(keys, axes, es, p) {
        var i :| 0 <= i < OWNERS && OwnerPos(keys, axes, i) == p && On(es, i);
        OwnerPad(keys, axes, es, i);
      }
    } else {
      NoOwnerPad(keys, axes, es, p);
    }
  }

  lemma ReservedHasNoOwner(keys: seq<bool>, axes: seq<bool>, j: nat)
    requires Capable(keys, axes) && j < OWNERS
    ensures OwnerPos(keys, axes, j) != RESERVED
  {
    hide KeyPos, ItemAfter, HatOf;
    if j < KEY_CNT && KeyPos(keys, axes, j) < PADS { KeyOwns(keys, axes, j); }
  }

  // ------------------------------------------------------------- completeness

  /** Whatever a generic device sends, its button state is well formed: only bits of the
      table, and no two opposite directions of a stick. */
  lemma DeviceStateWellFormed(keys: seq<bool>, axes: seq<bool>, es: seq<Event>)
    requires Capable(keys, axes) && AllFit(TablesOf(keys, axes), es)
    ensures WellFormed(BUTTONS, ButtonState(Run(TablesOf(keys, axes), es)))
  {
    hide OwnerPos, Pad, Both, Get, Run, Seen, Widen, ButtonState, WellFormed;
    var g := Run(TablesOf(keys, axes), es);
    forall j | 0 <= j < OWNERS ensures OwnerPos(keys, axes, j) != RESERVED {
      ReservedHasNoOwner(keys, axes, j);
    }
    NoOwnerPad(keys, axes, es, RESERVED);
    ReservedMask();
    WidenBoth(Get(g, BUTTONS_AT), Pad(RESERVED));
    ButtonStateWellFormedIff(g);
  }

  /** So for a generic device "no keystroke" means that nothing is left to report. */
  lemma QuietIff(keys: seq<bool>, axes: seq<bool>, es: seq<Event>, targets: seq<bv32>)
    requires Capable(keys, axes) && AllFit(TablesOf(keys, axes), es)
    ensures var to := ButtonState(Run(TablesOf(keys, axes), es));
      var from := Polls(BUTTONS, 0, targets).1;
      NextStroke(BUTTONS, from, to).None? <==> from == to
  {
    hide Run, ButtonState, WellFormed, Active, Polls, FirstReleased, Lawful, Replay, NextStroke;
    var to := ButtonState(Run(TablesOf(keys, axes), es));
    DeviceStateWellFormed(keys, axes, es);
    StreamLaw(targets);
    var from := Polls(BUTTONS, 0, targets).1;
    NoStrokeIff(BUTTONS, from, to);
    if Active(BUTTONS, from) == Active(BUTTONS, to) { WellFormedUnique(BUTTONS, from, to); }
  }

  // --------------------------------------------------------------- end to end

  /** What a client believes after polling with any earlier targets and then draining. */
  ghost function Believed(targets: seq<bv32>, to: bv32): set<nat>
  {
    ButtonsProper();
    var (ks, s) := Polls(BUTTONS, 0, targets);
    Replay({}, ks + Drain(BUTTONS, s, to).0)
  }

  /** After any events and a full drain the engine remembers exactly the current button
      state, and the client believes exactly the keys the gamepad says are down. */
  lemma ClientSeesGamepad(keys: seq<bool>, axes: seq<bool>, es: seq<Event>, targets: seq<bv32>)
    requires Capable(keys, axes) && AllFit(TablesOf(keys, axes), es)
    ensures var g := Run(TablesOf(keys, axes), es);
      var (ks, s) := Polls(BUTTONS, 0, targets);
      && Proper(BUTTONS)
      && Drain(BUTTONS, s, ButtonState(g)).1 == ButtonState(g)
      && Lawful({}, ks + Drain(BUTTONS, s, ButtonState(g)).0)
      && forall i :: 0 <= i < |BUTTONS| ==> (i in Believed(targets, ButtonState(g)) <==> Pressed(g, i))
  {
    hide Run, ButtonState, WellFormed, Active, Polls, Drain, Lawful, Replay, Pressed, Proper, Rows;
    var g := Run(TablesOf(keys, axes), es);
    var (ks, s) := Polls(BUTTONS, 0, targets);
    ButtonsProper();
    DeviceStateWellFormed(keys, axes, es);
    StreamLaw(targets);
    DrainReachesTargetIff(BUTTONS, s, ButtonState(g));
    DrainLawful(BUTTONS, s, ButtonState(g));
    LawfulConcat({}, ks, Drain(BUTTONS, s, ButtonState(g)).0);
    forall i | 0 <= i < |BUTTONS|
      ensures i in Believed(targets, ButtonState(g)) <==> Pressed(g, i)
    {
      ActiveIsPressed(g, i);
    }
  }

  lemma PadPressed(g: Record, p: nat)
    requires p < PADS && p != RESERVED
    ensures |BUTTONS| == 33 && (Pressed(g, PadRow(p)) <==> Both(Get(g, BUTTONS_AT), Pad(p)) != 0)
  {
    hide Seen, Widen, Both, Get, Pad;
    PadRowMask(p);
    WidenBoth(Get(g, BUTTONS_AT), Pad(p));
  }

  /** The row of every pad bit is believed down exactly when a key or hat direction that
      drives it is on. */
  lemma PadBelievedIff(keys: seq<bool>, axes: seq<bool>, es: seq<Event>, targets: seq<bv32>, p: nat)
    requires Capable(keys, axes) && AllFit(TablesOf(keys, axes), es) && p < PADS && p != RESERVED
    ensures PadRow(p) in Believed(targets, ButtonState(Run(TablesOf(keys, axes), es))) <==> Driven(keys, axes, es, p)
  {
    hide Run, ButtonState, Believed, Driven, Pressed, Both, Pad, Get, PadRow, Polls, Drain, Lawful, Proper;
    ClientSeesGamepad(keys, axes, es, targets);
    PadPressed(Run(TablesOf(keys, axes), es), p);
    PadBitIff(keys, axes, es, p);
  }

  /** Every owner of a pad bit is its only one: the bit's key is believed down exactly when
      the owner's last event switched it on. */
  lemma OwnerBelievedIff(keys: seq<bool>, axes: seq<bool>, es: seq<Event>, targets: seq<bv32>, j: nat)
    requires Capable(keys, axes) && AllFit(TablesOf(keys, axes), es) && j < OWNERS && OwnerPos(keys, axes, j) < PADS
    ensures OwnerPos(keys, axes, j) != RESERVED
    ensures PadRow(OwnerPos(keys, axes, j)) in Believed(targets, ButtonState(Run(TablesOf(keys, axes), es)))
      <==> On(es, j)
  {
    hide Run, ButtonState, Believed, OwnerPos, PadRow, On;
    ReservedHasNoOwner(keys, axes, j);
    var p := OwnerPos(keys, axes, j);
    PadBelievedIff(keys, axes, es, targets, p);
    if Driven(keys, axes, es, p) {
      var i :| 0 <= i < OWNERS && OwnerPos(keys, axes, i) == p && On(es, i);
      if i < j { OwnersApart(keys, axes, i, j); }
      if j < i { OwnersApart(keys, axes, j, i); }
    }
  }

  /** Each physical key with a pad bit is believed down exactly when its last event was
      not zero. */
  lemma KeyBelievedIff(keys: seq<bool>, axes: seq<bool>, es: seq<Event>, targets: seq<bv32>, k: nat)
    requires Capable(keys, axes) && AllFit(TablesOf(keys, axes), es) && k < KEY_CNT && KeyPos(keys, axes, k) < PADS
    ensures KeyPos(keys, axes, k) != RESERVED
    ensures PadRow(KeyPos(keys, axes, k)) in Believed(targets, ButtonState(Run(TablesOf(keys, axes), es)))
      <==> LastKey(es, k) != 0
  {
    hide Run, ButtonState, Believed, KeyPos, PadRow, LastKey, ItemAfter, LastAbs, SignOf;
    OwnerBelievedIff(keys, axes, es, targets, k);
  }

  /** The hat in use: each direction is believed down exactly when the last value of its
      axis has that sign. */
  lemma HatBelievedIff(keys: seq<bool>, axes: seq<bool>, es: seq<Event>, targets: seq<bv32>, c: nat)
    requires Capable(keys, axes) && AllFit(TablesOf(keys, axes), es) && c < ABS_CNT && ItemAfter(keys, axes, c, 6).Hat?
    ensures var believed := Believed(targets, ButtonState(Run(TablesOf(keys, axes), es)));
      var sideways := c == HatOf(keys, axes);
      && ((if sideways then 3 else 1) in believed <==> SignOf(LastAbs(es, c)) == Sign.Positive)
      && ((if sideways then 2 else 0) in believed <==> SignOf(LastAbs(es, c)) == Sign.Negative)
  {
    hide Run, ButtonState, Believed, LastKey, ItemAfter, LastAbs, SignOf, HatOf;
    OwnerBelievedIff(keys, axes, es, targets, KEY_CNT + c);
    OwnerBelievedIff(keys, axes, es, targets, KEY_CNT + ABS_CNT + c);
  }

  /** The virtual key a named device key should report: VK_PAD_A for BTN_A and so on. */
  function NamedVk(code: nat): nat
  {
    match code
    case 0x130 => 0x5800  // BTN_A, VK_PAD_A
    case 0x131 => 0x5801  // BTN_B, VK_PAD_B
    case 0x133 => 0x5802  // BTN_X, VK_PAD_X
    case 0x134 => 0x5803  // BTN_Y, VK_PAD_Y
    case 0x136 => 0x5805  // BTN_TL, VK_PAD_LSHOULDER
    case 0x137 => 0x5804  // BTN_TR, VK_PAD_RSHOULDER
    case 0x13a => 0x5815  // BTN_SELECT, VK_PAD_BACK
    case 0x13b => 0x5814  // BTN_START, VK_PAD_START
    case 0x13c => 0x5808  // BTN_MODE, VK_PAD_GUIDE
    case 0x13d => 0x5816  // BTN_THUMBL, VK_PAD_LTHUMB_PRESS
    case 0x13e => 0x5817  // BTN_THUMBR, VK_PAD_RTHUMB_PRESS
    case 0x220 => 0x5810  // BTN_DPAD_UP, VK_PAD_DPAD_UP
    case 0x221 => 0x5811  // BTN_DPAD_DOWN, VK_PAD_DPAD_DOWN
    case 0x222 => 0x5812  // BTN_DPAD_LEFT, VK_PAD_DPAD_LEFT
    case 0x223 => 0x5813  // BTN_DPAD_RIGHT, VK_PAD_DPAD_RIGHT
    case 0x2c0 => 0x5812  // BTN_TRIGGER_HAPPY1, VK_PAD_DPAD_LEFT
    case 0x2c1 => 0x5813  // BTN_TRIGGER_HAPPY2, VK_PAD_DPAD_RIGHT
    case 0x2c2 => 0x5810  // BTN_TRIGGER_HAPPY3, VK_PAD_DPAD_UP
    case 0x2c3 => 0x5811  // BTN_TRIGGER_HAPPY4, VK_PAD_DPAD_DOWN
    case _ => 0
  }

  lemma NamedRow(r: nat)
    requires r < ROWS
    ensures Pos(r) < PADS && Pos(r) != RESERVED
    ensures |BUTTONS| == 33 && BUTTONS[PadRow(Pos(r))].vk == NamedVk(Btn(r))
  {
    RowOfBtn(r);
    VkOfRow(PadRow(Pos(r)));
  }

  /** A key that claims its pad bit by name is believed down, under the virtual key of that
      name and no other, exactly when its last event was not zero. */
  lemma NamedKeyReported(keys: seq<bool>, axes: seq<bool>, es: seq<Event>, targets: seq<bv32>, code: nat, i: nat)
    requires Capable(keys, axes) && AllFit(TablesOf(keys, axes), es) && Named(keys, code, ROWS)
    requires i < |BUTTONS| && BUTTONS[i].vk == NamedVk(code)
    ensures code < KEY_CNT
    ensures i in Believed(targets, ButtonState(Run(TablesOf(keys, axes), es))) <==> LastKey(es, code) != 0
  {
    NamedKey(keys, code);
    NamedRow(RowOf(code));
    VirtualKeysDistinct(i, PadRow(Pos(RowOf(code))));
    hide Run, ButtonState, Believed, Pos, Btn, RowOf, Claims, PadRow, NamedVk, LastKey;
    KeyBelievedIff(keys, axes, es, targets, code);
  }

  /** On a device with all six named axes the sticks are believed to point where the last
      values of their axes say, up to the byte a right trigger spills into the left one. */
  lemma SticksBelievedIff(keys: seq<bool>, axes: seq<bool>, es: seq<Event>, targets: seq<bv32>, k: nat)
    requires Capable(keys, axes) && SixAxes(axes) && AllFit(TablesOf(keys, axes), es) && k < 8
    ensures var believed := Believed(targets, ButtonState(Run(TablesOf(keys, axes), es)));
      && (16 + k in believed <==> Direction(k, SideOf(LeftX(es)), SideOf(Reversed(es, ABS_Y))))
      && (24 + k in believed <==> Direction(k, SideOf(LastAbs(es, ABS_RX)), SideOf(Reversed(es, ABS_RY))))
  {
    hide Run, ButtonState, Believed, Direction, SideOf, LastAbs, Reversed, LeftX, Get, AxesHold;
    hide Polls, Drain, Lawful, Proper;
    ButtonsProper();
    ClientSeesGamepad(keys, axes, es, targets);
    SixAxesHold(keys, axes, es);
    var g := Run(TablesOf(keys, axes), es);
    assert 16 + k in Believed(targets, ButtonState(g)) <==> Pressed(g, 16 + k);
    assert 24 + k in Believed(targets, ButtonState(g)) <==> Pressed(g, 24 + k);
  }

  /** The trigger keys follow the threshold on the bytes the triggers are left with. */
  lemma TriggersBelievedIff(keys: seq<bool>, axes: seq<bool>, es: seq<Event>, targets: seq<bv32>)
    requires Capable(keys, axes) && SixAxes(axes) && AllFit(TablesOf(keys, axes), es)
    ensures var believed := Believed(targets, ButtonState(Run(TablesOf(keys, axes), es)));
      && (14 in believed <==> Lo(LastAbs(es, ABS_Z)) > TRIGGER_THRESHOLD)
      && (15 in believed <==> RightTrigger(es) > TRIGGER_THRESHOLD)
  {
    hide Run, ButtonState, Believed, LastAbs, RightTrigger, Lo, Hi, LeftX, Reversed, Get, Polls, Drain, Lawful, Proper;
    ButtonsProper();
    ClientSeesGamepad(keys, axes, es, targets);
    SixAxesHold(keys, axes, es);
    var g := Run(TablesOf(keys, axes), es);
    assert 14 in Believed(targets, ButtonState(g)) <==> Pressed(g, 14);
    assert 15 in Believed(targets, ButtonState(g)) <==> Pressed(g, 15);
  }
}
