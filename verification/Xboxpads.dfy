/** The two Xbox drivers: the hand-written switch of
    src/linux_evdev/xinput_linux_evdev_xboxpad.c and the table interpreter of
    src/linux_evdev/xinput_linux_evdev_xboxpad_2.c. */
module Xboxpads {
  import opened Unions
  import opened Gamepad
  import opened Translator
  import opened Allocation
  import opened AxisBytes
  import opened DeviceRun

  const BTN_GAMEPAD: nat := 0x130
  const BTN_DIGI: nat := 0x140
  const BTN_TRIGGER_HAPPY1: nat := 0x2c0

  const ABS_HAT0Y: nat := 0x11

  // --------------------------------------------------------- the hand driver

  /** The two mask tables of the switch. */
  const PAD_MASKS: seq<bv16> := [
    0x1000, 0x2000, 0, 0x4000, 0x8000, 0, 0x0100, 0x0200, 0, 0, 0x0020, 0x0010, 0x0400, 0x0040, 0x0080, 0]
  const HAPPY_MASKS: seq<bv16> := [0x0004, 0x0008, 0x0001, 0x0002]

  /** The sign of the whole 32-bit event value. */
  function WideSign(value: bv32): Sign
  {
    if value == 0 then None else if value < 0x8000_0000 then Positive else Negative
  }

  function SetOrClear(w: bv16, mask: bv16, down: bool): bv16
  {
    if down then With(w, mask) else Without(w, mask)
  }

  function HandHat(w: bv16, positive: bv16, negative: bv16, sign: Sign): bv16
  {
    match sign
    case Positive => Without(With(w, positive), negative)
    case Negative => With(Without(w, positive), negative)
    case None => Without(w, With(positive, negative))
  }

  function HandStep(e: Event, g: Record): Record
  {
    match e
    case Key(code, value) =>
      if BTN_GAMEPAD <= code < BTN_DIGI then
        Put(g, BUTTONS_AT, SetOrClear(Get(g, BUTTONS_AT), PAD_MASKS[code - BTN_GAMEPAD], value == 1))
      else if BTN_TRIGGER_HAPPY1 <= code < BTN_TRIGGER_HAPPY1 + 4 then
        Put(g, BUTTONS_AT, SetOrClear(Get(g, BUTTONS_AT), HAPPY_MASKS[code - BTN_TRIGGER_HAPPY1], value == 1))
      else g
    case Abs(code, value) =>
      if code == ABS_X then Put(g, LX_AT, Truncate(value))
      else if code == ABS_Y then Put(g, LY_AT, Complement(Truncate(value)))
      else if code == ABS_RX then Put(g, RX_AT, Truncate(value))
      else if code == ABS_RY then Put(g, RY_AT, Complement(Truncate(value)))
      else if code == ABS_Z then g[LEFT_TRIGGER_AT := Lo(Truncate(value))]
      else if code == ABS_RZ then g[RIGHT_TRIGGER_AT := Lo(Truncate(value))]
      else if code == ABS_HAT0X then
        Put(g, BUTTONS_AT, HandHat(Get(g, BUTTONS_AT), DPAD_RIGHT, DPAD_LEFT, WideSign(value)))
      else if code == ABS_HAT0Y then
        Put(g, BUTTONS_AT, HandHat(Get(g, BUTTONS_AT), DPAD_DOWN, DPAD_UP, WideSign(value)))
      else g
    case Other => g
  }

  method HandKey(mask: bv16, value: bv32, gamepad: array<bv8>)
    requires gamepad.Length == SIZE
    modifies gamepad
    ensures gamepad[..] == Put(old(gamepad[..]), BUTTONS_AT, SetOrClear(Get(old(gamepad[..]), BUTTONS_AT), mask, value == 1))
  {
    hide Word, With, Without, Put;
    var w := Word(gamepad[0], gamepad[1]);
    if value == 1 {
      Store(gamepad, BUTTONS_AT, With(w, mask));
    } else {
      Store(gamepad, BUTTONS_AT, Without(w, mask));
    }
  }

  method HandHatEvent(positive: bv16, negative: bv16, value: bv32, gamepad: array<bv8>)
    requires gamepad.Length == SIZE
    modifies gamepad
    ensures gamepad[..] == Put(old(gamepad[..]), BUTTONS_AT,
      HandHat(Get(old(gamepad[..]), BUTTONS_AT), positive, negative, WideSign(value)))
  {
    hide Word, With, Without, Put, WideSign;
    var w := Word(gamepad[0], gamepad[1]);
    match WideSign(value)
    case Positive => Store(gamepad, BUTTONS_AT, Without(With(w, positive), negative));
    case Negative => Store(gamepad, BUTTONS_AT, With(Without(w, positive), negative));
    case None => Store(gamepad, BUTTONS_AT, Without(w, With(positive, negative)));
  }

  method HandEvent(e: Event, gamepad: array<bv8>)
    requires gamepad.Length == SIZE
    modifies gamepad
    ensures gamepad[..] == HandStep(e, old(gamepad[..]))
  {
    hide Truncate, Complement, SetOrClear, HandHat, Get, Put, Lo;
    match e
    case Key(code, value) =>
      if BTN_GAMEPAD <= code < BTN_DIGI {
        HandKey(PAD_MASKS[code - BTN_GAMEPAD], value, gamepad);
      } else if BTN_TRIGGER_HAPPY1 <= code < BTN_TRIGGER_HAPPY1 + 4 {
        HandKey(HAPPY_MASKS[code - BTN_TRIGGER_HAPPY1], value, gamepad);
      }
    case Abs(code, value) =>
      if code == ABS_X { Store(gamepad, LX_AT, Truncate(value)); }
      else if code == ABS_Y { Store(gamepad, LY_AT, Complement(Truncate(value))); }
      else if code == ABS_RX { Store(gamepad, RX_AT, Truncate(value)); }
      else if code == ABS_RY { Store(gamepad, RY_AT, Complement(Truncate(value))); }
      else if code == ABS_Z { gamepad[LEFT_TRIGGER_AT] := Lo(Truncate(value)); }
      else if code == ABS_RZ { gamepad[RIGHT_TRIGGER_AT] := Lo(Truncate(value)); }
      else if code == ABS_HAT0X { HandHatEvent(DPAD_RIGHT, DPAD_LEFT, value, gamepad); }
      else if code == ABS_HAT0Y { HandHatEvent(DPAD_DOWN, DPAD_UP, value, gamepad); }
    case Other =>
  }

  // -------------------------------------------------------- the table driver

  const XBOX_KEYS: seq<bv16> := [
    0x1000, 0x2000, 0, 0x4000, 0x8000, 0, 0x0100, 0x0200, 0, 0, 0x0020, 0x0010, 0x0400, 0x0040, 0x0080]
  const XBOX_KEYS_BIS: seq<bv16> := [0x0004, 0x0008, 0x0001, 0x0002]

  function XboxItem(code: nat): Item
  {
    match code
    case 0 => Axis(LX_AT)
    case 1 => AxisReverse(LY_AT)
    case 2 => Axis(LEFT_TRIGGER_AT)
    case 3 => Axis(RX_AT)
    case 4 => AxisReverse(RY_AT)
    case 5 => Axis(RIGHT_TRIGGER_AT)
    case 16 => Hat(DPAD_RIGHT, DPAD_LEFT)
    case 17 => Hat(DPAD_DOWN, DPAD_UP)
    case _ => Nothing
  }

  /** An event the table has an item for. */
  ghost predicate InTable(e: Event)
  {
    e.Abs? ==> e.code < ABS_CNT
  }

  function TableStep(e: Event, g: Record): Record
    requires InTable(e)
  {
    match e
    case Key(code, value) =>
      KeyStep(BTN_TRIGGER_HAPPY1, XBOX_KEYS_BIS, code, value, KeyStep(BTN_GAMEPAD, XBOX_KEYS, code, value, g))
    case Abs(code, value) => ItemStep(XboxItem(code), value, g)
    case Other => g
  }

  method TableEvent(e: Event, keys: array<bv16>, keysBis: array<bv16>, items: array<Item>, gamepad: array<bv8>)
    requires gamepad.Length == SIZE && InTable(e)
    requires keys[..] == XBOX_KEYS && keysBis[..] == XBOX_KEYS_BIS
    requires items.Length == ABS_CNT && forall c :: 0 <= c < ABS_CNT ==> items[c] == XboxItem(c)
    modifies gamepad
    ensures gamepad[..] == TableStep(e, old(gamepad[..]))
  {
    hide KeyStep, ItemStep;
    match e
    case Key(code, value) =>
      KeyEvent(BTN_GAMEPAD, keys, code, value, gamepad);
      KeyEvent(BTN_TRIGGER_HAPPY1, keysBis, code, value, gamepad);
    case Abs(code, value) => AbsEvent(items, code, value, gamepad);
    case Other =>
  }

  // ------------------------------------------------------- when they agree

  /** The button bit of a key in both drivers. */
  function KeyMask(code: nat): bv16
  {
    if BTN_GAMEPAD <= code < BTN_DIGI then PAD_MASKS[code - BTN_GAMEPAD]
    else if BTN_TRIGGER_HAPPY1 <= code < BTN_TRIGGER_HAPPY1 + 4 then HAPPY_MASKS[code - BTN_TRIGGER_HAPPY1]
    else 0
  }

  /** An event outside the triggers that both drivers read the same way: a mapped key only
      goes up or down, a hat value has the sign of its low half. */
  ghost predicate Ordinary(e: Event)
  {
    match e
    case Key(code, value) => KeyMask(code) == 0 || value == 0 || value == 1
    case Abs(code, value) => code == ABS_HAT0X || code == ABS_HAT0Y ==> WideSign(value) == SignOf(Truncate(value))
    case Other => true
  }

  ghost predicate IsTrigger(e: Event)
  {
    e.Abs? && (e.code == ABS_Z || e.code == ABS_RZ)
  }

  /** On these events the drivers agree: the spilled byte of a trigger must already hold
      what is spilled into it. */
  ghost predicate Agreeable(e: Event, g: Record)
  {
    && Ordinary(e)
    && (e.Abs? && e.code == ABS_Z ==> g[RIGHT_TRIGGER_AT] == Hi(Truncate(e.value)))
    && (e.Abs? && e.code == ABS_RZ ==> g[LX_AT] == Hi(Truncate(e.value)))
  }

  lemma WithShows(w: bv16, m: bv16)
    ensures Both(With(w, m), m) == m
  {}

  lemma WithoutShows(w: bv16, m: bv16)
    ensures Both(Without(w, m), m) == 0
  {}

  lemma WithoutHidden(w: bv16, n: bv16, m: bv16)
    requires Both(m, n) == 0
    ensures Both(Without(w, n), m) == Both(w, m)
  {}

  lemma SetNothing(w: bv16)
    ensures With(w, 0) == w && Without(w, 0) == w
  {}

  lemma SetClearDiffer(w: bv16, m: bv16)
    ensures With(w, m) == Without(w, m) <==> m == 0
  {
    WithShows(w, m);
    WithoutShows(w, m);
    SetNothing(w);
    hide With, Without, Both;
  }

  lemma PutSame(g: Record, v: bv16, w: bv16)
    ensures Put(g, BUTTONS_AT, v) == Put(g, BUTTONS_AT, w) <==> v == w
  {
    WordOfBytes(v);
    WordOfBytes(w);
    hide Lo, Hi, Word;
    if Put(g, BUTTONS_AT, v) == Put(g, BUTTONS_AT, w) {
      assert Put(g, BUTTONS_AT, v)[0] == Lo(v) && Put(g, BUTTONS_AT, v)[1] == Hi(v);
      assert Put(g, BUTTONS_AT, w)[0] == Lo(w) && Put(g, BUTTONS_AT, w)[1] == Hi(w);
    }
  }

  lemma PutBack(g: Record)
    ensures Put(g, BUTTONS_AT, Get(g, BUTTONS_AT)) == g
  {
    BytesOfWord(g[0], g[1]);
    hide Lo, Hi, Word;
  }

  /** The tables of the two drivers hold the same bits. */
  lemma SameMasks(c: nat)
    requires c < 16
    ensures c < 15 ==> XBOX_KEYS[c] == PAD_MASKS[c]
    ensures c == 15 ==> PAD_MASKS[c] == 0
    ensures c < 4 ==> XBOX_KEYS_BIS[c] == HAPPY_MASKS[c]
  {}

  lemma KeyNothing(value: bv32, g: Record)
    ensures Put(g, BUTTONS_AT, SetOrClear(Get(g, BUTTONS_AT), 0, value == 1)) == g
    ensures Put(g, BUTTONS_AT, KeyWord(Get(g, BUTTONS_AT), 0, value)) == g
  {
    PutBack(g);
    SetNothing(Get(g, BUTTONS_AT));
    hide Put, Get, With, Without;
  }

  /** Both drivers write the button word for a key, and the bit is the same. */
  lemma HandKeyForm(code: nat, value: bv32, g: Record)
    ensures HandStep(Key(code, value), g)
      == Put(g, BUTTONS_AT, SetOrClear(Get(g, BUTTONS_AT), KeyMask(code), value == 1))
  {
    hide Put, Get, SetOrClear;
    KeyNothing(value, g);
  }

  lemma KeyStepIn(first: nat, buttons: seq<bv16>, code: nat, value: bv32, g: Record)
    requires first <= code
    ensures KeyStep(first, buttons, code, value, g)
      == if code < first + |buttons|
         then Put(g, BUTTONS_AT, KeyWord(Get(g, BUTTONS_AT), buttons[code - first], value))
         else g
  {}

  lemma TableKeyForm(code: nat, value: bv32, g: Record)
    ensures TableStep(Key(code, value), g)
      == Put(g, BUTTONS_AT, KeyWord(Get(g, BUTTONS_AT), KeyMask(code), value))
  {
    hide Put, Get, KeyWord;
    KeyNothing(value, g);
    if BTN_GAMEPAD <= code < BTN_DIGI {
      SameMasks(code - BTN_GAMEPAD);
      KeyStepIn(BTN_GAMEPAD, XBOX_KEYS, code, value, g);
    } else if BTN_TRIGGER_HAPPY1 <= code < BTN_TRIGGER_HAPPY1 + 4 {
      SameMasks(code - BTN_TRIGGER_HAPPY1);
      KeyStepIn(BTN_TRIGGER_HAPPY1, XBOX_KEYS_BIS, code, value, g);
    }
  }

  lemma KeyAgreesIff(code: nat, value: bv32, g: Record)
    ensures HandStep(Key(code, value), g) == TableStep(Key(code, value), g) <==> Ordinary(Key(code, value))
  {
    HandKeyForm(code, value, g);
    TableKeyForm(code, value, g);
    var w, m := Get(g, BUTTONS_AT), KeyMask(code);
    PutSame(g, SetOrClear(w, m, value == 1), KeyWord(w, m, value));
    SetClearDiffer(w, m);
    hide Put, Get, With, Without, KeyMask, HandStep, TableStep;
  }

  lemma WithoutSwap(w: bv16, p: bv16, n: bv16)
    requires Both(p, n) == 0
    ensures With(Without(w, p), n) == Without(With(w, n), p)
  {}

  lemma HatForms(w: bv16, p: bv16, n: bv16, s: Sign)
    requires Both(p, n) == 0
    ensures HandHat(w, p, n, s) == HatWord(w, p, n, s)
  {
    if s == Negative { WithoutSwap(w, p, n); }
    hide With, Without, Both;
  }

  lemma HatBits(w: bv16, p: bv16, n: bv16)
    requires Both(p, n) == 0
    ensures Both(Without(With(w, p), n), p) == p && Both(Without(With(w, p), n), n) == 0
    ensures Both(Without(w, With(p, n)), p) == 0 && Both(Without(w, With(p, n)), n) == 0
  {
    WithShows(w, p);
    WithoutHidden(With(w, p), n, p);
    WithoutShows(With(w, p), n);
    WithoutTwo(w, p, n);
    WithoutShows(w, p);
    WithoutHidden(Without(w, p), n, p);
    WithoutShows(Without(w, p), n);
    hide With, Without, Both;
  }

  lemma HatWordInjective(w: bv16, p: bv16, n: bv16, s: Sign, r: Sign)
    requires Both(p, n) == 0 && p != 0 && n != 0
    ensures HatWord(w, p, n, s) == HatWord(w, p, n, r) <==> s == r
  {
    HatBits(w, p, n);
    BothSym(p, n);
    HatBits(w, n, p);
    hide With, Without, Both;
  }

  lemma HatAgreesIff(code: nat, value: bv32, g: Record)
    requires code == ABS_HAT0X || code == ABS_HAT0Y
    ensures HandStep(Abs(code, value), g) == TableStep(Abs(code, value), g) <==> Ordinary(Abs(code, value))
  {
    var p, n := if code == ABS_HAT0X then DPAD_RIGHT else DPAD_DOWN, if code == ABS_HAT0X then DPAD_LEFT else DPAD_UP;
    assert Both(p, n) == 0;
    var w, s, r := Get(g, BUTTONS_AT), WideSign(value), SignOf(Truncate(value));
    HatForms(w, p, n, s);
    HatWordInjective(w, p, n, s, r);
    PutSame(g, HatWord(w, p, n, s), HatWord(w, p, n, r));
    hide Put, Get, With, Without, Both, WideSign, SignOf, Truncate, HatWord, HandHat;
  }

  lemma TriggerAgreesIff(code: nat, value: bv32, g: Record)
    requires code == ABS_Z || code == ABS_RZ
    ensures HandStep(Abs(code, value), g) == TableStep(Abs(code, value), g) <==> Agreeable(Abs(code, value), g)
  {
    hide Lo, Hi, Truncate;
    var at := if code == ABS_Z then LEFT_TRIGGER_AT else RIGHT_TRIGGER_AT;
    var v := Truncate(value);
    var hand, table := g[at := Lo(v)], g[at := Lo(v)][at + 1 := Hi(v)];
    assert table[at + 1] == Hi(v) && hand[at + 1] == g[at + 1];
    if Hi(v) == g[at + 1] { assert hand == table; }
  }

  lemma PlainAgrees(code: nat, value: bv32, g: Record)
    requires code < ABS_CNT && code != ABS_HAT0X && code != ABS_HAT0Y && code != ABS_Z && code != ABS_RZ
    ensures HandStep(Abs(code, value), g) == TableStep(Abs(code, value), g) && Ordinary(Abs(code, value))
  {
    hide Put, Truncate, Complement;
  }

  /** One event, from any gamepad: the drivers do the same exactly when a mapped key's
      value is 0 or 1, a hat's value has the sign of its low half, and a trigger spills
      what the next byte already holds. */
  lemma EventAgreesIff(e: Event, g: Record)
    requires InTable(e)
    ensures HandStep(e, g) == TableStep(e, g) <==> Agreeable(e, g)
  {
    match e {
      case Key(code, value) => KeyAgreesIff(code, value, g);
      case Abs(code, value) =>
        if code == ABS_HAT0X || code == ABS_HAT0Y { HatAgreesIff(code, value, g); }
        else if code == ABS_Z || code == ABS_RZ { TriggerAgreesIff(code, value, g); }
        else { PlainAgrees(code, value, g); }
      case Other =>
    }
    hide HandStep, TableStep, Ordinary;
  }

  /** Sign extension of a 16-bit value keeps its sign. */
  lemma ShortValues(value: bv32)
    requires value < 0x8000 || value >= 0xFFFF_8000
    ensures WideSign(value) == SignOf(Truncate(value))
  {}

  /** Keys that go up and down and 16-bit axis values are ordinary. */
  lemma DeviceEventOrdinary(e: Event)
    requires e.Key? ==> e.value == 0 || e.value == 1
    requires e.Abs? ==> e.value < 0x8000 || e.value >= 0xFFFF_8000
    ensures Ordinary(e)
  {
    if e.Abs? { ShortValues(e.value); }
    hide Truncate, WideSign, SignOf;
  }

  // -------------------------------------------------------------- whole runs

  ghost function HandRun(es: seq<Event>): Record
  {
    if es == [] then ZEROED else HandStep(es[|es| - 1], HandRun(es[..|es| - 1]))
  }

  ghost function TableRun(es: seq<Event>): Record
    requires forall i :: 0 <= i < |es| ==> InTable(es[i])
  {
    if es == [] then ZEROED else TableStep(es[|es| - 1], TableRun(es[..|es| - 1]))
  }

  /** All bytes but the two that a trigger of the table driver spills into. */
  ghost predicate Alike(g: Record, h: Record)
  {
    forall b :: 0 <= b < SIZE && b != RIGHT_TRIGGER_AT && b != LX_AT ==> g[b] == h[b]
  }

  ghost predicate AllOrdinary(es: seq<Event>)
  {
    forall i :: 0 <= i < |es| ==> InTable(es[i]) && Ordinary(es[i])
  }

  lemma PutAlike(g: Record, h: Record, at: nat, v: bv16)
    requires Alike(g, h) && at + 1 < SIZE
    ensures Alike(Put(g, at, v), Put(h, at, v))
  {
    hide Lo, Hi;
  }

  lemma AlikeButtons(g: Record, h: Record)
    requires Alike(g, h)
    ensures Get(g, BUTTONS_AT) == Get(h, BUTTONS_AT)
  {
    hide Word;
  }

  lemma TriggerAlike(code: nat, value: bv32, g: Record, h: Record)
    requires Alike(g, h) && (code == ABS_Z || code == ABS_RZ)
    ensures Alike(HandStep(Abs(code, value), g), TableStep(Abs(code, value), h))
  {
    hide Lo, Hi, Truncate;
  }

  lemma HandAlike(e: Event, g: Record, h: Record)
    requires Alike(g, h) && !IsTrigger(e)
    ensures Alike(HandStep(e, g), HandStep(e, h))
  {
    AlikeButtons(g, h);
    hide Alike, Get, Put, SetOrClear, HandHat, Truncate, Complement;
    match e
    case Key(code, value) =>
      PutAlike(g, h, BUTTONS_AT, SetOrClear(Get(g, BUTTONS_AT), KeyMask(code), value == 1));
      HandKeyForm(code, value, g);
      HandKeyForm(code, value, h);
      hide HandStep;
    case Abs(code, value) =>
      PutAlike(g, h, LX_AT, Truncate(value));
      PutAlike(g, h, RX_AT, Truncate(value));
      PutAlike(g, h, LY_AT, Complement(Truncate(value)));
      PutAlike(g, h, RY_AT, Complement(Truncate(value)));
      PutAlike(g, h, BUTTONS_AT, HandHat(Get(g, BUTTONS_AT), DPAD_RIGHT, DPAD_LEFT, WideSign(value)));
      PutAlike(g, h, BUTTONS_AT, HandHat(Get(g, BUTTONS_AT), DPAD_DOWN, DPAD_UP, WideSign(value)));
    case Other =>
  }

  /** One ordinary event keeps two gamepads alike. */
  lemma StepAlike(e: Event, g: Record, h: Record)
    requires Alike(g, h) && InTable(e) && Ordinary(e)
    ensures Alike(HandStep(e, g), TableStep(e, h))
  {
    AlikeButtons(g, h);
    if IsTrigger(e) {
      TriggerAlike(e.code, e.value, g, h);
    } else {
      EventAgreesIff(e, h);
      HandAlike(e, g, h);
    }
    hide HandStep, TableStep, Ordinary;
  }

  lemma AlikeItself()
    ensures Alike(ZEROED, ZEROED)
  {}

  lemma {:induction false} RunsAlike(es: seq<Event>)
    requires AllOrdinary(es)
    ensures Alike(HandRun(es), TableRun(es))
  {
    hide Alike, HandStep, TableStep, Ordinary;
    if es == [] {
      AlikeItself();
    } else {
      RunsAlike(es[..|es| - 1]);
      StepAlike(es[|es| - 1], HandRun(es[..|es| - 1]), TableRun(es[..|es| - 1]));
    }
  }

  /** On every ordinary stream the drivers agree on the buttons, on the left trigger, on
      the left stick's vertical axis and on both axes of the right stick. */
  lemma DriversAgree(es: seq<Event>)
    requires AllOrdinary(es)
    ensures var g, h := HandRun(es), TableRun(es);
      && Get(g, BUTTONS_AT) == Get(h, BUTTONS_AT) && g[LEFT_TRIGGER_AT] == h[LEFT_TRIGGER_AT]
      && Get(g, LY_AT) == Get(h, LY_AT) && Get(g, RX_AT) == Get(h, RX_AT) && Get(g, RY_AT) == Get(h, RY_AT)
  {
    hide HandRun, TableRun, Word, Ordinary;
    RunsAlike(es);
  }

  /** The two bytes in which the drivers may differ, in terms of the last events. */
  ghost predicate SpillHold(es: seq<Event>, g: Record, h: Record)
  {
    && g[RIGHT_TRIGGER_AT] == Lo(LastAbs(es, ABS_RZ)) && h[RIGHT_TRIGGER_AT] == RightTrigger(es)
    && g[LX_AT] == Lo(LastAbs(es, ABS_X))
    && h[LX_AT] == if Later(es, ABS_RZ, ABS_X) then Hi(LastAbs(es, ABS_RZ)) else Lo(LastAbs(es, ABS_X))
  }

  predicate IsAbs(e: Event, code: nat)
  {
    e.Abs? && e.code == code
  }

  lemma HandBytes(e: Event, g: Record)
    ensures HandStep(e, g)[RIGHT_TRIGGER_AT] == if IsAbs(e, ABS_RZ) then Lo(Truncate(e.value)) else g[RIGHT_TRIGGER_AT]
    ensures HandStep(e, g)[LX_AT] == if IsAbs(e, ABS_X) then Lo(Truncate(e.value)) else g[LX_AT]
  {
    hide Lo, Hi, Truncate, Complement, Get, SetOrClear, HandHat;
  }

  lemma TableBytes(e: Event, g: Record)
    requires InTable(e)
    ensures TableStep(e, g)[RIGHT_TRIGGER_AT] ==
      if IsAbs(e, ABS_RZ) then Lo(Truncate(e.value))
      else if IsAbs(e, ABS_Z) then Hi(Truncate(e.value)) else g[RIGHT_TRIGGER_AT]
    ensures TableStep(e, g)[LX_AT] ==
      if IsAbs(e, ABS_X) then Lo(Truncate(e.value)) else if IsAbs(e, ABS_RZ) then Hi(Truncate(e.value)) else g[LX_AT]
  {
    hide Lo, Hi, Truncate, Complement, Get, KeyWord, HatWord;
    if e.Key? {
      TableKeyForm(e.code, e.value, g);
      hide TableStep;
    }
  }

  lemma SpillStep(es: seq<Event>, e: Event, g: Record, h: Record)
    requires SpillHold(es, g, h) && InTable(e)
    ensures SpillHold(es + [e], HandStep(e, g), TableStep(e, h))
  {
    hide Lo, Hi, LastAbs, Later, Truncate, HandStep, TableStep;
    LastStep(es, e, ABS_RZ);
    LastStep(es, e, ABS_Z);
    LastStep(es, e, ABS_X);
    LaterStep(es, e, ABS_Z, ABS_RZ);
    LaterStep(es, e, ABS_RZ, ABS_X);
    HandBytes(e, g);
    TableBytes(e, h);
  }

  lemma {:induction false} SpillAfter(es: seq<Event>)
    requires forall i :: 0 <= i < |es| ==> InTable(es[i])
    ensures SpillHold(es, HandRun(es), TableRun(es))
  {
    hide SpillHold, HandStep, TableStep;
    if es == [] {
      NothingSpilt();
    } else {
      var rest, e := es[..|es| - 1], es[|es| - 1];
      assert es == rest + [e];
      SpillAfter(rest);
      SpillStep(rest, e, HandRun(rest), TableRun(rest));
    }
  }

  lemma NothingSpilt()
    ensures SpillHold([], ZEROED, ZEROED)
  {
    BytesOfZero();
    hide Lo, Hi;
  }

  /** Nothing visible has been spilt: the last left trigger event after the last right one,
      and the last right trigger event after the last of the left stick's horizontal axis,
      spilt what the byte already held. */
  ghost predicate Clean(es: seq<Event>)
  {
    && (Later(es, ABS_Z, ABS_RZ) ==> Hi(LastAbs(es, ABS_Z)) == Lo(LastAbs(es, ABS_RZ)))
    && (Later(es, ABS_RZ, ABS_X) ==> Hi(LastAbs(es, ABS_RZ)) == Lo(LastAbs(es, ABS_X)))
  }

  /** After an ordinary stream the drivers hold the same gamepad exactly when nothing visible
      has been spilt. */
  lemma DriversEqualIff(es: seq<Event>)
    requires AllOrdinary(es)
    ensures HandRun(es) == TableRun(es) <==> Clean(es)
  {
    hide HandRun, TableRun, Ordinary, Lo, Hi, LastAbs, Later;
    RunsAlike(es);
    SpillAfter(es);
  }

  lemma {:induction false} NeverLater(es: seq<Event>, a: nat, b: nat)
    requires forall i :: 0 <= i < |es| ==> !(es[i].Abs? && es[i].code == a)
    ensures !Later(es, a, b)
  {
    if es != [] { NeverLater(es[..|es| - 1], a, b); }
  }

  /** In particular without trigger events. */
  lemma DriversEqual(es: seq<Event>)
    requires AllOrdinary(es) && forall i :: 0 <= i < |es| ==> !IsTrigger(es[i])
    ensures HandRun(es) == TableRun(es)
  {
    NeverLater(es, ABS_Z, ABS_RZ);
    NeverLater(es, ABS_RZ, ABS_X);
    DriversEqualIff(es);
    hide HandRun, TableRun;
  }

  lemma ShortTrigger()
    ensures Truncate(0x1234) == 0x1234 && Hi(0x1234) == 0x12
  {}

  /** One trigger event can already tell them apart. */
  lemma TriggerTellsApart()
    ensures AllOrdinary([Abs(ABS_Z, 0x1234)]) && HandRun([Abs(ABS_Z, 0x1234)]) != TableRun([Abs(ABS_Z, 0x1234)])
  {
    ShortTrigger();
    hide HandStep, TableStep, Truncate, Hi;
    var es := [Abs(ABS_Z, 0x1234)];
    assert es[..0] == [] && HandRun([]) == ZEROED == TableRun([]);
    EventAgreesIff(es[0], ZEROED);
  }
}
