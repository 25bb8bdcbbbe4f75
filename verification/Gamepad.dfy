/** The 16-byte gamepad record of src/xinput.h as memory, and the button state that
    src/xinput_gamepad.c derives from it.  Fields of two bytes are little-endian. */
module Gamepad {
  import opened Bits
  import opened XInput
  import opened Keystroke
  import opened KeystrokeApi

  const SIZE: nat := 16
  const BUTTONS_AT: nat := 0
  const LEFT_TRIGGER_AT: nat := 2
  const RIGHT_TRIGGER_AT: nat := 3
  const LX_AT: nat := 4
  const LY_AT: nat := 6
  const RX_AT: nat := 8
  const RY_AT: nat := 10

  type Record = g: seq<bv8> | |g| == SIZE witness [0, 0, 0, 0, 0, 0, 0, 0, 0, 0, 0, 0, 0, 0, 0, 0]

  const ZEROED: Record := [0, 0, 0, 0, 0, 0, 0, 0, 0, 0, 0, 0, 0, 0, 0, 0]

  function Lo(v: bv16): bv8 { (v & 0xFF) as bv8 }

  function Hi(v: bv16): bv8 { (v >> 8) as bv8 }

  function Word(lo: bv8, hi: bv8): bv16
  {
    (lo as bv16) | ((hi as bv16) << 8)
  }

  lemma WordOfBytes(v: bv16)
    ensures Word(Lo(v), Hi(v)) == v
  {}

  lemma BytesOfWord(lo: bv8, hi: bv8)
    ensures Lo(Word(lo, hi)) == lo && Hi(Word(lo, hi)) == hi
  {}

  function Get(g: Record, at: nat): bv16
    requires at + 1 < SIZE
  {
    Word(g[at], g[at + 1])
  }

  /** A two-byte store. */
  function Put(g: Record, at: nat, v: bv16): Record
    requires at + 1 < SIZE
  {
    g[at := Lo(v)][at + 1 := Hi(v)]
  }

  /** A load sees the last store to its field and nothing of stores elsewhere. */
  lemma GetPut(g: Record, at: nat, v: bv16, from: nat)
    requires at + 1 < SIZE && from + 1 < SIZE && (from == at || from + 1 < at || at + 1 < from)
    ensures Get(Put(g, at, v), from) == if from == at then v else Get(g, from)
  {
    WordOfBytes(v);
    hide Word, Lo, Hi;
  }

  method Store(g: array<bv8>, at: nat, v: bv16)
    requires g.Length == SIZE && at + 1 < SIZE
    modifies g
    ensures g[..] == Put(old(g[..]), at, v)
  {
    g[at] := Lo(v);
    g[at + 1] := Hi(v);
  }

  // ------------------------------------------- the button state of a gamepad

  const THUMB_THRESHOLD: int := 16384
  const TRIGGER_THRESHOLD: bv8 := 32

  function Unsigned(v: bv16): int
  {
    v as int
  }

  /** The signed value of a 16-bit word. */
  function Short(v: bv16): int
  {
    if v < 0x8000 then Unsigned(v) else Unsigned(v) - 0x1_0000
  }

  datatype Side = Minus | Middle | Plus

  function SideOf(v: bv16): Side
  {
    if Short(v) < -THUMB_THRESHOLD then Minus else if Short(v) > THUMB_THRESHOLD then Plus else Middle
  }

  function FromSide(side: Side, negative: bv32, positive: bv32): bv32
  {
    match side case Minus => negative case Middle => 0 case Plus => positive
  }

  function AxisToButtons(value: bv16, negative: bv32, positive: bv32): bv32
  {
    if Short(value) < -THUMB_THRESHOLD then negative
    else if Short(value) > THUMB_THRESHOLD then positive
    else 0
  }

  lemma AxisSide(value: bv16, negative: bv32, positive: bv32)
    ensures AxisToButtons(value, negative, positive) == FromSide(SideOf(value), negative, positive)
  {}

  function LeftStick(x: Side, y: Side): bv32
  {
    Join(FromSide(x, LTHUMB_LEFT, LTHUMB_RIGHT), FromSide(y, LTHUMB_DOWN, LTHUMB_UP))
  }

  function RightStick(x: Side, y: Side): bv32
  {
    Join(FromSide(x, RTHUMB_LEFT, RTHUMB_RIGHT), FromSide(y, RTHUMB_DOWN, RTHUMB_UP))
  }

  function Widen(w: bv16): bv32
  {
    w as bv32
  }

  function Sticks(w: bv16, lx: Side, ly: Side, rx: Side, ry: Side): bv32
  {
    Join(Join(Widen(w), LeftStick(lx, ly)), RightStick(rx, ry))
  }

  function Triggers(s: bv32, lt: bool, rt: bool): bv32
  {
    var t := if lt then Join(s, LTRIGGER) else s;
    if rt then Join(t, RTRIGGER) else t
  }

  function ButtonState(g: Record): bv32
  {
    Triggers(Sticks(Get(g, BUTTONS_AT), SideOf(Get(g, LX_AT)), SideOf(Get(g, LY_AT)),
                    SideOf(Get(g, RX_AT)), SideOf(Get(g, RY_AT))),
             g[LEFT_TRIGGER_AT] > TRIGGER_THRESHOLD, g[RIGHT_TRIGGER_AT] > TRIGGER_THRESHOLD)
  }

  method OrSticks(w: bv16, lx: bv16, ly: bv16, rx: bv16, ry: bv16) returns (buttons: bv32)
    ensures buttons == Sticks(w, SideOf(lx), SideOf(ly), SideOf(rx), SideOf(ry))
  {
    AxisSide(lx, LTHUMB_LEFT, LTHUMB_RIGHT);
    AxisSide(ly, LTHUMB_DOWN, LTHUMB_UP);
    AxisSide(rx, RTHUMB_LEFT, RTHUMB_RIGHT);
    AxisSide(ry, RTHUMB_DOWN, RTHUMB_UP);
    hide AxisToButtons, SideOf, FromSide, Join, Widen;
    var a := AxisToButtons(lx, LTHUMB_LEFT, LTHUMB_RIGHT);
    var b := AxisToButtons(ly, LTHUMB_DOWN, LTHUMB_UP);
    var c := AxisToButtons(rx, RTHUMB_LEFT, RTHUMB_RIGHT);
    var d := AxisToButtons(ry, RTHUMB_DOWN, RTHUMB_UP);
    buttons := Widen(w);
    buttons := Join(buttons, a);
    buttons := Join(buttons, b);
    JoinAssoc(Widen(w), a, b);
    buttons := Join(buttons, c);
    buttons := Join(buttons, d);
    JoinAssoc(Join(Widen(w), Join(a, b)), c, d);
  }

  method CopyButtonsState(gamepad: array<bv8>) returns (buttons: bv32)
    requires gamepad.Length == SIZE
    ensures buttons == ButtonState(gamepad[..])
  {
    hide Word, Sticks, Join;
    var lx, ly := Word(gamepad[LX_AT], gamepad[LX_AT + 1]), Word(gamepad[LY_AT], gamepad[LY_AT + 1]);
    var rx, ry := Word(gamepad[RX_AT], gamepad[RX_AT + 1]), Word(gamepad[RY_AT], gamepad[RY_AT + 1]);
    buttons := OrSticks(Word(gamepad[BUTTONS_AT], gamepad[BUTTONS_AT + 1]), lx, ly, rx, ry);
    if gamepad[LEFT_TRIGGER_AT] > TRIGGER_THRESHOLD {
      buttons := Join(buttons, LTRIGGER);
    }
    if gamepad[RIGHT_TRIGGER_AT] > TRIGGER_THRESHOLD {
      buttons := Join(buttons, RTRIGGER);
    }
  }

  // ------------------------------------------------- an independent decoding

  ghost predicate Direction(i: nat, x: Side, y: Side)
  {
    match i
    case 0 => y.Plus? && x.Minus?
    case 1 => y.Plus? && x.Plus?
    case 2 => y.Minus? && x.Plus?
    case 3 => y.Minus? && x.Minus?
    case 4 => y.Plus? && x.Middle?
    case 5 => y.Minus? && x.Middle?
    case 6 => x.Minus? && y.Middle?
    case 7 => x.Plus? && y.Middle?
    case _ => false
  }

  /** Rows whose key is one bit of wButtons. */
  ghost predicate Plain(i: nat)
  {
    i < 14 || i == 32
  }

  /** Whether the gamepad itself says that the key of a table row is down. */
  ghost predicate Pressed(g: Record, i: nat)
    requires i < |BUTTONS|
  {
    if i == 14 then g[LEFT_TRIGGER_AT] > TRIGGER_THRESHOLD
    else if i == 15 then g[RIGHT_TRIGGER_AT] > TRIGGER_THRESHOLD
    else if 16 <= i < 24 then Direction(i - 16, SideOf(Get(g, LX_AT)), SideOf(Get(g, LY_AT)))
    else if 24 <= i < 32 then Direction(i - 24, SideOf(Get(g, RX_AT)), SideOf(Get(g, RY_AT)))
    else Seen(Widen(Get(g, BUTTONS_AT)), BUTTONS[i].mask) != 0
  }

  // small facts about the zones of the button state

  lemma LeftStickPart(x: Side, y: Side)
    ensures Seen(LeftStick(x, y), LTHUMB_MASK) == LeftStick(x, y)
  {}

  lemma RightStickPart(x: Side, y: Side)
    ensures Seen(RightStick(x, y), RTHUMB_MASK) == RightStick(x, y)
  {}

  lemma WordPart(w: bv16)
    ensures Seen(Widen(w), 0xFFFF) == Widen(w)
  {}

  lemma WordGap(w: bv16)
    ensures Seen(Widen(w), 0xF00C_0800) == Seen(Widen(w), RESERVED0)
  {}

  lemma TriggersKeep(s: bv32, lt: bool, rt: bool, m: bv32)
    requires Seen(LTRIGGER, m) == 0 && Seen(RTRIGGER, m) == 0
    ensures Seen(Triggers(s, lt, rt), m) == Seen(s, m)
  {
    hide Seen, Join;
    JoinHidden(s, LTRIGGER, m);
    JoinHidden(if lt then Join(s, LTRIGGER) else s, RTRIGGER, m);
  }

  lemma SticksKeep(w: bv16, lx: Side, ly: Side, rx: Side, ry: Side, m: bv32)
    requires Seen(LTHUMB_MASK, m) == 0 && Seen(RTHUMB_MASK, m) == 0
    ensures Seen(Sticks(w, lx, ly, rx, ry), m) == Seen(Widen(w), m)
  {
    hide Seen, Join, LeftStick, RightStick, Widen;
    LeftStickPart(lx, ly);
    RightStickPart(rx, ry);
    WithinApart(LeftStick(lx, ly), LTHUMB_MASK, m);
    WithinApart(RightStick(rx, ry), RTHUMB_MASK, m);
    JoinHidden(Widen(w), LeftStick(lx, ly), m);
    JoinHidden(Join(Widen(w), LeftStick(lx, ly)), RightStick(rx, ry), m);
  }

  lemma MasksApart()
    ensures Seen(0xFFFF, LTHUMB_MASK) == 0 && Seen(0xFFFF, RTHUMB_MASK) == 0
    ensures Seen(LTHUMB_MASK, RTHUMB_MASK) == 0 && Seen(RTHUMB_MASK, LTHUMB_MASK) == 0
  {}

  lemma SticksLeft(w: bv16, lx: Side, ly: Side, rx: Side, ry: Side)
    ensures Seen(Sticks(w, lx, ly, rx, ry), LTHUMB_MASK) == LeftStick(lx, ly)
  {
    MasksApart();
    hide Seen, Join, LeftStick, RightStick, Widen;
    WordPart(w);
    WithinApart(Widen(w), 0xFFFF, LTHUMB_MASK);
    LeftStickPart(lx, ly);
    RightStickPart(rx, ry);
    WithinApart(RightStick(rx, ry), RTHUMB_MASK, LTHUMB_MASK);
    JoinShown(Widen(w), LeftStick(lx, ly), LTHUMB_MASK);
    JoinHidden(Join(Widen(w), LeftStick(lx, ly)), RightStick(rx, ry), LTHUMB_MASK);
  }

  lemma SticksRight(w: bv16, lx: Side, ly: Side, rx: Side, ry: Side)
    ensures Seen(Sticks(w, lx, ly, rx, ry), RTHUMB_MASK) == RightStick(rx, ry)
  {
    MasksApart();
    hide Seen, Join, LeftStick, RightStick, Widen;
    WordPart(w);
    WithinApart(Widen(w), 0xFFFF, RTHUMB_MASK);
    LeftStickPart(lx, ly);
    RightStickPart(rx, ry);
    WithinApart(LeftStick(lx, ly), LTHUMB_MASK, RTHUMB_MASK);
    JoinHidden(Widen(w), LeftStick(lx, ly), RTHUMB_MASK);
    JoinShown(Join(Widen(w), LeftStick(lx, ly)), RightStick(rx, ry), RTHUMB_MASK);
  }

  lemma TriggerApart()
    ensures Seen(LTHUMB_MASK, LTRIGGER) == 0 && Seen(RTHUMB_MASK, LTRIGGER) == 0 && Seen(0xFFFF, LTRIGGER) == 0
    ensures Seen(LTHUMB_MASK, RTRIGGER) == 0 && Seen(RTHUMB_MASK, RTRIGGER) == 0 && Seen(0xFFFF, RTRIGGER) == 0
    ensures Seen(LTRIGGER, RTRIGGER) == 0 && Seen(RTRIGGER, LTRIGGER) == 0
    ensures Seen(LTRIGGER, LTHUMB_MASK) == 0 && Seen(LTRIGGER, RTHUMB_MASK) == 0
    ensures Seen(RTRIGGER, LTHUMB_MASK) == 0 && Seen(RTRIGGER, RTHUMB_MASK) == 0
  {}

  lemma TriggerBits(w: bv16, lx: Side, ly: Side, rx: Side, ry: Side, lt: bool, rt: bool)
    ensures var s := Triggers(Sticks(w, lx, ly, rx, ry), lt, rt);
      && Seen(s, LTRIGGER) == (if lt then LTRIGGER else 0)
      && Seen(s, RTRIGGER) == (if rt then RTRIGGER else 0)
  {
    TriggerApart();
    SeenSelf(LTRIGGER);
    SeenSelf(RTRIGGER);
    hide Seen, Join, Sticks, Widen;
    var s := Sticks(w, lx, ly, rx, ry);
    WordPart(w);
    WithinApart(Widen(w), 0xFFFF, LTRIGGER);
    WithinApart(Widen(w), 0xFFFF, RTRIGGER);
    SticksKeep(w, lx, ly, rx, ry, LTRIGGER);
    SticksKeep(w, lx, ly, rx, ry, RTRIGGER);
    JoinShown(s, LTRIGGER, LTRIGGER);
    JoinHidden(s, LTRIGGER, RTRIGGER);
    var t := if lt then Join(s, LTRIGGER) else s;
    JoinShown(t, RTRIGGER, RTRIGGER);
    JoinHidden(t, RTRIGGER, LTRIGGER);
  }

  // ------------------------------------------------------- the rows' meaning

  /** A row for one bit of wButtons: its mask is that bit. */
  ghost predicate PlainRow(e: Entry)
  {
    && e.mask == e.bits && Single(e.mask) && Seen(e.mask, 0xF7FF) == e.mask
  }

  lemma PlainRows(i: nat)
    requires Plain(i)
    ensures |BUTTONS| == 33 && PlainRow(BUTTONS[i])
  {
    if i < 4 { assert BUTTONS[i] == PAD_KEYS[i]; }
    else if i < 8 { assert BUTTONS[i] == MENU_KEYS[i - 4]; }
    else if i < 12 { assert BUTTONS[i] == FACE_KEYS[i - 8]; }
    else if i < 14 { assert BUTTONS[i] == TRIGGER_KEYS[i - 12]; }
    else { assert BUTTONS[i] == GUIDE_KEY[0]; }
  }

  lemma PlainApart(m: bv32)
    requires Seen(m, 0xF7FF) == m
    ensures Seen(LTHUMB_MASK, m) == 0 && Seen(RTHUMB_MASK, m) == 0
    ensures Seen(LTRIGGER, m) == 0 && Seen(RTRIGGER, m) == 0
  {}

  lemma PlainSeen(g: Record, m: bv32)
    requires Seen(LTHUMB_MASK, m) == 0 && Seen(RTHUMB_MASK, m) == 0
    requires Seen(LTRIGGER, m) == 0 && Seen(RTRIGGER, m) == 0
    ensures Seen(ButtonState(g), m) == Seen(Widen(Get(g, BUTTONS_AT)), m)
  {
    hide Seen, Triggers, Sticks, Widen, SideOf, Get;
    var lx, ly := SideOf(Get(g, LX_AT)), SideOf(Get(g, LY_AT));
    var rx, ry := SideOf(Get(g, RX_AT)), SideOf(Get(g, RY_AT));
    SticksKeep(Get(g, BUTTONS_AT), lx, ly, rx, ry, m);
    TriggersKeep(Sticks(Get(g, BUTTONS_AT), lx, ly, rx, ry),
                 g[LEFT_TRIGGER_AT] > TRIGGER_THRESHOLD, g[RIGHT_TRIGGER_AT] > TRIGGER_THRESHOLD, m);
  }

  lemma PlainActive(g: Record, i: nat)
    requires Plain(i)
    ensures |BUTTONS| == 33 && (IsActive(BUTTONS[i], ButtonState(g)) <==> Pressed(g, i))
  {
    PlainRows(i);
    var e := BUTTONS[i];
    PlainApart(e.mask);
    hide Seen, Triggers, Sticks, Widen, SideOf, Get;
    var w := Get(g, BUTTONS_AT);
    SingleSeen(e.mask, Widen(w));
    PlainSeen(g, e.mask);
  }

  lemma StickSeen(g: Record)
    ensures Seen(ButtonState(g), LTHUMB_MASK) == LeftStick(SideOf(Get(g, LX_AT)), SideOf(Get(g, LY_AT)))
    ensures Seen(ButtonState(g), RTHUMB_MASK) == RightStick(SideOf(Get(g, RX_AT)), SideOf(Get(g, RY_AT)))
  {
    TriggerApart();
    hide Seen, Triggers, Sticks, Widen, SideOf, Get, LeftStick, RightStick;
    var w, lx, ly := Get(g, BUTTONS_AT), SideOf(Get(g, LX_AT)), SideOf(Get(g, LY_AT));
    var rx, ry := SideOf(Get(g, RX_AT)), SideOf(Get(g, RY_AT));
    SticksLeft(w, lx, ly, rx, ry);
    SticksRight(w, lx, ly, rx, ry);
    TriggersKeep(Sticks(w, lx, ly, rx, ry),
                 g[LEFT_TRIGGER_AT] > TRIGGER_THRESHOLD, g[RIGHT_TRIGGER_AT] > TRIGGER_THRESHOLD, LTHUMB_MASK);
    TriggersKeep(Sticks(w, lx, ly, rx, ry),
                 g[LEFT_TRIGGER_AT] > TRIGGER_THRESHOLD, g[RIGHT_TRIGGER_AT] > TRIGGER_THRESHOLD, RTHUMB_MASK);
  }

  lemma LeftDirection(k: nat, x: Side, y: Side)
    requires k < 8
    ensures LeftStick(x, y) == LEFT_STICK[k].bits <==> Direction(k, x, y)
  {}

  lemma RightDirection(k: nat, x: Side, y: Side)
    requires k < 8
    ensures RightStick(x, y) == RIGHT_STICK[k].bits <==> Direction(k, x, y)
  {}

  lemma StickRow(i: nat, x: Side, y: Side)
    requires 16 <= i < 32
    ensures |BUTTONS| == 33
    ensures i < 24 ==> (LeftStick(x, y) == BUTTONS[i].bits <==> Direction(i - 16, x, y))
    ensures i >= 24 ==> (RightStick(x, y) == BUTTONS[i].bits <==> Direction(i - 24, x, y))
  {
    if i < 24 {
      assert BUTTONS[i] == LEFT_STICK[i - 16];
      LeftDirection(i - 16, x, y);
    } else {
      assert BUTTONS[i] == RIGHT_STICK[i - 24];
      RightDirection(i - 24, x, y);
    }
  }

  lemma StickActive(g: Record, i: nat)
    requires 16 <= i < 32
    ensures |BUTTONS| == 33 && (IsActive(BUTTONS[i], ButtonState(g)) <==> Pressed(g, i))
  {
    hide Seen, ButtonState, SideOf, Get, LeftStick, RightStick, Direction;
    StickMask(i);
    StickRow(i, SideOf(Get(g, if i < 24 then LX_AT else RX_AT)), SideOf(Get(g, if i < 24 then LY_AT else RY_AT)));
    StickSeen(g);
  }

  lemma TriggerActive(g: Record, i: nat)
    requires 14 <= i < 16
    ensures |BUTTONS| == 33 && (IsActive(BUTTONS[i], ButtonState(g)) <==> Pressed(g, i))
  {
    assert BUTTONS[i] == TRIGGER_KEYS[i - 12];
    hide Seen, Triggers, Sticks, SideOf, Get;
    TriggerBits(Get(g, BUTTONS_AT), SideOf(Get(g, LX_AT)), SideOf(Get(g, LY_AT)),
                SideOf(Get(g, RX_AT)), SideOf(Get(g, RY_AT)),
                g[LEFT_TRIGGER_AT] > TRIGGER_THRESHOLD, g[RIGHT_TRIGGER_AT] > TRIGGER_THRESHOLD);
  }

  /** The active rows of the button state are exactly the keys the gamepad says are
      down, each decoded on its own from the record. */
  lemma ActiveIsPressed(g: Record, i: nat)
    requires i < |BUTTONS|
    ensures i in Active(BUTTONS, ButtonState(g)) <==> Pressed(g, i)
  {
    if Plain(i) { PlainActive(g, i); }
    else if i < 16 { TriggerActive(g, i); }
    else { StickActive(g, i); }
    hide IsActive, ButtonState, Pressed;
  }

  // ------------------------------------------------------------- completeness

  lemma GapApart()
    ensures Seen(LTHUMB_MASK, 0xF00C_0800) == 0 && Seen(RTHUMB_MASK, 0xF00C_0800) == 0
    ensures Seen(LTRIGGER, 0xF00C_0800) == 0 && Seen(RTRIGGER, 0xF00C_0800) == 0
  {}

  lemma StrayBits(g: Record)
    ensures Outside(ButtonState(g), 0x0FF3_F7FF) == Seen(Widen(Get(g, BUTTONS_AT)), RESERVED0)
  {
    GapApart();
    assert !(0x0FF3_F7FF as bv32) == 0xF00C_0800;
    hide Seen, Outside, ButtonState, Widen, Get;
    OutsideSeen(ButtonState(g), 0x0FF3_F7FF, 0xF00C_0800);
    PlainSeen(g, 0xF00C_0800);
    WordGap(Get(g, BUTTONS_AT));
  }

  lemma SomeDirection(x: Side, y: Side) returns (k: nat)
    requires !(x.Middle? && y.Middle?)
    ensures k < 8 && Direction(k, x, y)
  {
    k := if y.Plus? then (if x.Minus? then 0 else if x.Plus? then 1 else 4)
         else if y.Minus? then (if x.Plus? then 2 else if x.Minus? then 3 else 5)
         else if x.Minus? then 6 else 7;
  }

  lemma Centred()
    ensures LeftStick(Middle, Middle) == 0 && RightStick(Middle, Middle) == 0
  {}

  lemma StickSettled(g: Record, right: bool)
    ensures Settled(BUTTONS, if right then RTHUMB_MASK else LTHUMB_MASK, ButtonState(g))
  {
    StickSeen(g);
    Centred();
    hide Seen, ButtonState, SideOf, Get, LeftStick, RightStick, Direction;
    var x := SideOf(Get(g, if right then RX_AT else LX_AT));
    var y := SideOf(Get(g, if right then RY_AT else LY_AT));
    if !(x.Middle? && y.Middle?) {
      var k := SomeDirection(x, y);
      var i := if right then k + 24 else k + 16;
      StickMask(i);
      StickActive(g, i);
    }
  }

  lemma PlainSettled(g: Record, i: nat)
    requires Plain(i) || 14 <= i < 16
    ensures |BUTTONS| == 33 && Settled(BUTTONS, BUTTONS[i].mask, ButtonState(g))
  {
    if Plain(i) {
      PlainRows(i);
    } else {
      assert BUTTONS[i] == TRIGGER_KEYS[i - 12];
    }
    hide Seen, ButtonState;
    SingleSeen(BUTTONS[i].mask, ButtonState(g));
  }

  /** The table covers a button state completely, with no two opposite directions of a
      stick, exactly when the one undefined bit of wButtons is clear. */
  lemma ButtonStateWellFormedIff(g: Record)
    ensures WellFormed(BUTTONS, ButtonState(g)) <==> Seen(Widen(Get(g, BUTTONS_AT)), RESERVED0) == 0
  {
    ButtonsProper();
    StrayBits(g);
    hide Seen, ButtonState, Cover, Outside, Settled, Widen, Get, Proper;
    forall i | 0 <= i < |BUTTONS| ensures Settled(BUTTONS, BUTTONS[i].mask, ButtonState(g)) {
      if Plain(i) || 14 <= i < 16 { PlainSettled(g, i); }
      else {
        StickMask(i);
        StickSettled(g, i >= 24);
      }
    }
  }
}
