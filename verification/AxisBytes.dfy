/** The bytes of the axis fields after any event stream, on a device with all six named
    axes.  Every store is two bytes wide, so a trigger's store also overwrites the byte
    that follows it. */
module AxisBytes {
  import opened Gamepad
  import opened Translator
  import opened DeviceRun
  import opened Allocation

  /** The last event of the two axes is one of axis `a`. */
  ghost predicate Later(es: seq<Event>, a: nat, b: nat)
  {
    es != [] &&
    var e := es[|es| - 1];
    if e.Abs? && e.code == a then true
    else if e.Abs? && e.code == b then false
    else Later(es[..|es| - 1], a, b)
  }

  ghost predicate Touched(es: seq<Event>, code: nat)
  {
    exists i :: 0 <= i < |es| && es[i].Abs? && es[i].code == code
  }

  ghost function Reversed(es: seq<Event>, code: nat): bv16
  {
    if Touched(es, code) then Complement(LastAbs(es, code)) else 0
  }

  /** The left stick's horizontal axis: the low byte is whichever of its own and the
      right trigger's store came last. */
  ghost function LeftX(es: seq<Event>): bv16
  {
    Word(if Later(es, ABS_RZ, ABS_X) then Hi(LastAbs(es, ABS_RZ)) else Lo(LastAbs(es, ABS_X)), Hi(LastAbs(es, ABS_X)))
  }

  /** The right trigger: its own low byte, or the high byte of a later left trigger event. */
  ghost function RightTrigger(es: seq<Event>): bv8
  {
    if Later(es, ABS_Z, ABS_RZ) then Hi(LastAbs(es, ABS_Z)) else Lo(LastAbs(es, ABS_RZ))
  }

  ghost predicate AxesHold(g: Record, es: seq<Event>)
  {
    && g[2] == Lo(LastAbs(es, ABS_Z))
    && g[3] == RightTrigger(es)
    && g[4] == (if Later(es, ABS_RZ, ABS_X) then Hi(LastAbs(es, ABS_RZ)) else Lo(LastAbs(es, ABS_X)))
    && g[5] == Hi(LastAbs(es, ABS_X))
    && g[6] == Lo(Reversed(es, ABS_Y)) && g[7] == Hi(Reversed(es, ABS_Y))
    && g[8] == Lo(LastAbs(es, ABS_RX)) && g[9] == Hi(LastAbs(es, ABS_RX))
    && g[10] == Lo(Reversed(es, ABS_RY)) && g[11] == Hi(Reversed(es, ABS_RY))
    && (forall b :: 12 <= b < SIZE ==> g[b] == 0)
  }

  ghost predicate SixMapped(t: Tables)
    requires Sized(t)
  {
    && t.items[ABS_X] == Axis(LX_AT) && t.items[ABS_Y] == AxisReverse(LY_AT)
    && t.items[ABS_RX] == Axis(RX_AT) && t.items[ABS_RY] == AxisReverse(RY_AT)
    && t.items[ABS_Z] == Axis(LEFT_TRIGGER_AT) && t.items[ABS_RZ] == Axis(RIGHT_TRIGGER_AT)
    && forall c :: 6 <= c < ABS_CNT ==> t.items[c].Hat? || t.items[c].Unmapped? || t.items[c].Nothing?
  }

  /** The tables of a device with all six axes named map each to its own field. */
  lemma SixAxesMapped(keys: seq<bool>, axes: seq<bool>)
    requires Capable(keys, axes) && SixAxes(axes)
    ensures SixMapped(TablesOf(keys, axes))
  {
    hide HatOf;
    var t := TablesOf(keys, axes);
    forall c | 0 <= c < ABS_CNT
      ensures t.items[c] == HatItem(HatOf(keys, axes), c, NamedItem(axes, c))
    {
      NoneMissing(keys, axes, c, 6);
    }
  }

  lemma LastStep(es: seq<Event>, e: Event, code: nat)
    ensures LastAbs(es + [e], code) == if e.Abs? && e.code == code then Truncate(e.value) else LastAbs(es, code)
  {
    assert (es + [e])[..|es|] == es;
  }

  lemma ReversedStep(es: seq<Event>, e: Event, code: nat)
    ensures Reversed(es + [e], code)
      == if e.Abs? && e.code == code then Complement(Truncate(e.value)) else Reversed(es, code)
  {
    hide Complement, Truncate;
    LastStep(es, e, code);
    var all := es + [e];
    if e.Abs? && e.code == code {
      assert all[|es|] == e;
    }
    if Touched(es, code) {
      var i :| 0 <= i < |es| && es[i].Abs? && es[i].code == code;
      assert all[i] == es[i];
    }
  }

  lemma LaterStep(es: seq<Event>, e: Event, a: nat, b: nat)
    requires a != b
    ensures Later(es + [e], a, b) == if e.Abs? && (e.code == a || e.code == b) then e.code == a else Later(es, a, b)
  {
    assert (es + [e])[..|es|] == es;
  }

  lemma OtherKeeps(g: Record, h: Record, es: seq<Event>, e: Event)
    requires AxesHold(g, es) && (e.Abs? ==> e.code >= 6) && g[2..] == h[2..]
    ensures AxesHold(h, es + [e])
  {
    hide Lo, Hi, Reversed, Later, LastAbs;
    LastStep(es, e, ABS_X); ReversedStep(es, e, ABS_Y);
    LastStep(es, e, ABS_RX); ReversedStep(es, e, ABS_RY);
    LastStep(es, e, ABS_Z); LastStep(es, e, ABS_RZ);
    LaterStep(es, e, ABS_Z, ABS_RZ); LaterStep(es, e, ABS_RZ, ABS_X);
    assert forall b :: 2 <= b < SIZE ==> h[b] == h[2..][b - 2] == g[2..][b - 2] == g[b];
  }

  lemma StoredAt(g: Record, h: Record, at: nat, v: bv16)
    requires at + 1 < SIZE && h == Put(g, at, v)
    ensures h[at] == Lo(v) && h[at + 1] == Hi(v)
    ensures forall b :: 0 <= b < SIZE && b != at && b != at + 1 ==> h[b] == g[b]
  {
    hide Lo, Hi;
  }

  lemma AxisKeeps(t: Tables, g: Record, es: seq<Event>, e: Event)
    requires Sized(t) && SixMapped(t) && AxesHold(g, es) && e.Abs? && e.code < 6
    ensures AxesHold(ItemStep(t.items[e.code], e.value, g), es + [e])
  {
    hide Lo, Hi, Reversed, Later, LastAbs, Truncate, Complement;
    LastStep(es, e, ABS_X); ReversedStep(es, e, ABS_Y);
    LastStep(es, e, ABS_RX); ReversedStep(es, e, ABS_RY);
    LastStep(es, e, ABS_Z); LastStep(es, e, ABS_RZ);
    LaterStep(es, e, ABS_Z, ABS_RZ); LaterStep(es, e, ABS_RZ, ABS_X);
    var h := ItemStep(t.items[e.code], e.value, g);
    match e.code {
      case 0 => StoredAt(g, h, LX_AT, Truncate(e.value));
      case 1 => StoredAt(g, h, LY_AT, Complement(Truncate(e.value)));
      case 2 => StoredAt(g, h, LEFT_TRIGGER_AT, Truncate(e.value));
      case 3 => StoredAt(g, h, RX_AT, Truncate(e.value));
      case 4 => StoredAt(g, h, RY_AT, Complement(Truncate(e.value)));
      case 5 => StoredAt(g, h, RIGHT_TRIGGER_AT, Truncate(e.value));
    }
    hide Put, ItemStep;
  }

  lemma PutButtons(g: Record, w: bv16)
    ensures Put(g, BUTTONS_AT, w)[2..] == g[2..]
  {
    hide Lo, Hi;
  }

  lemma BytesOfZero()
    ensures Lo(0) == 0 && Hi(0) == 0
  {}

  lemma KeepsAxes(t: Tables, g: Record, e: Event)
    requires Sized(t) && SixMapped(t) && Fits(t, e) && (e.Abs? ==> e.code >= 6)
    ensures Step(t, e, g)[2..] == g[2..]
  {
    hide Lo, Hi, Truncate, Put, Get, KeyWord, HatWord, SignOf;
    match e
    case Key(code, value) =>
      if code < KEY_CNT { PutButtons(g, KeyWord(Get(g, BUTTONS_AT), t.buttons[code], value)); }
    case Abs(code, value) =>
      if t.items[code].Hat? {
        PutButtons(g, HatWord(Get(g, BUTTONS_AT), t.items[code].positive, t.items[code].negative, SignOf(Truncate(value))));
      }
    case Other =>
  }

  lemma NothingHeld()
    ensures AxesHold(ZEROED, [])
  {
    BytesOfZero();
    hide Lo, Hi;
  }

  lemma {:induction false} AxesAfter(t: Tables, es: seq<Event>)
    requires Sized(t) && SixMapped(t) && AllFit(t, es)
    ensures AxesHold(Run(t, es), es)
  {
    hide Lo, Hi, Truncate, AxesHold, Put, Get, KeyWord, HatWord;
    if es == [] {
      NothingHeld();
    } else {
      var rest, e := es[..|es| - 1], es[|es| - 1];
      assert Fits(t, e) && es == rest + [e];
      AxesAfter(t, rest);
      var g := Run(t, rest);
      if e.Abs? && e.code < 6 {
        AxisKeeps(t, g, rest, e);
      } else {
        assert Run(t, es)[2..] == g[2..] by { KeepsAxes(t, g, e); }
        OtherKeeps(g, Run(t, es), rest, e);
      }
    }
  }

  /** After any stream on a device with all six named axes: the left stick's vertical and
      both axes of the right stick hold the last value (complemented where vertical), the
      left trigger holds the low byte of its last value, and the bytes behind each trigger
      hold whichever store came last. */
  lemma SixAxesHold(keys: seq<bool>, axes: seq<bool>, es: seq<Event>)
    requires Capable(keys, axes) && SixAxes(axes) && AllFit(TablesOf(keys, axes), es)
    ensures var g := Run(TablesOf(keys, axes), es);
      && AxesHold(g, es)
      && Get(g, LX_AT) == LeftX(es)
      && Get(g, LY_AT) == Reversed(es, ABS_Y) && Get(g, RX_AT) == LastAbs(es, ABS_RX)
      && Get(g, RY_AT) == Reversed(es, ABS_RY)
  {
    hide Lo, Hi, Word, Run, Reversed, LastAbs, Later;
    SixAxesMapped(keys, axes);
    AxesAfter(TablesOf(keys, axes), es);
    WordOfBytes(Reversed(es, ABS_Y));
    WordOfBytes(Reversed(es, ABS_RY));
    WordOfBytes(LastAbs(es, ABS_RX));
  }

  lemma LowerBounds(v: bv16)
    ensures v as int >= 0x4000 <==> v >= 0x4000
    ensures v as int >= 0x4001 <==> v >= 0x4001
  {}

  lemma UpperBounds(v: bv16)
    ensures v as int >= 0xBFFF <==> v >= 0xBFFF
    ensures v as int >= 0xC000 <==> v >= 0xC000
  {}

  lemma ComplementBounds(v: bv16)
    ensures 0x8000 <= Complement(v) < 0xC000 <==> 0x4000 <= v < 0x8000
    ensures 0x4001 <= Complement(v) < 0x8000 <==> 0x8000 <= v < 0xBFFF
  {}

  /** The sides of a word as ranges of its bit pattern. */
  lemma SideRanges(v: bv16)
    ensures SideOf(v) == Plus <==> 0x4001 <= v < 0x8000
    ensures SideOf(v) == Minus <==> 0x8000 <= v < 0xC000
  {
    LowerBounds(v);
    UpperBounds(v);
  }

  /** A complemented axis does not mirror the thresholds of a plain one: it counts as down
      from 16384 on, one step earlier than a plain axis counts as positive, and as up only
      below -16385, one step later than a plain axis counts as negative. */
  lemma ReversedThresholds(v: bv16)
    ensures SideOf(Complement(v)) == Minus <==> Short(v) >= 16384
    ensures SideOf(Complement(v)) == Plus <==> Short(v) <= -16386
    ensures SideOf(v) == Plus ==> SideOf(Complement(v)) == Minus
    ensures SideOf(v) == Minus && SideOf(Complement(v)) != Plus <==> Short(v) == -16385
    ensures SideOf(Complement(v)) == Minus && SideOf(v) != Plus <==> Short(v) == 16384
  {
    LowerBounds(v);
    UpperBounds(v);
    SideRanges(v);
    SideRanges(Complement(v));
    ComplementBounds(v);
    hide Complement, SideOf;
  }

  /** The right trigger reads back its last value exactly when no left trigger event
      followed, or one whose high byte happens to agree. */
  lemma RightTriggerIff(keys: seq<bool>, axes: seq<bool>, es: seq<Event>)
    requires Capable(keys, axes) && SixAxes(axes) && AllFit(TablesOf(keys, axes), es)
    ensures Run(TablesOf(keys, axes), es)[RIGHT_TRIGGER_AT] == Lo(LastAbs(es, ABS_RZ)) <==>
      !Later(es, ABS_Z, ABS_RZ) || Hi(LastAbs(es, ABS_Z)) == Lo(LastAbs(es, ABS_RZ))
  {
    hide Lo, Hi, Run, LastAbs, Later, Reversed;
    SixAxesHold(keys, axes, es);
  }

  lemma WordIff(lo: bv8, hi: bv8, v: bv16)
    requires hi == Hi(v)
    ensures Word(lo, hi) == v <==> lo == Lo(v)
  {
    hide Lo, Hi, Word;
    WordOfBytes(v);
    BytesOfWord(lo, hi);
  }

  /** The left stick's horizontal axis reads back its last value exactly when no right
      trigger event followed, or one whose high byte happens to agree. */
  lemma LeftStickIff(keys: seq<bool>, axes: seq<bool>, es: seq<Event>)
    requires Capable(keys, axes) && SixAxes(axes) && AllFit(TablesOf(keys, axes), es)
    ensures Get(Run(TablesOf(keys, axes), es), LX_AT) == LastAbs(es, ABS_X) <==>
      !Later(es, ABS_RZ, ABS_X) || Hi(LastAbs(es, ABS_RZ)) == Lo(LastAbs(es, ABS_X))
  {
    hide Lo, Hi, Word, Run, LastAbs, Later, Reversed;
    SixAxesHold(keys, axes, es);
    var g := Run(TablesOf(keys, axes), es);
    WordIff(g[4], g[5], LastAbs(es, ABS_X));
  }

  lemma SpillValues()
    ensures Truncate(0xFF) == 0x00FF && Truncate(0x10) == 0x0010 && Truncate(0x1234) == 0x1234
    ensures Lo(0x00FF) == 0xFF && Hi(0x0010) == 0 && Hi(0x00FF) == 0 && Lo(0x1234) == 0x34
  {}

  /** A light pull of the left trigger releases a fully pulled right one, and a pull of
      the right trigger moves the left stick. */
  lemma TriggersSpill(keys: seq<bool>, axes: seq<bool>)
    requires Capable(keys, axes) && SixAxes(axes)
    ensures var t := TablesOf(keys, axes);
      var pulls, moved := [Abs(ABS_RZ, 0xFF), Abs(ABS_Z, 0x10)], [Abs(ABS_X, 0x1234), Abs(ABS_RZ, 0xFF)];
      && AllFit(t, pulls) && Run(t, pulls)[RIGHT_TRIGGER_AT] != Lo(LastAbs(pulls, ABS_RZ))
      && AllFit(t, moved) && Get(Run(t, moved), LX_AT) != LastAbs(moved, ABS_X)
  {
    SixAxesMapped(keys, axes);
    SpillValues();
    hide Lo, Hi, Word, Truncate, Run;
    var pulls, moved := [Abs(ABS_RZ, 0xFF), Abs(ABS_Z, 0x10)], [Abs(ABS_X, 0x1234), Abs(ABS_RZ, 0xFF)];
    assert pulls[..1] == [Abs(ABS_RZ, 0xFF)] && moved[..1] == [Abs(ABS_X, 0x1234)];
    RightTriggerIff(keys, axes, pulls);
    LeftStickIff(keys, axes, moved);
  }
}
