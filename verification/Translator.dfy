/** The table interpreters of src/linux_evdev/xinput_linux_evdev_translator.c: key and
    axis events rewrite the gamepad record through tables. */
module Translator {
  import opened Unions
  import opened Gamepad

  // table sizes of linux/input.h
  const KEY_CNT: nat := 0x300
  const ABS_CNT: nat := 0x40

  /** What an axis event does; the constructor stands for the stored callback. */
  datatype Item =
    | Unmapped
    | Nothing
    | Axis(to: nat)
    | AxisReverse(to: nat)
    | Hat(positive: bv16, negative: bv16)

  datatype Event =
    | Key(code: nat, value: bv32)
    | Abs(code: nat, value: bv32)
    | Other

  /** The int16_t parameter of an axis callback: the low half of the event value. */
  function Truncate(value: bv32): bv16
  {
    (value & 0xFFFF) as bv16
  }

  datatype Sign = Negative | None | Positive

  function SignOf(v: bv16): Sign
  {
    if v == 0 then None else if v < 0x8000 then Positive else Negative
  }

  function Complement(v: bv16): bv16
  {
    !v
  }

  // --------------------------------------------------- one event, as a value

  function HatWord(w: bv16, positive: bv16, negative: bv16, sign: Sign): bv16
  {
    match sign
    case Positive => Without(With(w, positive), negative)
    case Negative => Without(With(w, negative), positive)
    case None => Without(w, With(positive, negative))
  }

  predicate Usable(item: Item)
  {
    match item
    case Unmapped => false
    case Axis(to) => to + 1 < SIZE
    case AxisReverse(to) => to + 1 < SIZE
    case _ => true
  }

  function ItemStep(item: Item, value: bv32, g: Record): Record
    requires Usable(item)
  {
    var v := Truncate(value);
    match item
    case Nothing => g
    case Axis(to) => Put(g, to, v)
    case AxisReverse(to) => Put(g, to, Complement(v))
    case Hat(p, n) => Put(g, BUTTONS_AT, HatWord(Get(g, BUTTONS_AT), p, n, SignOf(v)))
  }

  function KeyWord(w: bv16, bit: bv16, value: bv32): bv16
  {
    if value != 0 then With(w, bit) else Without(w, bit)
  }

  /** `first` is the code of the first entry of `buttons`. */
  function KeyStep(first: nat, buttons: seq<bv16>, code: nat, value: bv32, g: Record): Record
  {
    if first <= code < first + |buttons|
    then Put(g, BUTTONS_AT, KeyWord(Get(g, BUTTONS_AT), buttons[code - first], value))
    else g
  }

  // ------------------------------------------------- one event, in place

  method TranslateToButtons(positive: bv16, negative: bv16, value: bv16, gamepad: array<bv8>)
    requires gamepad.Length == SIZE
    modifies gamepad
    ensures gamepad[..] == Put(old(gamepad[..]), BUTTONS_AT,
      HatWord(Get(old(gamepad[..]), BUTTONS_AT), positive, negative, SignOf(value)))
  {
    hide Word, With, Without, Lo, Hi;
    var w := Word(gamepad[0], gamepad[1]);
    if SignOf(value) == Positive {
      Store(gamepad, BUTTONS_AT, Without(With(w, positive), negative));
    } else if SignOf(value) == Negative {
      Store(gamepad, BUTTONS_AT, Without(With(w, negative), positive));
    } else {
      Store(gamepad, BUTTONS_AT, Without(w, With(positive, negative)));
    }
  }

  method AbsEvent(items: array<Item>, code: nat, value: bv32, gamepad: array<bv8>)
    requires items.Length == ABS_CNT && code < ABS_CNT && Usable(items[code])
    requires gamepad.Length == SIZE
    modifies gamepad
    ensures gamepad[..] == ItemStep(items[code], value, old(gamepad[..]))
  {
    hide Truncate, Put, HatWord;
    var v := Truncate(value);
    match items[code]
    case Nothing =>
    case Axis(to) => Store(gamepad, to, v);
    case AxisReverse(to) => Store(gamepad, to, Complement(v));
    case Hat(p, n) => TranslateToButtons(p, n, v, gamepad);
  }

  method KeyEvent(first: nat, buttons: array<bv16>, code: nat, value: bv32, gamepad: array<bv8>)
    requires gamepad.Length == SIZE
    modifies gamepad
    ensures gamepad[..] == KeyStep(first, old(buttons[..]), code, value, old(gamepad[..]))
  {
    hide Word, With, Without, Put;
    if first <= code < first + buttons.Length {
      var bit := buttons[code - first];
      var w := Word(gamepad[0], gamepad[1]);
      if value != 0 {
        Store(gamepad, BUTTONS_AT, With(w, bit));
      } else {
        Store(gamepad, BUTTONS_AT, Without(w, bit));
      }
    }
  }

  // -------------------------------------------------------------- table setters

  method SetAxis(items: array<Item>, bit: nat, offset: nat)
    requires bit < items.Length
    modifies items
    ensures items[..] == old(items[..])[bit := Axis(offset)]
  {
    items[bit] := Axis(offset);
  }

  method SetSixa(items: array<Item>, bit: nat, offset: nat)
    requires bit < items.Length
    modifies items
    ensures items[..] == old(items[..])[bit := AxisReverse(offset)]
  {
    items[bit] := AxisReverse(offset);
  }

  method SetBttn(items: array<Item>, bit: nat, positive: bv16, negative: bv16)
    requires bit < items.Length
    modifies items
    ensures items[..] == old(items[..])[bit := Hat(positive, negative)]
  {
    items[bit] := Hat(positive, negative);
  }
}
