/** Event streams through a pair of tables: what the gamepad holds after any stream. */
module DeviceRun {
  import opened Unions
  import opened Gamepad
  import opened Translator

  datatype Tables = Tables(buttons: seq<bv16>, items: seq<Item>)

  ghost predicate Sized(t: Tables)
  {
    |t.buttons| == KEY_CNT && |t.items| == ABS_CNT
  }

  /** The event is one the tables can interpret: an axis code that is mapped. */
  ghost predicate Fits(t: Tables, e: Event)
    requires Sized(t)
  {
    e.Abs? ==> e.code < ABS_CNT && Usable(t.items[e.code])
  }

  ghost predicate AllFit(t: Tables, es: seq<Event>)
    requires Sized(t)
  {
    forall i :: 0 <= i < |es| ==> Fits(t, es[i])
  }

  function Step(t: Tables, e: Event, g: Record): Record
    requires Sized(t) && Fits(t, e)
  {
    match e
    case Key(code, value) => KeyStep(0, t.buttons, code, value, g)
    case Abs(code, value) => ItemStep(t.items[code], value, g)
    case Other => g
  }

  ghost function Run(t: Tables, es: seq<Event>): Record
    requires Sized(t) && AllFit(t, es)
  {
    if es == [] then ZEROED else Step(t, es[|es| - 1], Run(t, es[..|es| - 1]))
  }

  // ------------------------------------------------------------ last values

  /** The last value of a key, zero before the first. */
  ghost function LastKey(es: seq<Event>, code: nat): bv32
  {
    if es == [] then 0
    else
      var e := es[|es| - 1];
      if e.Key? && e.code == code then e.value else LastKey(es[..|es| - 1], code)
  }

  /** The last truncated value of an axis, zero before the first. */
  ghost function LastAbs(es: seq<Event>, code: nat): bv16
  {
    if es == [] then 0
    else
      var e := es[|es| - 1];
      if e.Abs? && e.code == code then Truncate(e.value) else LastAbs(es[..|es| - 1], code)
  }

  // --------------------------------------------------- who owns which bits

  function Positive(item: Item): bv16
  {
    if item.Hat? then item.positive else 0
  }

  function Negative(item: Item): bv16
  {
    if item.Hat? then item.negative else 0
  }

  const OWNERS: nat := KEY_CNT + ABS_CNT + ABS_CNT

  /** All masks of the tables: one per key, then one per positive and one per negative
      direction of an axis. */
  ghost function Mask(t: Tables, j: nat): bv16
    requires Sized(t) && j < OWNERS
  {
    if j < KEY_CNT then t.buttons[j]
    else if j < KEY_CNT + ABS_CNT then Positive(t.items[j - KEY_CNT])
    else Negative(t.items[j - KEY_CNT - ABS_CNT])
  }

  ghost function Masks(t: Tables): (m: seq<bv16>)
    requires Sized(t)
    ensures |m| == OWNERS && forall j :: 0 <= j < OWNERS ==> m[j] == Mask(t, j)
  {
    MasksUpTo(t, OWNERS)
  }

  ghost function MasksUpTo(t: Tables, n: nat): (m: seq<bv16>)
    requires Sized(t) && n <= OWNERS
    ensures |m| == n && forall j :: 0 <= j < n ==> m[j] == Mask(t, j)
  {
    if n == 0 then [] else MasksUpTo(t, n - 1) + [Mask(t, n - 1)]
  }

  /** Whether the last event of an owner switches it on. */
  ghost predicate On(es: seq<Event>, j: nat)
    requires j < OWNERS
  {
    if j < KEY_CNT then LastKey(es, j) != 0
    else if j < KEY_CNT + ABS_CNT then SignOf(LastAbs(es, j - KEY_CNT)) == Sign.Positive
    else SignOf(LastAbs(es, j - KEY_CNT - ABS_CNT)) == Sign.Negative
  }

  ghost function AllOn(es: seq<Event>): (on: seq<bool>)
    ensures |on| == OWNERS && forall j :: 0 <= j < OWNERS ==> on[j] == On(es, j)
  {
    OnUpTo(es, OWNERS)
  }

  ghost function OnUpTo(es: seq<Event>, n: nat): (on: seq<bool>)
    requires n <= OWNERS
    ensures |on| == n && forall j :: 0 <= j < n ==> on[j] == On(es, j)
  {
    if n == 0 then [] else OnUpTo(es, n - 1) + [On(es, n - 1)]
  }

  /** No bit has two owners, and no axis store reaches the button word. */
  ghost predicate Owned(t: Tables)
    requires Sized(t)
  {
    && Disjoint(Masks(t))
    && (forall c :: 0 <= c < ABS_CNT && t.items[c].Axis? ==> LEFT_TRIGGER_AT <= t.items[c].to)
    && (forall c :: 0 <= c < ABS_CNT && t.items[c].AxisReverse? ==> LEFT_TRIGGER_AT <= t.items[c].to)
  }

  // -------------------------------------------------------- the fold theorem

  lemma ZeroWord()
    ensures Get(ZEROED, BUTTONS_AT) == 0
  {}

  lemma KeyOn(es: seq<Event>, code: nat, value: bv32)
    ensures AllOn(es + [Key(code, value)])
      == if code < KEY_CNT then AllOn(es)[code := value != 0] else AllOn(es)
  {
    assert (es + [Key(code, value)])[..|es|] == es;
  }

  lemma AbsOn(es: seq<Event>, code: nat, value: bv32)
    requires code < ABS_CNT
    ensures var s := SignOf(Truncate(value));
      AllOn(es + [Abs(code, value)])
      == AllOn(es)[KEY_CNT + code := s == Sign.Positive][KEY_CNT + ABS_CNT + code := s == Sign.Negative]
  {
    hide SignOf, Truncate;
    assert (es + [Abs(code, value)])[..|es|] == es;
  }

  lemma OtherOn(es: seq<Event>)
    ensures AllOn(es + [Other]) == AllOn(es)
  {
    assert (es + [Other])[..|es|] == es;
  }

  lemma KeyUnion(t: Tables, on: seq<bool>, code: nat, value: bv32)
    requires Sized(t) && Disjoint(Masks(t)) && |on| == OWNERS && code < KEY_CNT
    ensures KeyWord(Union(Masks(t), on), t.buttons[code], value) == Union(Masks(t), on[code := value != 0])
  {
    hide Union, With, Without, Both;
    if value != 0 {
      UnionSet(Masks(t), on, code);
    } else {
      UnionClear(Masks(t), on, code);
    }
  }

  lemma HatUnion(t: Tables, on: seq<bool>, code: nat, s: Sign)
    requires Sized(t) && Disjoint(Masks(t)) && |on| == OWNERS && code < ABS_CNT
    ensures HatWord(Union(Masks(t), on), Positive(t.items[code]), Negative(t.items[code]), s)
      == Union(Masks(t), on[KEY_CNT + code := s == Sign.Positive][KEY_CNT + ABS_CNT + code := s == Sign.Negative])
  {
    hide Union, With, Without, Both;
    var m, p, n := Masks(t), KEY_CNT + code, KEY_CNT + ABS_CNT + code;
    match s
    case Positive =>
      UnionSet(m, on, p);
      UnionClear(m, on[p := true], n);
    case Negative =>
      UnionSet(m, on, n);
      UnionClear(m, on[n := true], p);
      assert on[n := true][p := false] == on[p := false][n := true];
    case None =>
      WithoutTwo(Union(m, on), m[p], m[n]);
      UnionClear(m, on, p);
      UnionClear(m, on[p := false], n);
  }

  lemma UnionIrrelevant(masks: seq<bv16>, on: seq<bool>, j: nat, v: bool)
    requires |masks| == |on| && j < |masks| && masks[j] == 0
    ensures Union(masks, on[j := v]) == Union(masks, on)
  {
    hide With;
    var n := |masks| - 1;
    if j == n {
      assert on[j := v][..n] == on[..n];
    } else {
      UnionIrrelevant(masks[..n], on[..n], j, v);
      assert on[j := v][..n] == on[..n][j := v];
    }
  }

  lemma AbsStepUnion(t: Tables, es: seq<Event>, code: nat, value: bv32, g: Record)
    requires Sized(t) && Owned(t) && code < ABS_CNT && Usable(t.items[code])
    requires Get(g, BUTTONS_AT) == Union(Masks(t), AllOn(es))
    ensures Get(ItemStep(t.items[code], value, g), BUTTONS_AT) == Union(Masks(t), AllOn(es + [Abs(code, value)]))
  {
    var item, v, on, m := t.items[code], Truncate(value), AllOn(es), Masks(t);
    AbsOn(es, code, value);
    hide Union, Get, Put, HatWord, AllOn, Masks, Disjoint;
    var p, n := KEY_CNT + code, KEY_CNT + ABS_CNT + code;
    if item.Hat? {
      HatUnion(t, on, code, SignOf(v));
      GetPut(g, BUTTONS_AT, HatWord(Get(g, BUTTONS_AT), item.positive, item.negative, SignOf(v)), BUTTONS_AT);
    } else {
      assert m[p] == 0 && m[n] == 0;
      UnionIrrelevant(m, on, p, SignOf(v) == Sign.Positive);
      UnionIrrelevant(m, on[p := SignOf(v) == Sign.Positive], n, SignOf(v) == Sign.Negative);
      match item
      case Axis(to) => GetPut(g, to, v, BUTTONS_AT);
      case AxisReverse(to) => GetPut(g, to, Complement(v), BUTTONS_AT);
      case _ =>
    }
  }

  lemma KeyStepUnion(t: Tables, es: seq<Event>, code: nat, value: bv32, g: Record)
    requires Sized(t) && Owned(t)
    requires Get(g, BUTTONS_AT) == Union(Masks(t), AllOn(es))
    ensures Get(KeyStep(0, t.buttons, code, value, g), BUTTONS_AT) == Union(Masks(t), AllOn(es + [Key(code, value)]))
  {
    KeyOn(es, code, value);
    hide Union, Get, Put, KeyWord, AllOn, Masks, Disjoint;
    if code < KEY_CNT {
      KeyUnion(t, AllOn(es), code, value);
      GetPut(g, BUTTONS_AT, KeyWord(Get(g, BUTTONS_AT), t.buttons[code], value), BUTTONS_AT);
    }
  }

  /** After any stream of events the button word is exactly the union of the masks whose
      owner is on: every key whose last value was not zero, and every axis direction
      that has the sign of the axis' last value. */
  lemma {:induction false} ButtonsAreUnion(t: Tables, es: seq<Event>)
    requires Sized(t) && Owned(t) && AllFit(t, es)
    ensures Get(Run(t, es), BUTTONS_AT) == Union(Masks(t), AllOn(es))
  {
    hide Union, Get, KeyStep, ItemStep, Masks, Owned;
    if es == [] {
      ZeroWord();
      UnionOff(Masks(t), AllOn([]));
    } else {
      var rest, e := es[..|es| - 1], es[|es| - 1];
      assert Fits(t, e) && es == rest + [e];
      ButtonsAreUnion(t, rest);
      hide AllOn;
      match e
      case Key(code, value) => KeyStepUnion(t, rest, code, value, Run(t, rest));
      case Abs(code, value) => AbsStepUnion(t, rest, code, value, Run(t, rest));
      case Other => OtherOn(rest);
    }
  }

  /** Each owner reads back on its own: its bits are set iff its last event says so. */
  lemma OwnerReads(t: Tables, es: seq<Event>, j: nat)
    requires Sized(t) && Owned(t) && AllFit(t, es) && j < OWNERS
    ensures Both(Get(Run(t, es), BUTTONS_AT), Mask(t, j)) == if On(es, j) then Mask(t, j) else 0
  {
    hide Union, Get, Both, On, Mask, Run;
    ButtonsAreUnion(t, es);
    UnionRead(Masks(t), AllOn(es), j);
  }

  /** The two directions of a hat axis are never set together. */
  lemma HatDirectionsExclude(t: Tables, es: seq<Event>, c: nat)
    requires Sized(t) && Owned(t) && AllFit(t, es) && c < ABS_CNT && t.items[c].Hat?
    ensures var w := Get(Run(t, es), BUTTONS_AT);
      Both(w, t.items[c].positive) == 0 || Both(w, t.items[c].negative) == 0
  {
    hide Get, Both, Run, Owned;
    OwnerReads(t, es, KEY_CNT + c);
    OwnerReads(t, es, KEY_CNT + ABS_CNT + c);
  }
}
