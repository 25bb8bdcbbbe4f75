/** The button table of src/dll.c and its keystroke calls for one user index. */
module KeystrokeApi {
  import opened Bits
  import opened Wrappers
  import opened XInput
  import opened Keystroke

  function Key(bit: bv32, vk: nat): Entry
  {
    Entry(bit, bit, VK_PAD + vk)
  }

  function Stick(bits: bv32, mask: bv32, vk: nat): Entry
  {
    Entry(bits, mask, VK_PAD + vk)
  }

  const PAD_KEYS: seq<Entry> := [
    Key(DPAD_UP, 16), Key(DPAD_DOWN, 17), Key(DPAD_LEFT, 18), Key(DPAD_RIGHT, 19)]
  const MENU_KEYS: seq<Entry> := [
    Key(START, 20), Key(BACK, 21), Key(LEFT_THUMB, 22), Key(RIGHT_THUMB, 23)]
  const FACE_KEYS: seq<Entry> := [
    Key(LEFT_SHOULDER, 5), Key(RIGHT_SHOULDER, 4), Key(PAD_A, 0), Key(PAD_B, 1)]
  const TRIGGER_KEYS: seq<Entry> := [
    Key(PAD_X, 2), Key(PAD_Y, 3), Key(LTRIGGER, 6), Key(RTRIGGER, 7)]
  const LEFT_STICK: seq<Entry> := [
    Stick(LTHUMB_UP | LTHUMB_LEFT, LTHUMB_MASK, 36), Stick(LTHUMB_UP | LTHUMB_RIGHT, LTHUMB_MASK, 37),
    Stick(LTHUMB_DOWN | LTHUMB_RIGHT, LTHUMB_MASK, 38), Stick(LTHUMB_DOWN | LTHUMB_LEFT, LTHUMB_MASK, 39),
    Stick(LTHUMB_UP, LTHUMB_MASK, 32), Stick(LTHUMB_DOWN, LTHUMB_MASK, 33),
    Stick(LTHUMB_LEFT, LTHUMB_MASK, 35), Stick(LTHUMB_RIGHT, LTHUMB_MASK, 34)]
  const RIGHT_STICK: seq<Entry> := [
    Stick(RTHUMB_UP | RTHUMB_LEFT, RTHUMB_MASK, 52), Stick(RTHUMB_UP | RTHUMB_RIGHT, RTHUMB_MASK, 53),
    Stick(RTHUMB_DOWN | RTHUMB_RIGHT, RTHUMB_MASK, 54), Stick(RTHUMB_DOWN | RTHUMB_LEFT, RTHUMB_MASK, 55),
    Stick(RTHUMB_UP, RTHUMB_MASK, 48), Stick(RTHUMB_DOWN, RTHUMB_MASK, 49),
    Stick(RTHUMB_LEFT, RTHUMB_MASK, 51), Stick(RTHUMB_RIGHT, RTHUMB_MASK, 50)]
  const GUIDE_KEY: seq<Entry> := [Key(GUIDE, 8)]

  /** The 33 rows of the table, in its order. */
  const BUTTONS: seq<Entry> :=
    PAD_KEYS + MENU_KEYS + FACE_KEYS + TRIGGER_KEYS + LEFT_STICK + RIGHT_STICK + GUIDE_KEY

  lemma CoverConcat(a: seq<Entry>, b: seq<Entry>)
    ensures Cover(a + b) == Join(Cover(a), Cover(b))
  {
    hide Join;
    if b == [] {
      assert a + b == a;
      JoinNone(Cover(a));
    } else {
      var last := |b| - 1;
      CoverConcat(a, b[..last]);
      assert (a + b)[..|a + b| - 1] == a + b[..last];
      JoinAssoc(Cover(a), Cover(b[..last]), b[last].mask);
    }
  }

  lemma RowsApart(a: seq<Entry>, b: seq<Entry>, i: nat, j: nat)
    requires Proper(a) && Proper(b) && i < |a| && j < |b| && Seen(Cover(a), Cover(b)) == 0
    ensures Compatible(a[i], b[j]) && Compatible(b[j], a[i])
  {
    hide Seen, Cover, Outside;
    CoverRow(a, i);
    CoverRow(b, j);
    assert RowProper(a[i]);
    CoversApart(a[i].mask, b[j].mask, Cover(a), Cover(b));
    SeenSym(a[i].mask, b[j].mask);
    SeenSelf(a[i].mask);
    SeenNone(a[i].bits);
  }

  /** Proper tables whose masks do not meet make a proper table. */
  lemma ProperConcat(a: seq<Entry>, b: seq<Entry>)
    requires Proper(a) && Proper(b) && Seen(Cover(a), Cover(b)) == 0
    ensures Proper(a + b) && Cover(a + b) == Join(Cover(a), Cover(b))
  {
    hide Seen, Cover, Join;
    var t := a + b;
    CoverConcat(a, b);
    forall i, j | 0 <= i < |t| && 0 <= j < |t| && i != j ensures Compatible(t[i], t[j]) {
      if i < |a| <= j {
        RowsApart(a, b, i, j - |a|);
      } else if j < |a| <= i {
        RowsApart(a, b, j, i - |a|);
      } else if i < |a| {
        assert Compatible(a[i], a[j]);
      } else {
        assert Compatible(b[i - |a|], b[j - |a|]);
      }
    }
    forall i | 0 <= i < |t| ensures RowProper(t[i]) {
      assert RowProper(if i < |a| then a[i] else b[i - |a|]);
    }
  }

  lemma Cover4(t: seq<Entry>)
    requires |t| == 4
    ensures Cover(t) == Join(Join(Join(Join(0, t[0].mask), t[1].mask), t[2].mask), t[3].mask)
  {
    hide Join;
    assert t[..3][..2] == t[..2] && t[..2][..1] == t[..1] && t[..1][..0] == [];
    assert Cover(t[..1]) == Join(0, t[0].mask);
    assert Cover(t[..2]) == Join(Cover(t[..1]), t[1].mask);
    assert Cover(t[..3]) == Join(Cover(t[..2]), t[2].mask);
  }

  lemma PadKeysProper()
    ensures Proper(PAD_KEYS) && Cover(PAD_KEYS) == 0x000F
  {
    Cover4(PAD_KEYS);
  }

  lemma MenuKeysProper()
    ensures Proper(MENU_KEYS) && Cover(MENU_KEYS) == 0x00F0
  {
    Cover4(MENU_KEYS);
  }

  lemma FaceKeysProper()
    ensures Proper(FACE_KEYS) && Cover(FACE_KEYS) == 0x3300
  {
    Cover4(FACE_KEYS);
  }

  lemma TriggerKeysProper()
    ensures Proper(TRIGGER_KEYS) && Cover(TRIGGER_KEYS) == 0x3_C000
  {
    Cover4(TRIGGER_KEYS);
  }

  lemma CoverStick(t: seq<Entry>, mask: bv32)
    requires t != [] && forall i :: 0 <= i < |t| ==> t[i].mask == mask
    ensures Cover(t) == mask
  {
    if |t| > 1 {
      CoverStick(t[..|t| - 1], mask);
    } else {
      assert Cover(t[..0]) == 0;
    }
  }

  lemma LeftStickProper()
    ensures Proper(LEFT_STICK) && Cover(LEFT_STICK) == LTHUMB_MASK
  {
    CoverStick(LEFT_STICK, LTHUMB_MASK);
  }

  lemma RightStickProper()
    ensures Proper(RIGHT_STICK) && Cover(RIGHT_STICK) == RTHUMB_MASK
  {
    CoverStick(RIGHT_STICK, RTHUMB_MASK);
  }

  lemma GuideKeyProper()
    ensures Proper(GUIDE_KEY) && Cover(GUIDE_KEY) == GUIDE
  {
    assert Cover(GUIDE_KEY[..0]) == 0;
  }

  /** The table is proper, and covers every defined bit of the button state. */
  lemma ButtonsProper()
    ensures |BUTTONS| == 33 && Proper(BUTTONS) && Cover(BUTTONS) == 0x0FF3_F7FF
  {
    PadKeysProper(); MenuKeysProper(); FaceKeysProper(); TriggerKeysProper();
    LeftStickProper(); RightStickProper(); GuideKeyProper();
    hide Proper, Cover;
    ProperConcat(PAD_KEYS, MENU_KEYS);
    ProperConcat(PAD_KEYS + MENU_KEYS, FACE_KEYS);
    ProperConcat(PAD_KEYS + MENU_KEYS + FACE_KEYS, TRIGGER_KEYS);
    ProperConcat(PAD_KEYS + MENU_KEYS + FACE_KEYS + TRIGGER_KEYS, LEFT_STICK);
    ProperConcat(PAD_KEYS + MENU_KEYS + FACE_KEYS + TRIGGER_KEYS + LEFT_STICK, RIGHT_STICK);
    ProperConcat(PAD_KEYS + MENU_KEYS + FACE_KEYS + TRIGGER_KEYS + LEFT_STICK + RIGHT_STICK, GUIDE_KEY);
  }

  function VkOf(i: nat): nat
  {
    if i < 8 then 16 + i
    else if i < 10 then 13 - i
    else if i < 14 then i - 10
    else if i < 16 then i - 8
    else if i < 20 then i + 20
    else if i < 22 then i + 12
    else if i < 24 then 57 - i
    else if i < 28 then i + 28
    else if i < 30 then i + 20
    else if i < 32 then 81 - i
    else 8
  }

  lemma VkOfKey(i: nat)
    requires i < 16
    ensures BUTTONS[i].vk == VK_PAD + VkOf(i)
  {
    if i < 4 { assert BUTTONS[i] == PAD_KEYS[i]; }
    else if i < 8 { assert BUTTONS[i] == MENU_KEYS[i - 4]; }
    else if i < 12 { assert BUTTONS[i] == FACE_KEYS[i - 8]; }
    else { assert BUTTONS[i] == TRIGGER_KEYS[i - 12]; }
  }

  lemma VkOfStick(i: nat)
    requires 16 <= i < 32
    ensures BUTTONS[i].vk == VK_PAD + VkOf(i)
  {
    if i < 24 { assert BUTTONS[i] == LEFT_STICK[i - 16]; }
    else { assert BUTTONS[i] == RIGHT_STICK[i - 24]; }
  }

  lemma VkOfRow(i: nat)
    requires i < |BUTTONS|
    ensures |BUTTONS| == 33 && BUTTONS[i].vk == VK_PAD + VkOf(i)
  {
    if i < 16 { VkOfKey(i); }
    else if i < 32 { VkOfStick(i); }
  }

  /** Rows and virtual keys correspond one to one. */
  lemma VirtualKeysDistinct(i: nat, j: nat)
    requires i < |BUTTONS| && j < |BUTTONS| && BUTTONS[i].vk == BUTTONS[j].vk
    ensures i == j
  {
    VkOfRow(i);
    VkOfRow(j);
  }

  lemma StickMask(i: nat)
    requires 16 <= i < 32
    ensures |BUTTONS| == 33 && BUTTONS[i].mask == if i < 24 then LTHUMB_MASK else RTHUMB_MASK
  {
    if i < 24 { assert BUTTONS[i] == LEFT_STICK[i - 16]; }
    else { assert BUTTONS[i] == RIGHT_STICK[i - 24]; }
  }

  // ------------------------------------------------------- length of a drain

  ghost function Rows(lo: nat, hi: nat): (rows: set<nat>)
    ensures forall i :: i in rows <==> lo <= i < hi
    ensures lo <= hi ==> |rows| == hi - lo
    decreases if lo < hi then hi - lo else 0
  {
    if lo < hi then {lo} + Rows(lo + 1, hi) else {}
  }

  lemma SubsetCount(a: set<nat>, b: set<nat>)
    requires a <= b
    ensures |a| <= |b|
  {
    assert b == a + (b - a);
  }

  lemma AtMostOne(a: set<nat>)
    requires forall i, j :: i in a && j in a ==> i == j
    ensures |a| <= 1
  {
    if a != {} {
      var i :| i in a;
      assert a == {i};
    }
  }

  /** At most one direction of a stick is active. */
  lemma OneDirection(s: bv32, right: bool)
    ensures |Active(BUTTONS, s) * (if right then Rows(24, 32) else Rows(16, 24))| <= 1
  {
    hide Proper, Active;
    ButtonsProper();
    var rows := if right then Rows(24, 32) else Rows(16, 24);
    forall i, j | i in Active(BUTTONS, s) * rows && j in Active(BUTTONS, s) * rows
      ensures i == j
    {
      StickMask(i);
      StickMask(j);
      OneOfMask(BUTTONS, s, i, j);
    }
    AtMostOne(Active(BUTTONS, s) * rows);
  }

  lemma SplitCount(a: set<nat>, p: set<nat>, q: set<nat>, r: set<nat>)
    requires a <= p + q + r && p !! q !! r
    ensures |a| == |a * p| + |a * q| + |a * r|
  {
    assert a == a * p + a * q + a * r;
    assert |a * p + a * q| == |a * p| + |a * q|;
  }

  lemma CountBound(u: set<nat>, d: set<nat>, keys: set<nat>, left: set<nat>, right: set<nat>)
    requires u + d <= keys + left + right && keys !! left !! right && u !! d
    requires |u * left| <= 1 && |d * left| <= 1 && |u * right| <= 1 && |d * right| <= 1
    ensures |u| + |d| <= |keys| + 4
  {
    SplitCount(u, keys, left, right);
    SplitCount(d, keys, left, right);
    assert |u * keys + d * keys| == |u * keys| + |d * keys|;
    SubsetCount(u * keys + d * keys, keys);
  }

  lemma RowsPartition() returns (keys: set<nat>)
    ensures |keys| == 17 && keys !! Rows(16, 24) !! Rows(24, 32)
    ensures Rows(0, 33) <= keys + Rows(16, 24) + Rows(24, 32)
  {
    hide Rows;
    keys := Rows(0, 16) + {32};
  }

  lemma InTable(s: bv32)
    ensures Active(BUTTONS, s) <= Rows(0, 33)
  {}

  lemma StickCount(from: bv32, to: bv32, right: bool)
    ensures var rows := if right then Rows(24, 32) else Rows(16, 24);
      |Releases(BUTTONS, from, to) * rows| <= 1 && |Presses(BUTTONS, from, to) * rows| <= 1
  {
    hide Active;
    var rows := if right then Rows(24, 32) else Rows(16, 24);
    OneDirection(from, right);
    OneDirection(to, right);
    SubsetCount(Releases(BUTTONS, from, to) * rows, Active(BUTTONS, from) * rows);
    SubsetCount(Presses(BUTTONS, from, to) * rows, Active(BUTTONS, to) * rows);
  }

  lemma DistanceBound(from: bv32, to: bv32)
    ensures Distance(BUTTONS, from, to) <= 21
  {
    hide Active, Rows;
    InTable(from);
    InTable(to);
    StickCount(from, to, false);
    StickCount(from, to, true);
    var keys := RowsPartition();
    CountBound(Releases(BUTTONS, from, to), Presses(BUTTONS, from, to), keys, Rows(16, 24), Rows(24, 32));
  }

  /** A drain between any two states takes at most 21 strokes: one for each of the 17
      plain keys and two for each stick. */
  lemma DrainLength(from: bv32, to: bv32)
    ensures Proper(BUTTONS) && |Drain(BUTTONS, from, to).0| <= 21
  {
    hide Active, Drain, Pending, Proper, NextStroke, Distance;
    ButtonsProper();
    DrainIsSpec(BUTTONS, from, to);
    DistanceBound(from, to);
  }

  /** Over any run of polls of a fresh engine, whatever the targets: strokes of one key
      alternate, starting with a press; a client that follows them believes exactly the
      active rows of the remembered state; and that state is well formed, so no stick
      has two directions down. */
  lemma StreamLaw(targets: seq<bv32>)
    ensures var (ks, last) := Polls(BUTTONS, 0, targets);
      && Lawful({}, ks)
      && Replay({}, ks) == Active(BUTTONS, last)
      && WellFormed(BUTTONS, last)
      && |Replay({}, ks) * Rows(16, 24)| <= 1 && |Replay({}, ks) * Rows(24, 32)| <= 1
  {
    hide Polls, Lawful, Replay, Proper, WellFormed, Active, Rows;
    ButtonsProper();
    NothingActive(BUTTONS);
    PollsLawful(BUTTONS, 0, targets);
    var (ks, last) := Polls(BUTTONS, 0, targets);
    OneDirection(last, false);
    OneDirection(last, true);
  }

  // --------------------------------------------------------- the calls

  /** The structure a caller passes in to be filled. */
  class KeystrokeRecord {
    var virtualKey: nat
    var unicode: nat
    var flags: nat
    var userIndex: nat
    var hidCode: nat

    ghost predicate Reports(table: seq<Entry>, index: nat, k: Stroke)
      reads this
    {
      && k.row < |table| && virtualKey == table[k.row].vk
      && flags == (if k.down then KEYDOWN else KEYUP)
      && userIndex == index && unicode == 0 && hidCode == 0
    }

    constructor ()
    {
      virtualKey, unicode, flags, userIndex, hidCode := 0, 0, 0, 0, 0;
    }
  }

  datatype Status = Success | Empty | NotConnected | BadArguments

  /** What the service answers to one poll: whether the pad is there, and its button state
      unless that cannot be read. */
  datatype Answer = Answer(connected: bool, buttons: Option<bv32>)

  function StatusOf(t: seq<Entry>, s: bv32, a: Answer): Status
  {
    if !a.connected then NotConnected
    else if a.buttons.None? || NextStroke(t, s, a.buttons.value).None? then Empty
    else Success
  }

  /** The first answer, from `i` on, that makes a poll succeed, or the number of answers. */
  function FirstHit(t: seq<Entry>, s: bv32, answers: seq<Answer>, i: nat): (hit: nat)
    requires i <= |answers|
    ensures i <= hit <= |answers|
    ensures hit < |answers| ==> StatusOf(t, s, answers[hit]) == Success
    ensures forall j :: i <= j < hit ==> StatusOf(t, s, answers[j]) != Success
    decreases |answers| - i
  {
    if i == |answers| || StatusOf(t, s, answers[i]) == Success then i else FirstHit(t, s, answers, i + 1)
  }

  /** There is something to report: the pad is there, its buttons can be read, and some key is
      down in them and not in the remembered state, or the other way round. */
  ghost predicate Reportable(t: seq<Entry>, s: bv32, a: Answer)
  {
    a.connected && a.buttons.Some? && Active(t, s) != Active(t, a.buttons.value)
  }

  lemma StatusIff(t: seq<Entry>, s: bv32, a: Answer)
    ensures StatusOf(t, s, a) == NotConnected <==> !a.connected
    ensures StatusOf(t, s, a) == Success <==> Reportable(t, s, a)
    ensures StatusOf(t, s, a) == Empty <==> a.connected && !Reportable(t, s, a)
  {
    if a.buttons.Some? { NoStrokeIff(t, s, a.buttons.value); }
    hide NextStroke, Active;
  }

  /** Of several answers the first that has something to report is the one that is reported. */
  lemma FirstReportable(t: seq<Entry>, s: bv32, answers: seq<Answer>)
    ensures var hit := FirstHit(t, s, answers, 0);
      && (hit < |answers| <==> exists j :: 0 <= j < |answers| && Reportable(t, s, answers[j]))
      && (hit < |answers| ==> Reportable(t, s, answers[hit]))
      && (forall j :: 0 <= j < hit ==> !Reportable(t, s, answers[j]))
  {
    hide StatusOf, Reportable;
    forall a: Answer ensures StatusOf(t, s, a) == Success <==> Reportable(t, s, a) {
      StatusIff(t, s, a);
    }
  }

  /** Trying one answer. */
  lemma TryOne(t: seq<Entry>, s: bv32, answers: seq<Answer>, i: nat)
    requires i < |answers|
    ensures FirstHit(t, s, answers, i) == if StatusOf(t, s, answers[i]) == Success then i else FirstHit(t, s, answers, i + 1)
    ensures FirstHit(t, s, answers[i..][..1], 0) == if StatusOf(t, s, answers[i]) == Success then 0 else 1
  {
    hide StatusOf;
    assert answers[i..][..1] == [answers[i]];
  }

  /** One remembered state takes the step that the answer calls for. */
  ghost predicate Stroked(t: seq<Entry>, index: nat, before: seq<bv32>, after: seq<bv32>, a: Answer)
    requires index < |before|
  {
    && a.buttons.Some? && NextStroke(t, before[index], a.buttons.value).Some?
    && after == before[index := Take(t, before[index], a.buttons.value)]
  }

  /** The user index that a call polls, if any. */
  function Asked(index: nat, first: nat): Option<nat>
  {
    if index < XUSER_MAX_COUNT then Some(index)
    else if index == XUSER_INDEX_ANY && first < XUSER_MAX_COUNT then Some(first)
    else None
  }

  /** The counter after a call: when it has reached the number that means any index, the
      call asks for any index again that many times. */
  function FirstAfter(index: nat, first: nat): nat
  {
    if index != XUSER_INDEX_ANY then first
    else if first == XUSER_INDEX_ANY then first + 1 + XUSER_INDEX_ANY
    else first + 1
  }

  function FirstAfterCalls(n: nat): nat
  {
    if n == 0 then 0 else FirstAfter(XUSER_INDEX_ANY, FirstAfterCalls(n - 1))
  }

  /** Of all calls for any index since the start, only the first four poll anything, each a
      different user index; every later one answers that there is nothing. */
  lemma {:induction false} AnyAsksFourTimes(n: nat)
    ensures Asked(XUSER_INDEX_ANY, FirstAfterCalls(n)) == if n < XUSER_MAX_COUNT then Some(n) else None
    ensures if n < XUSER_MAX_COUNT then FirstAfterCalls(n) == n else FirstAfterCalls(n) >= n
  {
    if n > 0 { AnyAsksFourTimes(n - 1); }
  }

  // --------------------------------------- interleaved polls of all indices

  datatype Call = Call(index: nat, answer: Answer)

  datatype Reported = Reported(index: nat, stroke: Stroke)

  ghost predicate InRange(calls: seq<Call>)
  {
    forall i :: 0 <= i < |calls| ==> calls[i].index < XUSER_MAX_COUNT
  }

  /** The remembered state after a poll. */
  function StateAfter(t: seq<Entry>, s: bv32, a: Answer): bv32
  {
    if a.connected && a.buttons.Some? then Take(t, s, a.buttons.value) else s
  }

  /** What a run of polls reports, poll by poll, and what it remembers. */
  ghost function Session(t: seq<Entry>, states: seq<bv32>, calls: seq<Call>): (r: (seq<Reported>, seq<bv32>))
    requires |states| == XUSER_MAX_COUNT && InRange(calls)
    ensures |r.1| == XUSER_MAX_COUNT
    decreases |calls|
  {
    if calls == [] then ([], states)
    else
      var c := calls[0];
      var s := states[c.index];
      var (reports, last) := Session(t, states[c.index := StateAfter(t, s, c.answer)], calls[1..]);
      if StatusOf(t, s, c.answer) == Success
      then ([Reported(c.index, NextStroke(t, s, c.answer.buttons.value).value)] + reports, last)
      else (reports, last)
  }

  /** The button states that one index was told, in order. */
  ghost function TargetsOf(calls: seq<Call>, k: nat): seq<bv32>
    decreases |calls|
  {
    if calls == [] then []
    else
      var c := calls[0];
      if c.index == k && c.answer.connected && c.answer.buttons.Some?
      then [c.answer.buttons.value] + TargetsOf(calls[1..], k)
      else TargetsOf(calls[1..], k)
  }

  /** The strokes that were reported for one index, in order. */
  ghost function StrokesOf(reports: seq<Reported>, k: nat): seq<Stroke>
    decreases |reports|
  {
    if reports == [] then []
    else if reports[0].index == k then [reports[0].stroke] + StrokesOf(reports[1..], k)
    else StrokesOf(reports[1..], k)
  }

  /** However the polls of the four indices interleave, each index reports and remembers
      exactly what its own polls alone would. */
  lemma {:induction false} SessionPerIndex(t: seq<Entry>, states: seq<bv32>, calls: seq<Call>, k: nat)
    requires |states| == XUSER_MAX_COUNT && InRange(calls) && k < XUSER_MAX_COUNT
    ensures var (reports, last) := Session(t, states, calls);
      (StrokesOf(reports, k), last[k]) == Polls(t, states[k], TargetsOf(calls, k))
    decreases |calls|
  {
    hide NextStroke, Take;
    if calls != [] {
      var c := calls[0];
      var s := states[c.index];
      var next := states[c.index := StateAfter(t, s, c.answer)];
      SessionPerIndex(t, next, calls[1..], k);
      TakeNothing(t, s, c.answer);
      var (rest, _) := Session(t, next, calls[1..]);
      if StatusOf(t, s, c.answer) == Success {
        var first := Reported(c.index, NextStroke(t, s, c.answer.buttons.value).value);
        assert ([first] + rest)[1..] == rest;
      }
      if c.index == k && c.answer.connected && c.answer.buttons.Some? {
        assert ([c.answer.buttons.value] + TargetsOf(calls[1..], k))[1..] == TargetsOf(calls[1..], k);
      }
    }
  }

  lemma TakeNothing(t: seq<Entry>, s: bv32, a: Answer)
    ensures StatusOf(t, s, a) == Success ==> a.connected && a.buttons.Some?
    ensures StatusOf(t, s, a) != Success ==> StateAfter(t, s, a) == s
  {
    hide NextStroke;
  }

  /** So the stream law holds for every index of a fresh engine. */
  lemma SessionLaw(calls: seq<Call>, k: nat)
    requires InRange(calls) && k < XUSER_MAX_COUNT
    ensures var (reports, last) := Session(BUTTONS, [0, 0, 0, 0], calls);
      && Lawful({}, StrokesOf(reports, k))
      && Replay({}, StrokesOf(reports, k)) == Active(BUTTONS, last[k])
      && WellFormed(BUTTONS, last[k])
  {
    hide Session, StrokesOf, TargetsOf, Lawful, Replay, Active, WellFormed, Polls, Rows;
    SessionPerIndex(BUTTONS, [0, 0, 0, 0], calls, k);
    StreamLaw(TargetsOf(calls, k));
  }

  class Engine {
    const table: seq<Entry>

    /** The remembered state of each user index. */
    const states: array<bv32>

    /** Where the next call for any index starts. */
    var anyFirst: nat

    ghost predicate Valid()
    {
      states.Length == XUSER_MAX_COUNT
    }

    constructor ()
      ensures Valid() && table == BUTTONS && fresh(states)
      ensures forall i :: 0 <= i < XUSER_MAX_COUNT ==> states[i] == 0
      ensures anyFirst == 0
    {
      anyFirst := 0;
      table := BUTTONS;
      states := new bv32[XUSER_MAX_COUNT](_ => 0);
    }

    /** Writes the new state and fills the record for one reported row. */
    method Report(index: nat, i: nat, next: bv32, flags: nat, keystroke: KeystrokeRecord)
      requires Valid() && index < XUSER_MAX_COUNT && i < |table|
      modifies states, keystroke
      ensures states[..] == old(states[..])[index := next]
      ensures keystroke.virtualKey == table[i].vk && keystroke.flags == flags
      ensures keystroke.userIndex == index && keystroke.unicode == 0 && keystroke.hidCode == 0
    {
      states[index] := next;
      keystroke.virtualKey := table[i].vk;
      keystroke.unicode := 0;
      keystroke.flags := flags;
      keystroke.userIndex := index;
      keystroke.hidCode := 0;
    }

    /** The scanning loop: the first row active in `a` and not in `b`, or the table size. */
    method Scan(a: bv32, b: bv32) returns (i: nat)
      ensures i == FirstReleased(table, a, b, 0)
    {
      hide Seen;
      i := 0;
      while i < |table|
        invariant i <= |table| && FirstReleased(table, a, b, 0) == FirstReleased(table, a, b, i)
      {
        if Seen(b, table[i].mask) != table[i].bits && Seen(a, table[i].mask) == table[i].bits {
          return;
        }
        i := i + 1;
      }
    }

    /** Two scans of the table, for released and then for pressed rows; the first hit
        is written to the record and to the remembered state. */
    method GetNextKeyStroke(index: nat, from: bv32, to: bv32, keystroke: KeystrokeRecord) returns (ret: int)
      requires Valid() && index < XUSER_MAX_COUNT && states[index] == from
      modifies states, keystroke
      ensures states[..] == old(states[..])[index := Take(table, from, to)]
      ensures match NextStroke(table, from, to)
        case None => ret == -1 && unchanged(states) && unchanged(keystroke)
        case Some(k) =>
          ret == k.row && keystroke.Reports(table, index, k) && keystroke.flags == if k.down then 1 else 2
    {
      hide Seen, Outside, Join, FirstReleased;
      if from == to {
        NoStrokeToItself(table, from);
        return -1;
      }
      var i := Scan(from, to);
      if i < |table| {
        Report(index, i, Outside(from, table[i].mask), KEYUP, keystroke);
        return i;
      }
      i := Scan(to, from);
      if i < |table| {
        Report(index, i, Join(Outside(from, table[i].mask), table[i].bits), KEYDOWN, keystroke);
        return i;
      }
      return -1;
    }

    /** The branch for one user index. */
    method Poll(index: nat, a: Answer, keystroke: KeystrokeRecord) returns (status: Status)
      requires Valid() && index < XUSER_MAX_COUNT
      modifies states, keystroke
      ensures status == StatusOf(table, old(states[index]), a)
      ensures status == NotConnected <==> !a.connected
      ensures status == Empty <==> a.connected && !Reportable(table, old(states[index]), a)
      ensures status == Success <==> Reportable(table, old(states[index]), a)
      ensures states[..] == old(states[..])[index := StateAfter(table, old(states[index]), a)]
      ensures status != Success ==> unchanged(states) && unchanged(keystroke)
      ensures status == Success ==>
        && Stroked(table, index, old(states[..]), states[..], a)
        && keystroke.Reports(table, index, NextStroke(table, old(states[index]), a.buttons.value).value)
    {
      StatusIff(table, states[index], a);
      hide FirstReleased, Reportable;
      if !a.connected {
        return NotConnected;
      }
      if a.buttons.None? {
        return Empty;
      }
      var row := GetNextKeyStroke(index, states[index], a.buttons.value, keystroke);
      return if row >= 0 then Success else Empty;
    }

    /** The call itself.  The branch for any index takes the next number of a counter that is
        never reset, and its two loops ask for that number each time: four polls of one user
        index while the number is one, and otherwise calls that answer nothing. */
    method GetKeystroke(index: nat, answers: seq<Answer>, keystroke: KeystrokeRecord) returns (status: Status)
      requires Valid() && |answers| >= if index == XUSER_INDEX_ANY then XUSER_MAX_COUNT else 1
      modifies this`anyFirst, states, keystroke
      ensures Valid() && anyFirst == FirstAfter(index, old(anyFirst))
      ensures index != 255 ==> anyFirst == old(anyFirst)
      ensures status == BadArguments <==> 4 <= index != 255
      ensures index < 4 ==>
        && (status == NotConnected <==> !answers[0].connected)
        && (status == Success <==> Reportable(table, old(states[index]), answers[0]))
        && (status == Empty <==> answers[0].connected && !Reportable(table, old(states[index]), answers[0]))
      ensures Asked(index, old(anyFirst)).None? ==>
        && unchanged(states) && unchanged(keystroke)
        && status == if index == XUSER_INDEX_ANY then Empty else BadArguments
      ensures Asked(index, old(anyFirst)).Some? ==>
        var k := Asked(index, old(anyFirst)).value;
        var polls := answers[..if index == k then 1 else XUSER_MAX_COUNT];
        var hit := FirstHit(table, old(states[k]), polls, 0);
        if hit < |polls| then
          && status == Success && Stroked(table, k, old(states[..]), states[..], polls[hit])
          && keystroke.Reports(table, k, NextStroke(table, old(states[k]), polls[hit].buttons.value).value)
        else
          && status == (if index == k then StatusOf(table, old(states[k]), polls[0]) else Empty)
          && unchanged(states) && unchanged(keystroke)
      decreases if index != XUSER_INDEX_ANY then 0 else if anyFirst <= XUSER_INDEX_ANY then 2 else 1
    {
      hide FirstReleased, NextStroke, Take, StatusOf, FirstHit, Stroked, Reportable;
      if index < XUSER_MAX_COUNT {
        TryOne(table, states[index], answers, 0);
        assert answers[0..][..1] == answers[..1];
        status := Poll(index, answers[0], keystroke);
      } else if index == XUSER_INDEX_ANY {
        var own := anyFirst;
        anyFirst := anyFirst + 1;
        ghost var polls, was := answers[..XUSER_MAX_COUNT], states[..];
        var next, i := 0, own;
        while i < XUSER_MAX_COUNT
          invariant own <= i && unchanged(states) && states[..] == was && unchanged(keystroke) && anyFirst == own + 1
          invariant if own < XUSER_MAX_COUNT then next == i - own && i <= XUSER_MAX_COUNT else next == 0 && i == own
          invariant own < XUSER_MAX_COUNT ==>
            FirstHit(table, old(states[own]), polls, 0) == FirstHit(table, old(states[own]), polls, next)
        {
          if own < XUSER_MAX_COUNT {
            TryOne(table, states[own], answers, next);
            TryOne(table, states[own], polls, next);
          }
          status := GetKeystroke(own, answers[next..], keystroke);
          if status == Success {
            return;
          }
          next, i := next + 1, i + 1;
        }
        i := 0;
        while i < own
          invariant i <= own && unchanged(states) && states[..] == was && unchanged(keystroke)
          invariant anyFirst == own + 1 + if own == XUSER_INDEX_ANY then i else 0
          invariant next == if own < XUSER_MAX_COUNT then XUSER_MAX_COUNT - own + i else 0
          invariant own < XUSER_MAX_COUNT ==>
            FirstHit(table, old(states[own]), polls, 0) == FirstHit(table, old(states[own]), polls, next)
        {
          if own < XUSER_MAX_COUNT {
            TryOne(table, states[own], answers, next);
            TryOne(table, states[own], polls, next);
          }
          status := GetKeystroke(own, answers[next..], keystroke);
          if status == Success {
            return;
          }
          next, i := if own < XUSER_MAX_COUNT then next + 1 else 0, i + 1;
        }
        return Empty;
      } else {
        return BadArguments;
      }
    }
  }
}
