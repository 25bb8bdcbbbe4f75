/** What a client is told, in the terms of the interface: virtual keys, and the integers that
    the device sent for its axes. */
module Reported {
  import opened Keystroke
  import opened KeystrokeApi
  import opened Gamepad
  import opened Translator
  import opened DeviceRun
  import opened Allocation
  import opened AllocationTheorems
  import opened AxisBytes
  import opened Values
  import opened AxisValues
  import opened Devices
  import opened EndToEnd

  /** The virtual key of a stick's position: up, down, right, left, then the diagonals up left,
      up right, down right and down left, from `base` on; or none, in the middle. */
  function StickVk(base: nat, x: int, y: int): nat
  {
    if y > 16384 then if x < -16384 then base + 4 else if x > 16384 then base + 5 else base
    else if y < -16384 then if x > 16384 then base + 6 else if x < -16384 then base + 7 else base + 1
    else if x > 16384 then base + 2
    else if x < -16384 then base + 3
    else 0
  }

  lemma StickRowVk(base: nat, k: nat, x: bv16, y: bv16)
    requires k < 8 && base >= 8
    ensures Direction(k, SideOf(x), SideOf(y)) <==>
      StickVk(base, Short(x), Short(y)) == base + VkOf(16 + k) - 32
  {
    hide Short;
  }

  /** Row and virtual key of a stick direction. */
  lemma StickRows(i: nat)
    requires i < |BUTTONS|
    ensures |BUTTONS| == 33
    ensures 0x5820 <= BUTTONS[i].vk < 0x5828 <==> 16 <= i < 24
    ensures 0x5830 <= BUTTONS[i].vk < 0x5838 <==> 24 <= i < 32
    ensures 16 <= i < 24 ==> BUTTONS[i].vk == 0x5820 + VkOf(i) - 32
    ensures 24 <= i < 32 ==> BUTTONS[i].vk == 0x5830 + VkOf(i - 8) - 32
  {
    VkOfRow(i);
  }

  /** On a device with all six named axes a stick's virtual key is believed down exactly when
      the last values of its axes put the stick into that direction. */
  lemma SticksReported(keys: seq<bool>, axes: seq<bool>, es: seq<Event>, targets: seq<bv32>, i: nat)
    requires Capable(keys, axes) && SixAxes(axes) && AllFit(TablesOf(keys, axes), es) && i < |BUTTONS|
    ensures var believed := Believed(targets, ButtonState(Run(TablesOf(keys, axes), es)));
      && (0x5820 <= BUTTONS[i].vk < 0x5828 ==>
           (i in believed <==> BUTTONS[i].vk == StickVk(0x5820, Sideways(es), Upward(es, 1))))
      && (0x5830 <= BUTTONS[i].vk < 0x5838 ==>
           (i in believed <==> BUTTONS[i].vk == StickVk(0x5830, Wrap(LastSigned(es, 3)), Upward(es, 4))))
  {
    hide Run, ButtonState, Believed, Direction, SideOf, Short, LastAbs, Reversed, LeftX, LastSigned, Sideways;
    hide Upward, Wrap, StickVk, VkOf;
    StickRows(i);
    if 16 <= i < 24 {
      SticksBelievedIff(keys, axes, es, targets, i - 16);
      SidewaysInt(es);
      UpwardInt(es, 1);
      StickRowVk(0x5820, i - 16, LeftX(es), Reversed(es, 1));
    } else if 24 <= i < 32 {
      SticksBelievedIff(keys, axes, es, targets, i - 24);
      LastInt(es, 3);
      UpwardInt(es, 4);
      StickRowVk(0x5830, i - 24, LastAbs(es, 3), Reversed(es, 4));
    }
  }

  lemma Above32(b: bv8)
    ensures b > TRIGGER_THRESHOLD <==> Byte(b) > 32
  {}

  /** The trigger keys are believed down exactly above 32: the left one by its last value
      modulo 256, the right one by its own or by what a later left trigger event spilt. */
  lemma TriggersReported(keys: seq<bool>, axes: seq<bool>, es: seq<Event>, targets: seq<bv32>, i: nat)
    requires Capable(keys, axes) && SixAxes(axes) && AllFit(TablesOf(keys, axes), es) && i < |BUTTONS|
    ensures var believed := Believed(targets, ButtonState(Run(TablesOf(keys, axes), es)));
      && (BUTTONS[i].vk == 0x5806 ==> (i in believed <==> LastSigned(es, 2) % 256 > 32))
      && (BUTTONS[i].vk == 0x5807 ==>
           (i in believed <==>
             (if Later(es, 2, 5) then LastSigned(es, 2) / 256 % 256 else LastSigned(es, 5) % 256) > 32))
  {
    hide Run, ButtonState, Believed, LastAbs, LastSigned, Later, Lo, Hi, Byte, Short, Wrap;
    VkOfRow(i);
    TriggersBelievedIff(keys, axes, es, targets);
    LastInt(es, 2);
    LastInt(es, 5);
    Above32(Lo(LastAbs(es, ABS_Z)));
    Above32(RightTrigger(es));
  }

  lemma DpadRow(i: nat)
    requires i < |BUTTONS| && 0x5810 <= BUTTONS[i].vk < 0x5814
    ensures BUTTONS[i].vk == 0x5810 + i
  {
    VkOfRow(i);
  }

  lemma DrivingHat(keys: seq<bool>, axes: seq<bool>)
    requires Capable(keys, axes) && HatOf(keys, axes) < ABS_CNT
    ensures var hat := HatOf(keys, axes);
      && hat + 1 < ABS_CNT && ItemAfter(keys, axes, hat + 1, 6).Hat?
      && (!(hat == 16 && !axes[2]) ==> ItemAfter(keys, axes, hat, 6).Hat?)
  {
    hide HatOf, ItemAfter;
    ItemsAre(keys, axes, HatOf(keys, axes));
    ItemsAre(keys, axes, HatOf(keys, axes) + 1);
  }

  /** Any driving hat: left and right are believed down by the sign of the last value of its
      horizontal axis, up and down by that of its vertical axis, downwards being positive.
      The first hat's horizontal axis does this only beside a left trigger axis. */
  lemma HatReported(keys: seq<bool>, axes: seq<bool>, es: seq<Event>, targets: seq<bv32>, i: nat)
    requires Capable(keys, axes) && AllFit(TablesOf(keys, axes), es) && i < |BUTTONS| && HatOf(keys, axes) < ABS_CNT
    ensures var believed := Believed(targets, ButtonState(Run(TablesOf(keys, axes), es)));
      var hat := HatOf(keys, axes);
      var (x, y) := (Wrap(LastSigned(es, hat)), Wrap(LastSigned(es, hat + 1)));
      && (BUTTONS[i].vk == 0x5810 ==> (i in believed <==> y < 0))
      && (BUTTONS[i].vk == 0x5811 ==> (i in believed <==> y > 0))
      && (!(hat == 16 && !axes[2]) ==>
           && (BUTTONS[i].vk == 0x5812 ==> (i in believed <==> x < 0))
           && (BUTTONS[i].vk == 0x5813 ==> (i in believed <==> x > 0)))
  {
    hide Run, ButtonState, Believed, LastAbs, LastSigned, SignOf, Short, Wrap, HatOf, ItemAfter, Lo, Hi, Byte;
    var hat := HatOf(keys, axes);
    if 0x5810 <= BUTTONS[i].vk < 0x5814 { DpadRow(i); }
    DrivingHat(keys, axes);
    LastInt(es, hat);
    LastInt(es, hat + 1);
    SignInt(LastAbs(es, hat));
    SignInt(LastAbs(es, hat + 1));
    HatBelievedIff(keys, axes, es, targets, hat + 1);
    if !(hat == 16 && !axes[2]) { HatBelievedIff(keys, axes, es, targets, hat); }
  }
}
