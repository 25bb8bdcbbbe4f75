/** The axis fields after any event stream as integers, in terms of the integers that the
    device sent, on a device with all six named axes. */
module AxisValues {
  import opened Gamepad
  import opened Translator
  import opened DeviceRun
  import opened Allocation
  import opened AxisBytes
  import opened Values

  /** The last value of an axis, zero before the first. */
  ghost function LastSigned(es: seq<Event>, code: nat): int
  {
    if es == [] then 0
    else
      var e := es[|es| - 1];
      if e.Abs? && e.code == code then Signed(e.value) else LastSigned(es[..|es| - 1], code)
  }

  lemma ZeroInt()
    ensures Short(0) == 0 && Byte(Lo(0)) == 0 && Byte(Hi(0)) == 0
  {}

  lemma {:induction false} LastInt(es: seq<Event>, code: nat)
    ensures Short(LastAbs(es, code)) == Wrap(LastSigned(es, code))
    ensures Byte(Lo(LastAbs(es, code))) == LastSigned(es, code) % 256
    ensures Byte(Hi(LastAbs(es, code))) == LastSigned(es, code) / 256 % 256
  {
    if es == [] {
      ZeroInt();
    } else {
      LastInt(es[..|es| - 1], code);
      var e := es[|es| - 1];
      if e.Abs? && e.code == code {
        TruncateInt(e.value);
        TruncateBytes(e.value);
      }
      hide Short, Truncate, Signed, Byte, Lo, Hi, Wrap;
    }
  }

  /** A vertical axis holds minus one minus the last value, and zero before the first. */
  ghost function Upward(es: seq<Event>, code: nat): int
  {
    if Touched(es, code) then -1 - Wrap(LastSigned(es, code)) else 0
  }

  lemma UpwardInt(es: seq<Event>, code: nat)
    ensures Short(Reversed(es, code)) == Upward(es, code)
  {
    ZeroInt();
    LastInt(es, code);
    ComplementInt(LastAbs(es, code));
    hide Short, Complement, Lo, Hi, Byte, LastAbs, LastSigned, Touched, Wrap;
  }

  /** The left stick's horizontal axis: the upper byte is that of its last value, the lower
      one that of whichever of its own and the right trigger's values came last. */
  ghost function Sideways(es: seq<Event>): int
  {
    Wrap(256 * (LastSigned(es, ABS_X) / 256)
         + if Later(es, ABS_RZ, ABS_X) then LastSigned(es, ABS_RZ) / 256 % 256 else LastSigned(es, ABS_X) % 256)
  }

  lemma WordWrap(w: bv16, x: int, lo: int)
    requires Byte(Hi(w)) == x / 256 % 256 && Byte(Lo(w)) == lo
    ensures Short(w) == Wrap(256 * (x / 256) + lo)
  {
    hide Unsigned, Byte, Hi, Lo, Wrap;
    WordInt(w);
    WordHalf(w);
    WordRange(w);
    BlockMod(x / 256, lo, Unsigned(w));
    if w < 0x8000 {
      WrapUnique(256 * (x / 256) + lo, Unsigned(w));
    } else {
      WrapUnique(256 * (x / 256) + lo, Unsigned(w) - 65536);
    }
  }

  lemma BlockMod(q: int, lo: int, u: int)
    requires u == 256 * (q % 256) + lo
    ensures (256 * q + lo - u) % 65536 == 0 && (256 * q + lo - (u - 65536)) % 65536 == 0
  {
    var n := q / 256;
    assert 256 * q + lo - u == 65536 * n;
    assert 256 * q + lo - (u - 65536) == 65536 * (n + 1);
  }

  lemma SidewaysInt(es: seq<Event>)
    ensures Short(LeftX(es)) == Sideways(es)
    ensures !Later(es, ABS_RZ, ABS_X) ==> Sideways(es) == Wrap(LastSigned(es, ABS_X))
  {
    hide Short, Byte, LastAbs, LastSigned, Later, Wrap;
    LastInt(es, ABS_X);
    LastInt(es, ABS_RZ);
    var low := if Later(es, ABS_RZ, ABS_X) then Hi(LastAbs(es, ABS_RZ)) else Lo(LastAbs(es, ABS_X));
    BytesOfWord(low, Hi(LastAbs(es, ABS_X)));
    hide Lo, Hi, Word;
    WordWrap(LeftX(es), LastSigned(es, ABS_X), Byte(low));
  }

  /** The sixteen bytes of the record hold, after any stream: the left trigger modulo 256, the
      right trigger or what a later left trigger event spilt, and the four stick axes as
      signed 16-bit values, the vertical ones as minus one minus the last value. */
  lemma SixAxesValues(keys: seq<bool>, axes: seq<bool>, es: seq<Event>)
    requires Capable(keys, axes) && SixAxes(axes) && AllFit(TablesOf(keys, axes), es)
    ensures var g := Run(TablesOf(keys, axes), es);
      && Byte(g[2]) == LastSigned(es, 2) % 256
      && Byte(g[3]) == (if Later(es, 2, 5) then LastSigned(es, 2) / 256 % 256 else LastSigned(es, 5) % 256)
      && Short(Get(g, 4)) == Sideways(es)
      && (!Later(es, 5, 0) ==> Short(Get(g, 4)) == Wrap(LastSigned(es, 0)))
      && Short(Get(g, 6)) == Upward(es, 1)
      && Short(Get(g, 8)) == Wrap(LastSigned(es, 3))
      && Short(Get(g, 10)) == Upward(es, 4)
  {
    hide Short, Byte, Run, LastAbs, LastSigned, Later, Wrap, Lo, Hi, LeftX, Sideways, Reversed, Upward, Get;
    SixAxesHold(keys, axes, es);
    LastInt(es, ABS_Z);
    LastInt(es, ABS_RZ);
    LastInt(es, ABS_RX);
    SidewaysInt(es);
    UpwardInt(es, ABS_Y);
    UpwardInt(es, ABS_RY);
  }
}
