/** The integers behind the words of an axis event: what a 32-bit event value becomes in a
    16-bit field and in a trigger byte. */
module Values {
  import opened Gamepad
  import opened Translator
  import opened DeviceRun

  function Wide(v: bv32): int
  {
    v as int
  }

  function Byte(b: bv8): int
  {
    b as int
  }

  /** The value of an event as the device means it. */
  function Signed(v: bv32): int
  {
    if v < 0x8000_0000 then Wide(v) else Wide(v) - 0x1_0000_0000
  }

  /** The integer in -32768 .. 32767 that is congruent to `x` modulo 65536. */
  function Wrap(x: int): (r: int)
    ensures -32768 <= r <= 32767 && (x - r) % 65536 == 0
    ensures -32768 <= x <= 32767 ==> r == x
  {
    (x + 32768) % 65536 - 32768
  }

  lemma WrapUnique(x: int, r: int)
    requires -32768 <= r <= 32767 && (x - r) % 65536 == 0
    ensures Wrap(x) == r
  {}

  // ------------------------------------------------------ words and bytes

  function Upper(v: bv32): bv16
  {
    (v >> 16) as bv16
  }

  lemma HalvesInt(v: bv32, hi: bv16, lo: bv16)
    requires v == ((hi as bv32) << 16) | (lo as bv32)
    ensures v as int == 65536 * (hi as int) + lo as int
  {}

  lemma HalvesJoin(v: bv32)
    ensures ((((v >> 16) as bv16) as bv32) << 16) | (((v & 0xFFFF) as bv16) as bv32) == v
  {}

  lemma RawInt(v: bv32)
    ensures v as int == 65536 * (((v >> 16) as bv16) as int) + ((v & 0xFFFF) as bv16) as int
  {
    HalvesJoin(v);
    HalvesInt(v, (v >> 16) as bv16, (v & 0xFFFF) as bv16);
  }

  lemma ValueInt(v: bv32)
    ensures Wide(v) == 65536 * Unsigned(Upper(v)) + Unsigned(Truncate(v))
  {
    RawInt(v);
  }

  lemma BytesInt(v: bv16)
    ensures v as int == 256 * (((v >> 8) as bv8) as int) + ((v & 0xFF) as bv8) as int
  {}

  lemma WordInt(v: bv16)
    ensures Unsigned(v) == 256 * Byte(Hi(v)) + Byte(Lo(v))
  {
    BytesInt(v);
  }

  lemma ByteRange(b: bv8)
    ensures 0 <= Byte(b) <= 255
  {}

  lemma WordHalf(v: bv16)
    ensures Unsigned(v) < 0x8000 <==> v < 0x8000
  {}

  lemma WordRange(v: bv16)
    ensures 0 <= Unsigned(v) <= 65535
  {
    WordInt(v);
    ByteRange(Hi(v));
    ByteRange(Lo(v));
    hide Unsigned, Byte, Hi, Lo;
  }

  /** The stored word is the event's value modulo 65536, and the value itself when it fits. */
  lemma TruncateInt(v: bv32)
    ensures Short(Truncate(v)) == Wrap(Signed(v))
  {
    hide Upper, Truncate, Wide, Unsigned;
    ValueInt(v);
    WordHalf(Truncate(v));
    WordRange(Truncate(v));
    WrapUnique(Signed(v), Short(Truncate(v)));
  }

  lemma DigitsOf(x: int, q: int, hi: int, lo: int)
    requires x == 65536 * q + 256 * hi + lo && 0 <= hi < 256 && 0 <= lo < 256
    ensures x % 256 == lo && x / 256 % 256 == hi
  {
    assert x == 256 * (256 * q + hi) + lo;
    assert x / 256 == 256 * q + hi;
  }

  /** The byte of a trigger is the event's value modulo 256; the byte it spills is the next
      one of the value. */
  lemma TruncateBytes(v: bv32)
    ensures Byte(Lo(Truncate(v))) == Signed(v) % 256
    ensures Byte(Hi(Truncate(v))) == Signed(v) / 256 % 256
  {
    hide Upper, Truncate, Wide, Unsigned, Byte, Lo, Hi;
    ValueInt(v);
    WordInt(Truncate(v));
    ByteRange(Lo(Truncate(v)));
    ByteRange(Hi(Truncate(v)));
    var q := if v < 0x8000_0000 then Unsigned(Upper(v)) else Unsigned(Upper(v)) - 65536;
    DigitsOf(Signed(v), q, Byte(Hi(Truncate(v))), Byte(Lo(Truncate(v))));
  }

  lemma ComplementBytes(v: bv16)
    ensures Byte(Lo(Complement(v))) == 255 - Byte(Lo(v))
    ensures Byte(Hi(Complement(v))) == 255 - Byte(Hi(v))
  {}

  /** A complemented axis holds minus one minus the value. */
  lemma ComplementInt(v: bv16)
    ensures Short(Complement(v)) == -1 - Short(v)
  {
    hide Complement, Lo, Hi, Unsigned, Byte;
    WordInt(v);
    WordInt(Complement(v));
    ComplementBytes(v);
    WordRange(v);
    WordHalf(v);
    WordHalf(Complement(v));
  }

  lemma SignInt(v: bv16)
    ensures SignOf(v) == Sign.Positive <==> Short(v) > 0
    ensures SignOf(v) == Sign.Negative <==> Short(v) < 0
  {
    WordRange(v);
    WordHalf(v);
    WordZero(v);
    hide Unsigned;
  }

  lemma WordZero(v: bv16)
    ensures Unsigned(v) == 0 <==> v == 0
  {}

  // ------------------------------------------- how a driver sends a value

  /** A 16-bit value as a 32-bit event value. */
  function Extended(w: bv16): bv32
  {
    if w < 0x8000 then w as bv32 else 0xFFFF_0000 | (w as bv32)
  }

  lemma ExtendedParts(w: bv16)
    ensures Truncate(Extended(w)) == w
    ensures Upper(Extended(w)) == if w < 0x8000 then 0 else 0xFFFF
    ensures Extended(w) < 0x8000_0000 <==> w < 0x8000
  {}

  lemma SmallWords()
    ensures Unsigned(0) == 0 && Unsigned(0xFFFF) == 0xFFFF
  {}

  /** The word for an integer. */
  function WordOf(x: int): bv16
  {
    Word((x % 256) as bv8, (x / 256 % 256) as bv8)
  }

  lemma ByteOf(n: int)
    requires 0 <= n < 256
    ensures Byte(n as bv8) == n
  {}

  lemma WordOfInt(x: int)
    ensures Unsigned(WordOf(x)) == 256 * (x / 256 % 256) + x % 256
  {
    var lo, hi := (x % 256) as bv8, (x / 256 % 256) as bv8;
    BytesOfWord(lo, hi);
    ByteOf(x % 256);
    ByteOf(x / 256 % 256);
    WordInt(Word(lo, hi));
    hide Word, Lo, Hi, Byte, Unsigned;
  }

  lemma DigitsJoin(x: int)
    ensures 256 * (x / 256 % 256) + x % 256 == x % 65536
  {
    var q := x / 256;
    assert x == 65536 * (q / 256) + 256 * (q % 256) + x % 256;
  }

  lemma WordOfMod(x: int)
    ensures Unsigned(WordOf(x)) == x % 65536
  {
    hide WordOf, Unsigned;
    WordOfInt(x);
    DigitsJoin(x);
  }

  lemma ModShort(x: int)
    requires -32768 <= x <= 32767
    ensures x % 65536 == if x < 0 then x + 65536 else x
  {}

  /** Extending a word keeps its value, and storing takes the word back. */
  lemma ExtendedInt(w: bv16)
    ensures Signed(Extended(w)) == Short(w) && Truncate(Extended(w)) == w
  {
    ExtendedParts(w);
    hide Extended, Truncate, Upper, Wide, Unsigned;
    WordHalf(w);
    SmallWords();
    ValueInt(Extended(w));
  }

  /** Every 16-bit integer can be sent, and is stored as it is. */
  lemma SentIsStored(x: int)
    requires -32768 <= x <= 32767
    ensures Signed(Extended(WordOf(x))) == x && Short(Truncate(Extended(WordOf(x)))) == x
  {
    hide WordOf, Extended, Truncate, Unsigned, Signed;
    WordOfMod(x);
    ModShort(x);
    ExtendedInt(WordOf(x));
    WordHalf(WordOf(x));
  }
}
