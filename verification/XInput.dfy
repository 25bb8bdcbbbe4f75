/** Constants of src/xinput.h, src/xinput_gamepad.h and src/xinput_service.h. */
module XInput {
  const XUSER_MAX_COUNT: nat := 4
  const XUSER_INDEX_ANY: nat := 255

  // the 16 bits of wButtons
  const DPAD_UP: bv32 := 0x0001
  const DPAD_DOWN: bv32 := 0x0002
  const DPAD_LEFT: bv32 := 0x0004
  const DPAD_RIGHT: bv32 := 0x0008
  const START: bv32 := 0x0010
  const BACK: bv32 := 0x0020
  const LEFT_THUMB: bv32 := 0x0040
  const RIGHT_THUMB: bv32 := 0x0080
  const LEFT_SHOULDER: bv32 := 0x0100
  const RIGHT_SHOULDER: bv32 := 0x0200
  const GUIDE: bv32 := 0x0400
  const RESERVED0: bv32 := 0x0800
  const PAD_A: bv32 := 0x1000
  const PAD_B: bv32 := 0x2000
  const PAD_X: bv32 := 0x4000
  const PAD_Y: bv32 := 0x8000

  // triggers and stick directions, only in the 32-bit button state
  const LTRIGGER: bv32 := 0x0001_0000
  const RTRIGGER: bv32 := 0x0002_0000
  const LTHUMB_UP: bv32 := 0x0010_0000
  const LTHUMB_RIGHT: bv32 := 0x0020_0000
  const LTHUMB_DOWN: bv32 := 0x0040_0000
  const LTHUMB_LEFT: bv32 := 0x0080_0000
  const RTHUMB_UP: bv32 := 0x0100_0000
  const RTHUMB_RIGHT: bv32 := 0x0200_0000
  const RTHUMB_DOWN: bv32 := 0x0400_0000
  const RTHUMB_LEFT: bv32 := 0x0800_0000
  const LTHUMB_MASK: bv32 := 0x00F0_0000
  const RTHUMB_MASK: bv32 := 0x0F00_0000

  const KEYDOWN: nat := 1
  const KEYUP: nat := 2
  const VK_PAD: nat := 0x5800
}
