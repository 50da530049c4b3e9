/** The arithmetic behind the sensor's V4L2 controls: analogue gain split into two
    registers, the test-pattern register value, frame length (VTS) and the exposure
    limit derived from vertical blanking, the blanking ranges a mode implies, and the
    power-up delay in clock cycles. */
module Controls {
  import opened KernelTypes
  import opened RegWire
  import opened Modes

  const OV13B10_REG_CTRL_MODE: u16 := 0x0100
  const OV13B10_MODE_SW_STANDBY: u32 := 0x0
  const OV13B10_MODE_STREAMING: u32 := 0x1
  const OV13B10_REG_EXPOSURE: u16 := 0x3500
  const OV13B10_EXPOSURE_MIN: int := 4
  const OV13B10_VTS_MAX: int := 0x7fff
  const OV13B10_REG_GAIN_H: u16 := 0x350a
  const OV13B10_REG_GAIN_L: u16 := 0x350b
  const OV13B10_GAIN_MIN: int := 0x80
  const OV13B10_GAIN_MAX: int := 0x07c0
  const OV13B10_REG_TEST_PATTERN: u16 := 0x5080
  const OV13B10_TEST_PATTERN_ENABLE: int := 0x80
  const OV13B10_REG_VTS: u16 := 0x380e
  const OV13B10_XVCLK_FREQ: int := 24000000

  /** The range of a V4L2 control, as `__v4l2_ctrl_modify_range` and `v4l2_ctrl_new_std` are given it. */
  datatype CtrlRange = CtrlRange(min: int, max: int, step: int, def: int)

  /** The analogue gain register pair: `(v >> 8) & 0x07` for the high register and
      `v & 0xff` for the low one. Within the control's range the pair holds the gain exactly. */
  function GainRegs(v: s32): (r: (byte, byte))
    ensures r.0 < 8
    ensures OV13B10_GAIN_MIN <= v <= OV13B10_GAIN_MAX ==> r.0 * 256 + r.1 == v
  {
    ((U32(v) / 256) % 8, U32(v) % 256)
  }

  /** `x | 0x80` on a `u32`. */
  function SetBit7(x: u32): (r: u32)
    ensures r % 256 >= 0x80
    ensures x % 256 < 0x80 ==> r == x + 0x80
    ensures x % 256 >= 0x80 ==> r == x
  {
    if x % 256 >= 0x80 then x else x + 0x80
  }

  /** The test-pattern register value of `ov13b10_enable_test_pattern`: pattern 0
      disables, pattern `p` selects `p - 1` with the enable bit set. */
  function TestPatternValue(pattern: u32): (v: u32)
    ensures pattern == 0 ==> v == 0
    ensures 1 <= pattern <= 0x80 ==> v == pattern - 1 + OV13B10_TEST_PATTERN_ENABLE
  {
    if pattern != 0 then SetBit7(pattern - 1) else 0
  }

  /** The menu index a test-pattern register value encodes (a left inverse of `TestPatternValue`). */
  function DecodeTestPattern(reg: byte): nat
  {
    if reg < 0x80 then 0 else reg - 0x80 + 1
  }

  /** The single byte written for a test pattern identifies the pattern, for every pattern
      that fits the register's seven selector bits (the menu offers 0 to 4). */
  lemma TestPatternRoundTrip(pattern: u32)
    requires pattern <= 0x80
    ensures |Payload(TestPatternValue(pattern), 1)| == 1
    ensures DecodeTestPattern(Payload(TestPatternValue(pattern), 1)[0]) == pattern
  {
  }

  /** The frame length written for a vertical blanking value: `val + height` as a `u32`. */
  function VtsValue(height: u32, vblank: s32): u32
  {
    U32(vblank + height)
  }

  /** The exposure limit set when vertical blanking changes: `height + val - 16`, computed
      in `u32` and widened to `s64`. */
  function ExposureMax(height: u32, vblank: s32): int
  {
    U32(height + vblank - 16)
  }

  /** The horizontal blanking range `ov13b10_set_fmt` gives a mode: `hts_def - width` in `u32`. */
  function HBlankRange(m: Mode): CtrlRange
  {
    var h := U32(m.htsDef - m.width);
    CtrlRange(h, h, 1, h)
  }

  /** The vertical blanking range `ov13b10_set_fmt` gives a mode. */
  function VBlankRange(m: Mode): CtrlRange
  {
    CtrlRange(U32(m.vtsDef - m.height), U32(OV13B10_VTS_MAX - m.height), 1, U32(m.vtsDef - m.height))
  }

  /** The exposure range `ov13b10_initialize_controls` creates for a mode. */
  function ExposureRange(m: Mode): CtrlRange
  {
    CtrlRange(OV13B10_EXPOSURE_MIN, U32(m.vtsDef - 16), 1, m.expDef)
  }

  /** For every table mode and every vertical blanking in the mode's range: the frame
      length is blanking plus height and never exceeds `OV13B10_VTS_MAX`, its two written
      bytes carry it exactly, and the exposure limit sits 16 lines below it. */
  lemma VBlankArithmetic(k: nat, vblank: s32)
    requires k < |SupportedModes|
    requires VBlankRange(SupportedModes[k]).min <= vblank <= VBlankRange(SupportedModes[k]).max
    ensures var m := SupportedModes[k];
      && VtsValue(m.height, vblank) == vblank + m.height
      && m.vtsDef <= VtsValue(m.height, vblank) <= OV13B10_VTS_MAX
      && BigEndian(Payload(VtsValue(m.height, vblank), 2)) == vblank + m.height
      && ExposureMax(m.height, vblank) == VtsValue(m.height, vblank) - 16
  {
    var m := SupportedModes[k];
    PayloadRoundTrip(VtsValue(m.height, vblank), 2);
  }

  /** The vertical blanking range is a proper range for every table mode, its default
      makes the frame exactly `vts_def` lines long. The horizontal one is not a small
      positive value: `hts_def` is below every width, so the `u32` difference wraps. */
  lemma BlankingRanges(k: nat)
    requires k < |SupportedModes|
    ensures var m := SupportedModes[k];
      && 0 < VBlankRange(m).min == VBlankRange(m).def <= VBlankRange(m).max
      && VBlankRange(m).def + m.height == m.vtsDef
      && VBlankRange(m).max + m.height == OV13B10_VTS_MAX
      && HBlankRange(m).min == 0x1_0000_0000 + m.htsDef - m.width
      && HBlankRange(m).min >= 0x8000_0000
  {
  }

  /** `ov13b10_cal_delay`: `DIV_ROUND_UP(cycles, 24)`, the microseconds `cycles` periods of
      the 24 MHz clock take, rounded up. The `u32` sum inside the macro wraps for the
      topmost 23 values, which then give 0. */
  function CalDelay(cycles: u32): (r: u32)
    ensures cycles <= 0xFFFF_FFE8 ==> r * 24 >= cycles && (r - 1) * 24 < cycles
    ensures cycles > 0xFFFF_FFE8 ==> r == 0
  {
    U32(cycles + OV13B10_XVCLK_FREQ / 1000 / 1000 - 1) / (OV13B10_XVCLK_FREQ / 1000 / 1000)
  }

  /** `a | b` on two results of one-byte register writes, each 0 or `-EIO`, as `ret |= ...`
      combines the two gain writes: `0 | b` is `b`, and `-EIO | b` is `-EIO` for both values of `b`. */
  function OrRet(a: int, b: int): (r: int)
    requires a == 0 || a == -EIO
    requires b == 0 || b == -EIO
    ensures r == 0 <==> a == 0 && b == 0
    ensures r != 0 ==> r == -EIO
  {
    if a == 0 then b else a
  }
}
