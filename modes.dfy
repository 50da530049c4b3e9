/** The sensor's fixed table of output modes, the nearest-mode search used when a
    format is set, and the pad enumerations that report the table. */
module Modes {
  import opened KernelTypes

  datatype Fract = Fract(numerator: u32, denominator: u32)

  /** One row of `supported_modes`; its register list is held by the driver. */
  datatype Mode = Mode(width: u32, height: u32, maxFps: Fract, htsDef: u32, vtsDef: u32, expDef: u32)

  /** The media-bus format of a frame: size, pixel code and field order. */
  datatype FrameFmt = FrameFmt(width: u32, height: u32, code: u32, field: u32)

  const MEDIA_BUS_FMT_SGRBG10_1X10: u32 := 0x300a
  const V4L2_FIELD_NONE: u32 := 1

  const SupportedModes: seq<Mode> := [
    Mode(4208, 3120, Fract(10000, 300000), 0x0498, 0x0c7c, 0x0c00),
    Mode(4160, 3120, Fract(10000, 300000), 0x0498, 0x0c7c, 0x0c00),
    Mode(4160, 2340, Fract(10000, 300000), 0x0498, 0x0c7c, 0x0c00),
    Mode(2104, 1560, Fract(10000, 600000), 0x0498, 0x0c7c, 0x0c00),
    Mode(2080, 1170, Fract(10000, 600000), 0x0498, 0x0c7c, 0x0c00)
  ]

  /** The format the driver reports for table entry `k`. */
  function ModeFormat(k: nat): FrameFmt
    requires k < |SupportedModes|
  {
    FrameFmt(SupportedModes[k].width, SupportedModes[k].height, MEDIA_BUS_FMT_SGRBG10_1X10, V4L2_FIELD_NONE)
  }

  /** The kernel's `abs()` on an `int`: the negation wraps for the most negative value. */
  function Abs32(x: s32): (r: s32)
    ensures x > -0x8000_0000 ==> r == if x < 0 then -x else x
    ensures x == -0x8000_0000 ==> r == x
  {
    if x < 0 then WrapS32(-(x as int)) else x
  }

  /** `ov13b10_get_reso_dist`: the `u32` differences are taken by `abs()` as `int`s and
      summed in `int`, all with 32-bit wrap-around. */
  function ResoDist(m: Mode, w: u32, h: u32): s32
  {
    WrapS32(Abs32(S32(U32(m.width - w))) + Abs32(S32(U32(m.height - h))))
  }

  function AbsDiff(a: int, b: int): nat
  {
    if a < b then b - a else a - b
  }

  /** The L1 distance between a mode's size and a requested size. */
  function L1(m: Mode, w: int, h: int): nat
  {
    AbsDiff(m.width, w) + AbsDiff(m.height, h)
  }

  /** For sizes below 2^30 no wrap-around happens and the driver's distance is the L1 distance. */
  lemma ResoDistIsL1(m: Mode, w: u32, h: u32)
    requires m.width < 0x4000_0000 && m.height < 0x4000_0000
    requires w < 0x4000_0000 && h < 0x4000_0000
    ensures ResoDist(m, w, h) == L1(m, w, h)
  {
  }

  /** No table entry's wrapped distance collides with the loop's "nothing yet" value -1. */
  predicate NoSentinelClash(w: u32, h: u32)
  {
    forall j :: 0 <= j < |SupportedModes| ==> ResoDist(SupportedModes[j], w, h) != -1
  }

  /** `idx` has the least distance of the table, and every entry before it is strictly farther. */
  predicate IsBestFit(idx: nat, w: u32, h: u32)
  {
    && idx < |SupportedModes|
    && (forall j :: 0 <= j < |SupportedModes| ==>
          ResoDist(SupportedModes[idx], w, h) <= ResoDist(SupportedModes[j], w, h))
    && (forall j :: 0 <= j < idx ==>
          ResoDist(SupportedModes[j], w, h) > ResoDist(SupportedModes[idx], w, h))
  }

  /** At most one index is the best fit. */
  lemma BestFitUnique(a: nat, b: nat, w: u32, h: u32)
    requires IsBestFit(a, w, h) && IsBestFit(b, w, h)
    ensures a == b
  {
    var da, db := ResoDist(SupportedModes[a], w, h), ResoDist(SupportedModes[b], w, h);
    assert a < b ==> da > db && da <= db;
    assert b < a ==> db > da && db <= da;
  }

  lemma SmallTable()
    ensures forall j :: 0 <= j < |SupportedModes| ==>
      SupportedModes[j].width < 0x4000_0000 && SupportedModes[j].height < 0x4000_0000
  {
  }

  /** A request below 2^30 in both dimensions never makes the loop's -1 sentinel ambiguous. */
  lemma SmallRequestNoClash(w: u32, h: u32)
    requires w < 0x4000_0000 && h < 0x4000_0000
    ensures NoSentinelClash(w, h)
  {
  }

  /** `ov13b10_find_best_fit`: a scan over the table keeping the first entry of least distance. */
  method FindBestFit(w: u32, h: u32) returns (idx: nat)
    ensures idx < |SupportedModes|
    ensures NoSentinelClash(w, h) ==> IsBestFit(idx, w, h)
    ensures w < 0x4000_0000 && h < 0x4000_0000 ==>
      forall j :: 0 <= j < |SupportedModes| ==>
        L1(SupportedModes[idx], w, h) <= L1(SupportedModes[j], w, h)
    ensures forall k :: 0 <= k < |SupportedModes| && SupportedModes[k].width == w && SupportedModes[k].height == h ==>
      idx == k
  {
    idx := 0;
    var bestDist: int := -1;
    var i := 0;
    while i < |SupportedModes|
      invariant 0 <= i <= |SupportedModes|
      invariant i == 0 ==> idx == 0 && bestDist == -1
      invariant i > 0 ==> idx < i && bestDist == ResoDist(SupportedModes[idx], w, h)
      invariant NoSentinelClash(w, h) ==>
        forall j :: 0 <= j < i ==> bestDist <= ResoDist(SupportedModes[j], w, h)
      invariant NoSentinelClash(w, h) ==>
        forall j :: 0 <= j < idx ==> ResoDist(SupportedModes[j], w, h) > bestDist
    {
      var dist := ResoDist(SupportedModes[i], w, h);
      if bestDist == -1 || dist < bestDist {
        bestDist := dist;
        idx := i;
      }
      i := i + 1;
    }
    BestFitChoice(idx, w, h);
  }

  /** What the scan's choice means for the caller: for requests below 2^30 it is an
      entry of least L1 distance, and a request that names a table size gets that entry. */
  lemma BestFitChoice(idx: nat, w: u32, h: u32)
    requires idx < |SupportedModes|
    requires NoSentinelClash(w, h) ==> IsBestFit(idx, w, h)
    ensures w < 0x4000_0000 && h < 0x4000_0000 ==>
      forall j :: 0 <= j < |SupportedModes| ==>
        L1(SupportedModes[idx], w, h) <= L1(SupportedModes[j], w, h)
    ensures forall k :: 0 <= k < |SupportedModes| && SupportedModes[k].width == w && SupportedModes[k].height == h ==>
      idx == k
  {
    if w < 0x4000_0000 && h < 0x4000_0000 {
      SmallRequestNoClash(w, h);
      BestFitIsNearest(idx, w, h);
    }
    forall k | 0 <= k < |SupportedModes| && SupportedModes[k].width == w && SupportedModes[k].height == h
      ensures idx == k
    {
      TableSizesAreExactFits(k);
      SmallRequestNoClash(w, h);
      BestFitUnique(idx, k, w, h);
    }
  }

  /** For requests below 2^30 the best fit is an entry at least L1 distance. */
  lemma BestFitIsNearest(idx: nat, w: u32, h: u32)
    requires IsBestFit(idx, w, h)
    requires w < 0x4000_0000 && h < 0x4000_0000
    ensures forall j :: 0 <= j < |SupportedModes| ==>
      L1(SupportedModes[idx], w, h) <= L1(SupportedModes[j], w, h)
  {
    SmallTable();
    forall j | 0 <= j < |SupportedModes|
      ensures ResoDist(SupportedModes[j], w, h) == L1(SupportedModes[j], w, h)
    {
      ResoDistIsL1(SupportedModes[j], w, h);
    }
  }

  /** Every size in the table is its own best fit: setting an enumerated size keeps it. */
  lemma TableSizesAreExactFits(k: nat)
    requires k < |SupportedModes|
    ensures IsBestFit(k, SupportedModes[k].width, SupportedModes[k].height)
  {
    var w, h := SupportedModes[k].width, SupportedModes[k].height;
    SmallTable();
    forall j | 0 <= j < |SupportedModes|
      ensures ResoDist(SupportedModes[j], w, h) == L1(SupportedModes[j], w, h)
    {
      ResoDistIsL1(SupportedModes[j], w, h);
    }
  }

  datatype FrameSizeEnum = FrameSizeEnum(minWidth: u32, maxWidth: u32, minHeight: u32, maxHeight: u32)

  datatype FrameIntervalEnum = FrameIntervalEnum(code: u32, width: u32, height: u32, interval: Fract)

  /** `ov13b10_enum_mbus_code`: a single pixel code, at index 0. */
  function EnumMbusCode(index: u32): (r: Result<u32>)
    ensures r.Ok? <==> index == 0
    ensures r.Ok? ==> r.value == MEDIA_BUS_FMT_SGRBG10_1X10
    ensures r.Err? ==> r.ret == -EINVAL
  {
    if index != 0 then Err(-EINVAL) else Ok(MEDIA_BUS_FMT_SGRBG10_1X10)
  }

  /** `ov13b10_enum_frame_sizes`: one fixed size per table entry, for the one pixel code. */
  function EnumFrameSizes(index: u32, code: u32): (r: Result<FrameSizeEnum>)
    ensures r.Ok? <==> index < |SupportedModes| && code == MEDIA_BUS_FMT_SGRBG10_1X10
    ensures r.Err? ==> r.ret == -EINVAL
    ensures r.Ok? ==>
      && r.value.minWidth == r.value.maxWidth == SupportedModes[index].width
      && r.value.minHeight == r.value.maxHeight == SupportedModes[index].height
  {
    if index >= |SupportedModes| as u32 then Err(-EINVAL)
    else if code != MEDIA_BUS_FMT_SGRBG10_1X10 then Err(-EINVAL)
    else
      var m := SupportedModes[index];
      Ok(FrameSizeEnum(m.width, m.width, m.height, m.height))
  }

  /** `ov13b10_enum_frame_interval`: the maximum frame rate of each table entry. */
  function EnumFrameInterval(index: u32): (r: Result<FrameIntervalEnum>)
    ensures r.Ok? <==> index < |SupportedModes|
    ensures r.Err? ==> r.ret == -EINVAL
    ensures r.Ok? ==> r.value.interval == SupportedModes[index].maxFps
  {
    if index >= |SupportedModes| as u32 then Err(-EINVAL)
    else
      var m := SupportedModes[index];
      Ok(FrameIntervalEnum(MEDIA_BUS_FMT_SGRBG10_1X10, m.width, m.height, m.maxFps))
  }

  /** The three enumerations agree: the sizes reported with frame intervals are the
      frame sizes reported for the one pixel code, and each is a size `set_fmt` keeps. */
  lemma EnumerationsAgree(index: u32)
    ensures EnumFrameInterval(index).Ok? <==> EnumFrameSizes(index, EnumMbusCode(0).value).Ok?
    ensures EnumFrameInterval(index).Ok? ==>
      var fi, fs := EnumFrameInterval(index).value, EnumFrameSizes(index, EnumMbusCode(0).value).value;
      && fi.code == EnumMbusCode(0).value
      && fi.width == fs.minWidth && fi.height == fs.minHeight
      && IsBestFit(index, fs.minWidth, fs.minHeight)
  {
    if index < |SupportedModes| as u32 {
      TableSizesAreExactFits(index);
    }
  }
}
