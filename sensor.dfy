/** The ov13b10 sub-device: its mutable state (current mode, streaming and power
    flags, the try format and the ranges of the blanking and exposure controls) and the
    V4L2 operations that read and change it. The mutex the driver takes around each
    operation is not modelled: each method runs as one step. */
module Sensor {
  import opened KernelTypes
  import opened RegWire
  import opened I2c
  import opened RegIo
  import opened Modes
  import opened Controls

  /** `V4L2_SUBDEV_FORMAT_TRY` or `V4L2_SUBDEV_FORMAT_ACTIVE`. */
  datatype Which = Try | Active

  /** The controls `ov13b10_set_ctrl` handles, and any other control id. */
  datatype CtrlId = VBlank | Exposure | AnalogueGain | TestPattern | OtherCtrl(id: u32)

  /** `RKMODULE_GET_MODULE_INFO`, `RKMODULE_SET_QUICK_STREAM`, and any other command. */
  datatype IoctlCmd = GetModuleInfo | SetQuickStream | OtherCmd(cmd: u32)

  /** The strings `ov13b10_get_module_inf` fills in. */
  datatype ModuleInf = ModuleInf(sensorName: string, moduleName: string, lensName: string)

  const OV13B10_NAME: string := "ov13b10"

  /** The transfers and result of `__ov13b10_start_stream`: the mode's register list,
      then the control handler setup (whose result is `ctrlSetup`), then the write that
      sets the streaming bit. Each step runs only if the one before returned 0. */
  function StartStreamRun(regs: seq<RegVal>, ctrlSetup: int, base: nat, nak: set<nat>): Run
  {
    var list := RunFrom(regs, 0, base, nak);
    if list.ret != 0 then list
    else if ctrlSetup != 0 then Run(ctrlSetup, list.sent)
    else
      var pos := base + |list.sent|;
      Run(if pos in nak then -EIO else 0,
          list.sent + [WriteTransfer(OV13B10_REG_CTRL_MODE, 1, OV13B10_MODE_STREAMING, pos !in nak)])
  }

  /** Starting the stream succeeds exactly when the whole mode list is acknowledged,
      the control setup succeeds and the streaming write is acknowledged; on success the
      sensor has been sent the mode list and then, last, the streaming bit. */
  lemma StartStreamOutcome(regs: seq<RegVal>, ctrlSetup: int, base: nat, nak: set<nat>)
    requires Terminated(regs)
    ensures var run := StartStreamRun(regs, ctrlSetup, base, nak);
      && (run.ret == 0 <==>
            && (forall p :: base <= p <= base + FirstNull(regs) ==> p !in nak)
            && ctrlSetup == 0)
      && (run.ret == 0 ==>
            && |run.sent| == FirstNull(regs) + 1
            && run.sent[FirstNull(regs)] == WriteTransfer(OV13B10_REG_CTRL_MODE, 1, OV13B10_MODE_STREAMING, true)
            && forall k :: 0 <= k < FirstNull(regs) ==>
                 run.sent[k] == WriteTransfer(regs[k].addr, 1, regs[k].val, true))
  {
    RunFromShape(regs, 0, base, nak);
    var list := RunFrom(regs, 0, base, nak);
    if list.ret == 0 && ctrlSetup == 0 {
      assert StartStreamRun(regs, ctrlSetup, base, nak).sent[..FirstNull(regs)] == list.sent;
    }
  }

  /** What `FindBestFit` guarantees about its choice. */
  ghost predicate Chosen(k: nat, w: u32, h: u32)
  {
    k < |SupportedModes| && (NoSentinelClash(w, h) ==> IsBestFit(k, w, h))
  }

  class Ov13b10 {
    const bus: I2cBus
    /** Whether the kernel is built with `CONFIG_VIDEO_V4L2_SUBDEV_API`. */
    const subdevApi: bool
    /** `ov13b10_global_regs`, written on power-up. */
    const globalRegs: seq<RegVal>
    /** The register list of each entry of `SupportedModes`. */
    const modeRegs: seq<seq<RegVal>>
    const moduleName: string
    const lensName: string

    var streaming: bool
    var powerOn: bool
    /** Index of `cur_mode` in `SupportedModes`. */
    var curMode: nat
    /** The try format, kept for a single sub-device state and pad. */
    var tryFmt: FrameFmt
    var hblank: CtrlRange
    var vblank: CtrlRange
    var exposure: CtrlRange

    ghost predicate Valid()
      reads this
    {
      && curMode < |SupportedModes|
      && |modeRegs| == |SupportedModes|
      && Terminated(globalRegs)
      && forall k :: 0 <= k < |modeRegs| ==> Terminated(modeRegs[k])
    }

    /** The state `ov13b10_probe` and `ov13b10_initialize_controls` set up: the first
        mode, not streaming, not powered, and that mode's control ranges. */
    constructor (bus: I2cBus, subdevApi: bool, globalRegs: seq<RegVal>, modeRegs: seq<seq<RegVal>>,
                 moduleName: string, lensName: string)
      requires |modeRegs| == |SupportedModes|
      requires Terminated(globalRegs)
      requires forall k :: 0 <= k < |modeRegs| ==> Terminated(modeRegs[k])
      ensures Valid()
      ensures this.bus == bus && this.subdevApi == subdevApi
      ensures this.globalRegs == globalRegs && this.modeRegs == modeRegs
      ensures this.moduleName == moduleName && this.lensName == lensName
      ensures curMode == 0 && !streaming && !powerOn
      ensures hblank == HBlankRange(SupportedModes[0])
      ensures vblank == VBlankRange(SupportedModes[0])
      ensures exposure == ExposureRange(SupportedModes[0])
    {
      this.bus := bus;
      this.subdevApi := subdevApi;
      this.globalRegs := globalRegs;
      this.modeRegs := modeRegs;
      this.moduleName := moduleName;
      this.lensName := lensName;
      streaming, powerOn, curMode := false, false, 0;
      tryFmt := FrameFmt(0, 0, 0, 0);
      hblank := HBlankRange(SupportedModes[0]);
      vblank := VBlankRange(SupportedModes[0]);
      exposure := ExposureRange(SupportedModes[0]);
    }

    /** `ov13b10_open`: a new file handle's try format is the first mode's format. */
    method Open()
      requires Valid() && subdevApi
      modifies this`tryFmt
      ensures Valid()
      ensures tryFmt == ModeFormat(0)
    {
      tryFmt := ModeFormat(0);
    }

    /** `ov13b10_set_fmt`: the format becomes the nearest mode's, with the one pixel code
        and no field order. An active request makes that mode current and sets the
        blanking ranges from it; a try request stores the format as the try format, or
        fails with `-ENOTTY` when the sub-device API is not built in. */
    method SetFmt(which: Which, req: FrameFmt) returns (ret: int, fmt: FrameFmt)
      requires Valid()
      modifies this`curMode, this`tryFmt, this`hblank, this`vblank
      ensures Valid()
      ensures ret == if which == Try && !subdevApi then -ENOTTY else 0
      ensures fmt.code == MEDIA_BUS_FMT_SGRBG10_1X10 && fmt.field == V4L2_FIELD_NONE
      ensures exists k :: Chosen(k, req.width, req.height) && fmt == ModeFormat(k)
      ensures which == Try ==>
        && curMode == old(curMode) && hblank == old(hblank) && vblank == old(vblank)
        && tryFmt == if subdevApi then fmt else old(tryFmt)
      ensures which == Active ==>
        && Chosen(curMode, req.width, req.height) && fmt == ModeFormat(curMode)
        && tryFmt == old(tryFmt)
        && hblank == HBlankRange(SupportedModes[curMode])
        && vblank == VBlankRange(SupportedModes[curMode])
    {
      var k := FindBestFit(req.width, req.height);
      fmt := ModeFormat(k);
      assert Chosen(k, req.width, req.height);
      if which == Try {
        if subdevApi {
          tryFmt := fmt;
        } else {
          return -ENOTTY, fmt;
        }
      } else {
        curMode := k;
        hblank := HBlankRange(SupportedModes[k]);
        vblank := VBlankRange(SupportedModes[k]);
      }
      ret := 0;
    }

    /** `ov13b10_get_fmt`: the current mode's format, or the try format. Without the
        sub-device API a try request fails with `-ENOTTY` and leaves the format as given. */
    method GetFmt(which: Which, req: FrameFmt) returns (ret: int, fmt: FrameFmt)
      requires Valid()
      ensures which == Active ==> ret == 0 && fmt == ModeFormat(curMode)
      ensures which == Try && subdevApi ==> ret == 0 && fmt == tryFmt
      ensures which == Try && !subdevApi ==> ret == -ENOTTY && fmt == req
    {
      if which == Try {
        if subdevApi {
          return 0, tryFmt;
        }
        return -ENOTTY, req;
      }
      var m := SupportedModes[curMode];
      fmt := FrameFmt(m.width, m.height, MEDIA_BUS_FMT_SGRBG10_1X10, V4L2_FIELD_NONE);
      ret := 0;
    }

    /** `ov13b10_g_frame_interval`: the current mode's maximum frame rate, which is the
        interval the frame-interval enumeration reports for that mode. */
    function GFrameInterval(): (r: Fract)
      requires Valid()
      reads this
      ensures EnumFrameInterval(curMode as u32).Ok?
      ensures r == EnumFrameInterval(curMode as u32).value.interval
    {
      SupportedModes[curMode].maxFps
    }

    /** `ov13b10_enable_test_pattern`. */
    method EnableTestPattern(pattern: u32) returns (ret: int)
      modifies bus
      ensures bus.log == old(bus.log) +
        [WriteTransfer(OV13B10_REG_TEST_PATTERN, 1, TestPatternValue(pattern), bus.Acks(|old(bus.log)|))]
      ensures ret == if bus.Acks(|old(bus.log)|) then 0 else -EIO
    {
      ret := WriteReg(bus, OV13B10_REG_TEST_PATTERN, 1, TestPatternValue(pattern));
    }

    /** `__ov13b10_start_stream`. */
    method StartStream(ctrlSetup: int) returns (ret: int)
      requires Valid()
      modifies bus
      ensures ret == StartStreamRun(modeRegs[curMode], ctrlSetup, |old(bus.log)|, bus.nak).ret
      ensures bus.log == old(bus.log) + StartStreamRun(modeRegs[curMode], ctrlSetup, |old(bus.log)|, bus.nak).sent
    {
      ret := WriteArray(bus, modeRegs[curMode]);
      if ret != 0 {
        return;
      }
      // v4l2_ctrl_handler_setup, run with the mutex released
      ret := ctrlSetup;
      if ret != 0 {
        return;
      }
      ret := WriteReg(bus, OV13B10_REG_CTRL_MODE, 1, OV13B10_MODE_STREAMING);
    }

    /** `__ov13b10_stop_stream`. */
    method StopStream() returns (ret: int)
      modifies bus
      ensures bus.log == old(bus.log) +
        [WriteTransfer(OV13B10_REG_CTRL_MODE, 1, OV13B10_MODE_SW_STANDBY, bus.Acks(|old(bus.log)|))]
      ensures ret == if bus.Acks(|old(bus.log)|) then 0 else -EIO
    {
      ret := WriteReg(bus, OV13B10_REG_CTRL_MODE, 1, OV13B10_MODE_SW_STANDBY);
    }

    /** `ov13b10_s_stream`. Asking for the state the sensor is already in does nothing.
        Starting takes a runtime-PM reference (`pmGet` is what `pm_runtime_get_sync`
        returns) and runs the start sequence; the flag is set only if both succeed.
        Stopping writes standby, ignores its result, and always clears the flag. */
    method SStream(on: int, pmGet: int, ctrlSetup: int) returns (ret: int)
      requires Valid()
      modifies this`streaming, bus
      ensures Valid()
      ensures streaming == if ret == 0 then on != 0 else old(streaming)
      ensures (on != 0) == old(streaming) ==> ret == 0 && bus.log == old(bus.log)
      ensures on != 0 && !old(streaming) && pmGet < 0 ==> ret == pmGet && bus.log == old(bus.log)
      ensures on != 0 && !old(streaming) && pmGet >= 0 ==>
        && ret == StartStreamRun(modeRegs[curMode], ctrlSetup, |old(bus.log)|, bus.nak).ret
        && bus.log == old(bus.log) + StartStreamRun(modeRegs[curMode], ctrlSetup, |old(bus.log)|, bus.nak).sent
      ensures on == 0 && old(streaming) ==>
        && ret == 0
        && bus.log == old(bus.log) +
             [WriteTransfer(OV13B10_REG_CTRL_MODE, 1, OV13B10_MODE_SW_STANDBY, bus.Acks(|old(bus.log)|))]
    {
      var onFlag := on != 0;
      if onFlag == streaming {
        return 0;
      }
      if onFlag {
        ret := pmGet;
        if ret < 0 {
          return;
        }
        ret := StartStream(ctrlSetup);
        if ret != 0 {
          return;
        }
      } else {
        var _ := StopStream();
        ret := 0;
      }
      streaming := onFlag;
    }

    /** `ov13b10_s_power`. Asking for the state the sensor is already in does nothing.
        Powering up takes a runtime-PM reference and writes the global register list;
        the flag is set only if both succeed. Powering down always clears it. */
    method SPower(on: int, pmGet: int) returns (ret: int)
      requires Valid()
      modifies this`powerOn, bus
      ensures Valid()
      ensures powerOn == if ret == 0 then on != 0 else old(powerOn)
      ensures (on != 0) == old(powerOn) ==> ret == 0 && bus.log == old(bus.log)
      ensures on != 0 && !old(powerOn) && pmGet < 0 ==> ret == pmGet && bus.log == old(bus.log)
      ensures on != 0 && !old(powerOn) && pmGet >= 0 ==>
        && ret == RunFrom(globalRegs, 0, |old(bus.log)|, bus.nak).ret
        && bus.log == old(bus.log) + RunFrom(globalRegs, 0, |old(bus.log)|, bus.nak).sent
      ensures on == 0 && old(powerOn) ==> ret == 0 && bus.log == old(bus.log)
    {
      if powerOn == (on != 0) {
        return 0;
      }
      if on != 0 {
        ret := pmGet;
        if ret < 0 {
          return;
        }
        ret := WriteArray(bus, globalRegs);
        if ret != 0 {
          return;
        }
        powerOn := true;
      } else {
        powerOn := false;
        ret := 0;
      }
    }

    /** `ov13b10_ioctl`: module information, or a quick stream switch that writes the
        streaming bit directly without touching the streaming flag. */
    method Ioctl(cmd: IoctlCmd, arg: u32) returns (ret: int, inf: ModuleInf)
      modifies bus
      ensures cmd == GetModuleInfo ==>
        ret == 0 && inf == ModuleInf(OV13B10_NAME, moduleName, lensName) && bus.log == old(bus.log)
      ensures cmd == SetQuickStream ==>
        && bus.log == old(bus.log) +
             [WriteTransfer(OV13B10_REG_CTRL_MODE, 1,
                            if arg != 0 then OV13B10_MODE_STREAMING else OV13B10_MODE_SW_STANDBY,
                            bus.Acks(|old(bus.log)|))]
        && ret == if bus.Acks(|old(bus.log)|) then 0 else -EIO
      ensures cmd.OtherCmd? ==> ret == -ENOIOCTLCMD && bus.log == old(bus.log)
    {
      inf := ModuleInf("", "", "");
      match cmd
      case GetModuleInfo =>
        inf := ModuleInf(OV13B10_NAME, moduleName, lensName);
        ret := 0;
      case SetQuickStream =>
        if arg != 0 {
          ret := WriteReg(bus, OV13B10_REG_CTRL_MODE, 1, OV13B10_MODE_STREAMING);
        } else {
          ret := WriteReg(bus, OV13B10_REG_CTRL_MODE, 1, OV13B10_MODE_SW_STANDBY);
        }
      case OtherCmd(_) =>
        ret := -ENOIOCTLCMD;
    }

    /** `ov13b10_set_ctrl`. A vertical blanking change first moves the exposure limit
        to `height + vblank - 16`. The register write happens only while the device is
        in use (`inUse` is what `pm_runtime_get_if_in_use` says); unknown controls are
        ignored with success. */
    method SetCtrl(id: CtrlId, val: s32, inUse: bool) returns (ret: int)
      requires Valid()
      modifies this`exposure, bus
      ensures Valid()
      ensures id == VBlank ==>
        exposure == old(exposure).(max := ExposureMax(SupportedModes[curMode].height, val))
      ensures id != VBlank ==> exposure == old(exposure)
      ensures !inUse || id.OtherCtrl? ==> ret == 0 && bus.log == old(bus.log)
      ensures inUse && id == Exposure ==>
        && bus.log == old(bus.log) + [WriteTransfer(OV13B10_REG_EXPOSURE, 3, U32(val), bus.Acks(|old(bus.log)|))]
        && ret == if bus.Acks(|old(bus.log)|) then 0 else -EIO
      ensures inUse && id == AnalogueGain ==>
        && bus.log == old(bus.log) +
             [WriteTransfer(OV13B10_REG_GAIN_H, 1, GainRegs(val).0, bus.Acks(|old(bus.log)|)),
              WriteTransfer(OV13B10_REG_GAIN_L, 1, GainRegs(val).1, bus.Acks(|old(bus.log)| + 1))]
        && ret == if bus.Acks(|old(bus.log)|) && bus.Acks(|old(bus.log)| + 1) then 0 else -EIO
      ensures inUse && id == VBlank ==>
        && bus.log == old(bus.log) +
             [WriteTransfer(OV13B10_REG_VTS, 2, VtsValue(SupportedModes[curMode].height, val), bus.Acks(|old(bus.log)|))]
        && ret == if bus.Acks(|old(bus.log)|) then 0 else -EIO
      ensures inUse && id == TestPattern ==>
        && bus.log == old(bus.log) +
             [WriteTransfer(OV13B10_REG_TEST_PATTERN, 1, TestPatternValue(U32(val)), bus.Acks(|old(bus.log)|))]
        && ret == if bus.Acks(|old(bus.log)|) then 0 else -EIO
    {
      var height := SupportedModes[curMode].height;
      if id == VBlank {
        exposure := exposure.(max := ExposureMax(height, val));
      }
      if !inUse {
        return 0;
      }
      match id
      case Exposure =>
        ret := WriteReg(bus, OV13B10_REG_EXPOSURE, 3, U32(val));
      case AnalogueGain =>
        var (hi, lo) := GainRegs(val);
        var r1 := WriteReg(bus, OV13B10_REG_GAIN_H, 1, hi);
        var r2 := WriteReg(bus, OV13B10_REG_GAIN_L, 1, lo);
        ret := OrRet(r1, r2);
      case VBlank =>
        ret := WriteReg(bus, OV13B10_REG_VTS, 2, VtsValue(height, val));
      case TestPattern =>
        ret := EnableTestPattern(U32(val));
      case OtherCtrl(_) =>
        ret := 0;
    }
  }
}
