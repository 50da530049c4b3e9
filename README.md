# ov13b10 sensor driver core, in Dafny

A model of the sequential core of the Linux V4L2 sub-device driver for the OmniVision
OV13B10 13-megapixel camera sensor (`drivers/media/i2c/ov13b10.c`). The model covers:

- register access over I2C: big-endian write and read messages of one to four value
  bytes, and the writer of `REG_NULL`-terminated register lists;
- the table of five output modes, the nearest-mode search used by `set_fmt`, and the
  pad enumerations (media-bus code, frame sizes, frame intervals);
- the arithmetic behind the controls: the analogue gain split, the test-pattern
  register value, frame length (VTS) and exposure limit from vertical blanking, the
  blanking ranges of a mode, and the clock-cycle delay `cal_delay`;
- the sub-device object itself (`Sensor.Ov13b10`): current mode, try format, control
  ranges, and the `streaming` and `power_on` flags, with `set_fmt`, `get_fmt`,
  `g_frame_interval`, `s_stream`, `s_power`, the private ioctl and `set_ctrl`.

Files:

- `kernel_types.dfy`: C integer widths, `u32` wrap-around, errno values.
- `reg_wire.dfy`: the byte layout of a register write and its round trip.
- `i2c_bus.dfy`: the bus.
- `reg_io.dfy`: `write_reg`, `read_reg`, `write_array`.
- `modes.dfy`: the mode table, distance, best fit and enumerations.
- `controls.dfy`: the control arithmetic.
- `sensor.dfy`: the driver object.

How the bus is modelled. The I2C adapter is a class `I2c.I2cBus`:

- It records every transfer the driver starts, in order, with whether the sensor
  acknowledged it.
- Which log positions are not acknowledged is a fixed set chosen when the bus is built.
  This makes every failure pattern a possible input.
- Behind the bus sits an idealised register file. Acknowledged writes store their value
  bytes there, and a write-then-read returns bytes from it.

Results the driver gets from kernel services are parameters of the methods:

- `pm_runtime_get_sync` is `pmGet`;
- `v4l2_ctrl_handler_setup` is `ctrlSetup`;
- `pm_runtime_get_if_in_use` is `inUse`.

C arithmetic is written out:

- `u32` subtraction wraps modulo 2^32;
- the kernel's `abs()` converts an unsigned argument to `int`;
- `int` arithmetic wraps, because the kernel is built with `-fno-strict-overflow`.

## Model

| member | source | states |
|---|---|---|
| RegWire.FillWriteBuffer | drivers/media/i2c/ov13b10.c:578-587 | the loop copying `val_p[4-len..4)` into `buf[2..]` after the two address bytes produces exactly the write message: address high byte, low byte, then the low `len` bytes of the value, most significant first |
| RegWire.PayloadRoundTrip | drivers/media/i2c/ov13b10.c:581-587 | the value bytes of a write are `len` long and read back big-endian as `val mod 256^len`; they give `val` itself when it fits in `len` bytes |
| RegWire.WriteMessageRoundTrip | drivers/media/i2c/ov13b10.c:565-593 | a write message is `len + 2` bytes; its first two bytes recombine to the register address; decoding it gives the address and `val mod 256^len` |
| RegWire.BigEndianBound | drivers/media/i2c/ov13b10.c:633-639 | a value read from `n` bytes is below `256^n` |
| RegIo.WriteReg | drivers/media/i2c/ov13b10.c:565-593 | `len > 4` gives `-EINVAL` and sends nothing; otherwise exactly one message of `len + 2` bytes goes out, and the result is 0 if it is acknowledged and `-EIO` if not |
| RegIo.ReadReg | drivers/media/i2c/ov13b10.c:610-642 | `len == 0` or `len > 4` gives `-EINVAL` and sends nothing. Otherwise one address-write-then-read transfer goes out. On acknowledgement the value is the big-endian reading of the `len` registers and is below `256^len`. On failure the result is `-EIO` and the caller's value is untouched |
| RegIo.WriteThenReadBack | drivers/media/i2c/ov13b10.c:565-642 | through an ideal register file, a `len`-byte write followed by a `len`-byte read of the same register returns `val mod 256^len` |
| RegIo.RunFromShape | drivers/media/i2c/ov13b10.c:595-607 | register-list writes send the entries before the sentinel in list order, one byte each. They return 0 exactly when every entry before the sentinel is acknowledged. Otherwise they return `-EIO` right after the first unacknowledged entry, and nothing after it is sent |
| RegIo.WriteArray | drivers/media/i2c/ov13b10.c:595-607 | the loop `ret == 0 && regs[i].addr != REG_NULL` sends exactly the transfers of the register-list specification and returns its result |
| Modes.Abs32 | drivers/media/i2c/ov13b10.c:647-648 | the kernel's `abs()` on an `int`: the magnitude, except that the most negative value maps to itself |
| Modes.ResoDistIsL1 | drivers/media/i2c/ov13b10.c:644-649 | `ResoDist`, the model of `ov13b10_get_reso_dist` (`u32` differences, `abs()` on `int`, wrapping `int` sum), equals the L1 distance `abs(width - W) + abs(height - H)` for sizes below 2^30 |
| Modes.SmallTable | drivers/media/i2c/ov13b10.c:491-550 | every entry of the mode table is below 2^30 in both dimensions |
| Modes.SmallRequestNoClash | drivers/media/i2c/ov13b10.c:656-662 | for requests below 2^30 no table distance equals the loop's starting value -1 |
| Modes.BestFitUnique | drivers/media/i2c/ov13b10.c:660-666 | the least-distance entry with every earlier entry strictly farther is unique: ties go to the lowest index |
| Modes.FindBestFit | drivers/media/i2c/ov13b10.c:651-669 | the result indexes the table. Unless some entry's distance equals -1, it is the first entry of least distance. For requests below 2^30 it has least L1 distance. A request equal to a table size gets that entry |
| Modes.BestFitChoice | drivers/media/i2c/ov13b10.c:651-669 | the least-distance choice has least L1 distance for requests below 2^30, and a request naming a table size gets that entry |
| Modes.BestFitIsNearest | drivers/media/i2c/ov13b10.c:644-669 | for requests below 2^30 the best fit minimises the L1 distance over the whole table |
| Modes.TableSizesAreExactFits | drivers/media/i2c/ov13b10.c:644-669 | each table size is its own best fit, so setting an enumerated size keeps it |
| Modes.EnumMbusCode | drivers/media/i2c/ov13b10.c:735-744 | succeeds exactly for index 0, with SGRBG10_1X10; any other index gives `-EINVAL` |
| Modes.EnumFrameSizes | drivers/media/i2c/ov13b10.c:746-762 | succeeds exactly when the index is below 5 and the code is SGRBG10_1X10 (otherwise `-EINVAL`); the minimum and maximum width and height are the mode's |
| Modes.EnumFrameInterval | drivers/media/i2c/ov13b10.c:1104-1116 | succeeds exactly when the index is below 5 (otherwise `-EINVAL`) and reports that mode's `max_fps` |
| Modes.EnumerationsAgree | drivers/media/i2c/ov13b10.c:735-762 | frame-interval enumeration (`ov13b10_enum_frame_interval`, lines 1104-1116) and frame-size enumeration succeed for the same indices and report the same code and sizes; every enumerated size is a size `set_fmt` keeps |
| Controls.GainRegs | drivers/media/i2c/ov13b10.c:1194-1203 | the high gain byte is below 8; for gains in `[0x80, 0x7c0]` `hi * 256 + lo` is the gain |
| Controls.TestPatternValue | drivers/media/i2c/ov13b10.c:764-777 | pattern 0 writes 0; pattern `p` in `1..0x80` writes `p - 1` with bit 7 set, that is `p - 1 + 0x80` |
| Controls.TestPatternRoundTrip | drivers/media/i2c/ov13b10.c:764-777 | the one byte written for a pattern up to 0x80 identifies the pattern again |
| Controls.VBlankArithmetic | drivers/media/i2c/ov13b10.c:1175-1209 | for every vertical blanking in a mode's range: VTS is `vblank + height`, lies between `vts_def` and `0x7fff`, and its two written bytes carry it exactly; the exposure limit is VTS minus 16 |
| Controls.BlankingRanges | drivers/media/i2c/ov13b10.c:694-701 | the vertical blanking range of each mode is proper and its default gives a frame of `vts_def` lines. The horizontal blanking `hts_def - width` wraps in `u32` to `2^32 + hts_def - width`, at least 2^31 |
| Controls.CalDelay | drivers/media/i2c/ov13b10.c:982-985 | `ceil(cycles / 24)` for cycles up to `0xFFFFFFE8`; above that the `u32` sum wraps and the result is 0 |
| Controls.OrRet | drivers/media/i2c/ov13b10.c:1194-1203 | OR-ing the two gain write results gives 0 exactly when both writes succeeded, and `-EIO` otherwise |
| Sensor.StartStreamOutcome | drivers/media/i2c/ov13b10.c:880-898 | starting the stream succeeds exactly when every mode-list write is acknowledged, the control setup succeeds and the streaming write is acknowledged. On success the mode list is sent in order and the streaming bit is written last |
| Sensor.Ov13b10.constructor | drivers/media/i2c/ov13b10.c:1229-1296 | a new sensor is at mode 0, not streaming and not powered. Its horizontal blanking, vertical blanking and exposure ranges are those of mode 0 |
| Sensor.Ov13b10.Open | drivers/media/i2c/ov13b10.c:1085-1101 | opening sets the try format to mode 0's size, SGRBG10_1X10, no field |
| Sensor.Ov13b10.SetFmt | drivers/media/i2c/ov13b10.c:671-707 | the returned format is the chosen mode's size with SGRBG10_1X10 and no field. TRY stores it as the try format, or gives `-ENOTTY` without the sub-device API, and leaves the mode and ranges alone. ACTIVE makes the chosen mode current and sets the horizontal and vertical blanking ranges from it |
| Sensor.Ov13b10.GetFmt | drivers/media/i2c/ov13b10.c:709-733 | ACTIVE gives the current mode's format; TRY gives the try format, or `-ENOTTY` without the sub-device API |
| Sensor.Ov13b10.GFrameInterval | drivers/media/i2c/ov13b10.c:779-788 | the current mode's `max_fps`, the interval the enumeration reports for that mode |
| Sensor.Ov13b10.EnableTestPattern | drivers/media/i2c/ov13b10.c:764-777 | one 1-byte write of the pattern's register value to 0x5080 |
| Sensor.Ov13b10.StartStream | drivers/media/i2c/ov13b10.c:880-898 | sends the current mode's list, then, if the list and the control setup succeeded, the streaming write; the result is that of the first failing step |
| Sensor.Ov13b10.StopStream | drivers/media/i2c/ov13b10.c:900-906 | one 1-byte write of standby (0) to 0x0100 |
| Sensor.Ov13b10.SStream | drivers/media/i2c/ov13b10.c:908-943 | asking for the current state returns 0 and sends nothing. Starting fails with the PM result when it is negative, and otherwise runs the start sequence. Stopping writes standby and succeeds whatever the write returns. The flag becomes `on` exactly when the result is 0 and is unchanged otherwise |
| Sensor.Ov13b10.SPower | drivers/media/i2c/ov13b10.c:945-980 | asking for the current state returns 0 and sends nothing. Powering up fails with the PM result when it is negative, and otherwise writes the global register list. Powering down sends nothing. The flag becomes `on` exactly when the result is 0 |
| Sensor.Ov13b10.Ioctl | drivers/media/i2c/ov13b10.c:800-829 | module info returns the sensor, module and lens names. Quick stream writes 1 or 0 to 0x0100 for a non-zero or zero argument, without changing the streaming flag. Any other command gives `-ENOIOCTLCMD` and sends nothing |
| Sensor.Ov13b10.SetCtrl | drivers/media/i2c/ov13b10.c:1166-1223 | a vertical blanking change first moves the exposure maximum to `height + vblank - 16` (in `u32`); nothing is written when the device is not in use. Exposure writes 3 bytes to 0x3500; gain writes the high and low bytes to 0x350a/0x350b; vertical blanking writes `vblank + height` to 0x380e in 2 bytes; test pattern goes through `enable_test_pattern`. Other controls succeed and send nothing |

## Left out

- Power sequencing (`__ov13b10_power_on`/`__ov13b10_power_off`, runtime suspend and resume): GPIOs, clocks, regulators, pinctrl and sleeps are hardware timing against kernel services. `cal_delay` is modelled on its own.
- Runtime-PM reference counting and the mutex: only the results of `pm_runtime_get_sync`, `pm_runtime_get_if_in_use` and `v4l2_ctrl_handler_setup` enter the model, as parameters. Each operation runs as one atomic step. The unlock and relock around the control setup is not modelled.
- The V4L2 control framework: a range set by `__v4l2_ctrl_modify_range` or created by `v4l2_ctrl_new_std` is recorded as a tuple. The framework's own checks are not modelled, such as rejecting or clamping the wrapped horizontal blanking. The register writes `v4l2_ctrl_handler_setup` makes through `set_ctrl` are not in the bus log.
- The link-frequency, pixel-rate and read-only flags of the controls, `g_mbus_config`, and the compat ioctl (`copy_from_user`/`copy_to_user`) are not modelled.
- Probe and remove: device-tree reads, resource acquisition, chip-id check and media-entity registration. The constructor takes the state probe leaves (mode 0, module and lens names, the register lists).
- The contents of the register tables. The driver's global and per-mode lists are parameters of the constructor, and every one must contain a `REG_NULL` entry. The lists shipped in the driver have no such entry, and the model does not claim they do.
- `i2c_master_send` and `i2c_transfer` themselves: an unacknowledged transfer returns `-EREMOTEIO`. The driver maps any short result to `-EIO`, so only the acknowledgement matters. The sensor behind the bus is an ideal register file: 16-bit address wrap and the sensor's real register semantics are not modelled.
- Sensor.Ov13b10.Ioctl: the module-info strings are returned whole. The `strlcpy` truncation to the sizes of `struct rkmodule_inf` is not modelled; `rk-camera-module.h` is not part of this model.
- Modes.FindBestFit: when some table entry's wrapped distance is exactly -1, which needs a request size of at least 2^30, the contract says only that the result is a valid index. The loop then treats that entry as "nothing chosen yet".
- Sensor.Ov13b10.SetFmt: the try format is modelled for a single sub-device state and pad. The driver keeps one per file handle's state and per pad, so in the model a TRY `set_fmt` on one handle changes what a TRY `get_fmt` on another handle returns.
- Sensor.Ov13b10.SetFmt: an ACTIVE request that changes the vertical blanking range does not model what `__v4l2_ctrl_modify_range` does next. The framework clamps the current vertical blanking into the new range, for example from mode 0 to mode 3. When the value changes, it calls `set_ctrl` for it, which moves the exposure maximum and, while the device is in use, writes VTS to 0x380e. The model leaves `exposure` and the bus log unchanged there; a caller can follow with `SetCtrl(VBlank, ...)` to get that effect.
- Sensor.Ov13b10.GetFmt: the TRY format read back is the single modelled try format, not the one of the requesting file handle's state and pad.
- Sensor.Ov13b10.Open: initialises the single modelled try format, not a per-file-handle one.
- Sensor.Ov13b10.SetCtrl: for vertical blanking the contract promises only the VTS write. The exposure-range update before it goes through `__v4l2_ctrl_modify_range`. That call clamps the current exposure into the new range and, when the value changes, calls `set_ctrl` for the exposure control. While the device is in use, that nested call writes the clamped exposure to 0x3500 (3 bytes) before the VTS write. The model does not track control values, so it cannot know when the clamp happens, and this nested write is not in the bus log.
- Sensor.Ov13b10.SStream: the `set_ctrl` calls made by `v4l2_ctrl_handler_setup` on the start path are not modelled. That includes the one for vertical blanking, which recomputes the exposure maximum from the current mode's height. The model leaves `exposure` unchanged there.
- Sensor.Ov13b10.SetCtrl: the control framework keeps the value in range before calling `set_ctrl`. The model accepts any `s32` and writes out the driver's arithmetic on it.
