/** Register access of the ov13b10 driver over the I2C bus: single register writes
    and reads of one to four bytes, and writing a `REG_NULL`-terminated register list. */
module RegIo {
  import opened KernelTypes
  import opened RegWire
  import opened I2c

  /** One entry of a register list: a 16-bit address and the byte to write there. */
  datatype RegVal = RegVal(addr: u16, val: byte)

  /** The address that ends a register list. */
  const REG_NULL: u16 := 0xFFFF

  /** What a register-list write returns and the transfers it starts. */
  datatype Run = Run(ret: int, sent: seq<Transfer>)

  function WriteTransfer(reg: u16, len: nat, val: u32, acked: bool): Transfer
    requires len <= 4
  {
    Transfer(Send(WriteMessage(reg, len, val)), acked)
  }

  /** `ov13b10_write_reg`. Lengths above four are refused without touching the bus;
      otherwise one message of `len + 2` bytes is sent and a short send is `-EIO`. */
  method WriteReg(bus: I2cBus, reg: u16, len: u32, val: u32) returns (ret: int)
    modifies bus
    ensures len > 4 ==> ret == -EINVAL && bus.log == old(bus.log)
    ensures len <= 4 ==>
      bus.log == old(bus.log) + [WriteTransfer(reg, len, val, bus.Acks(|old(bus.log)|))]
    ensures len <= 4 ==> ret == if bus.Acks(|old(bus.log)|) then 0 else -EIO
  {
    if len > 4 {
      return -EINVAL;
    }
    var buf := FillWriteBuffer(reg, len, val);
    WriteMessageRoundTrip(reg, len, val);
    var n := bus.MasterSend(buf);
    if n != len + 2 {
      return -EIO;
    }
    return 0;
  }

  /** `ov13b10_read_reg`. Lengths of zero or above four are refused; otherwise the
      address is written and `len` bytes are read into the low end of a zeroed
      big-endian word. On failure the caller's value is left as it was. */
  method ReadReg(bus: I2cBus, reg: u16, len: u32, prev: u32) returns (ret: int, val: u32)
    modifies bus
    ensures (len == 0 || len > 4) ==> ret == -EINVAL && val == prev && bus.log == old(bus.log)
    ensures 1 <= len <= 4 ==>
      bus.log == old(bus.log) + [Transfer(WriteRead([reg / 256, reg % 256], len), bus.Acks(|old(bus.log)|))]
    ensures 1 <= len <= 4 && bus.Acks(|old(bus.log)|) ==>
      ret == 0 && val == BigEndian(Load(old(bus.Registers()), reg, len)) && val < Pow256(len)
    ensures 1 <= len <= 4 && !bus.Acks(|old(bus.log)|) ==> ret == -EIO && val == prev
  {
    if len > 4 || len == 0 {
      return -EINVAL, prev;
    }
    var regAddrBe := [reg / 256, reg % 256];
    var n, data := bus.TransferWriteRead(regAddrBe, len);
    if n != 2 {
      return -EIO, prev;
    }
    var zeros: seq<byte> := [0, 0, 0, 0];
    var dataBe := zeros[..4 - len] + data;
    BigEndianLeadingZeros(zeros[..4 - len], data);
    BigEndianBound(data);
    assert Pow256(len) <= Pow256(4) == 0x1_0000_0000;
    ret, val := 0, BigEndian(dataBe);
  }

  /** A register list the write loop can walk: some entry is the `REG_NULL` sentinel. */
  predicate Terminated(regs: seq<RegVal>)
  {
    exists k :: 0 <= k < |regs| && regs[k].addr == REG_NULL
  }

  function FirstNullFrom(regs: seq<RegVal>, i: nat): (k: nat)
    requires i <= |regs|
    requires exists k :: i <= k < |regs| && regs[k].addr == REG_NULL
    ensures i <= k < |regs| && regs[k].addr == REG_NULL
    ensures forall j :: i <= j < k ==> regs[j].addr != REG_NULL
    decreases |regs| - i
  {
    if regs[i].addr == REG_NULL then i else FirstNullFrom(regs, i + 1)
  }

  /** The position of the sentinel: the number of entries the loop may write. */
  function FirstNull(regs: seq<RegVal>): (k: nat)
    requires Terminated(regs)
    ensures k < |regs| && regs[k].addr == REG_NULL
    ensures forall j :: 0 <= j < k ==> regs[j].addr != REG_NULL
  {
    FirstNullFrom(regs, 0)
  }

  /** The transfers and the result of writing `regs` from entry `i` on, when the
      transfer for entry `j` is started at bus log position `base + j`. */
  function RunFrom(regs: seq<RegVal>, i: nat, base: nat, nak: set<nat>): Run
    decreases |regs| - i
  {
    if i >= |regs| || regs[i].addr == REG_NULL then Run(0, [])
    else
      var t := WriteTransfer(regs[i].addr, 1, regs[i].val, base + i !in nak);
      if base + i in nak then Run(-EIO, [t])
      else
        var rest := RunFrom(regs, i + 1, base, nak);
        Run(rest.ret, [t] + rest.sent)
  }

  /** The transfers of a register-list write are the list's entries in order, one byte
      each, up to the sentinel; the loop returns 0 exactly when every one of them is
      acknowledged, and otherwise stops with `-EIO` right after the first one that is not. */
  lemma {:induction false} RunFromShape(regs: seq<RegVal>, i: nat, base: nat, nak: set<nat>)
    requires Terminated(regs) && i <= FirstNull(regs)
    ensures var r := RunFrom(regs, i, base, nak);
      && i + |r.sent| <= FirstNull(regs)
      && (forall k :: 0 <= k < |r.sent| ==>
            r.sent[k] == WriteTransfer(regs[i + k].addr, 1, regs[i + k].val, base + i + k !in nak))
      && (r.ret == 0 ==> i + |r.sent| == FirstNull(regs))
      && (r.ret == 0 <==> forall p :: base + i <= p < base + FirstNull(regs) ==> p !in nak)
      && (r.ret != 0 ==>
            && r.ret == -EIO && |r.sent| >= 1
            && base + i + |r.sent| - 1 in nak
            && forall p :: base + i <= p < base + i + |r.sent| - 1 ==> p !in nak)
    decreases |regs| - i
  {
    var r := RunFrom(regs, i, base, nak);
    if i == FirstNull(regs) {
      assert r == Run(0, []);
    } else if base + i in nak {
      assert r.sent == [WriteTransfer(regs[i].addr, 1, regs[i].val, false)];
    } else {
      RunFromShape(regs, i + 1, base, nak);
      var rest := RunFrom(regs, i + 1, base, nak);
      assert r.sent == [WriteTransfer(regs[i].addr, 1, regs[i].val, true)] + rest.sent;
      forall k | 0 <= k < |r.sent|
        ensures r.sent[k] == WriteTransfer(regs[i + k].addr, 1, regs[i + k].val, base + i + k !in nak)
      {
        if k > 0 {
          assert r.sent[k] == rest.sent[k - 1];
        }
      }
    }
  }

  /** `ov13b10_write_array`: writes the entries before the sentinel in order, one byte
      each, and stops at the sentinel or at the first write that fails, whose result it returns. */
  method WriteArray(bus: I2cBus, regs: seq<RegVal>) returns (ret: int)
    requires Terminated(regs)
    modifies bus
    ensures bus.log == old(bus.log) + RunFrom(regs, 0, |old(bus.log)|, bus.nak).sent
    ensures ret == RunFrom(regs, 0, |old(bus.log)|, bus.nak).ret
  {
    ghost var base := |bus.log|;
    ghost var whole := RunFrom(regs, 0, base, bus.nak);
    var i := 0;
    ret := 0;
    while ret == 0 && regs[i].addr != REG_NULL
      invariant 0 <= i <= FirstNull(regs)
      invariant |bus.log| == base + i && bus.log[..base] == old(bus.log)
      invariant ret == 0 ==>
        whole == Run(RunFrom(regs, i, base, bus.nak).ret, bus.log[base..] + RunFrom(regs, i, base, bus.nak).sent)
      invariant ret != 0 ==> whole == Run(ret, bus.log[base..])
      decreases FirstNull(regs) - i
    {
      ghost var before := bus.log;
      ret := WriteReg(bus, regs[i].addr, 1, regs[i].val);
      assert bus.log[base..] == before[base..] + [bus.log[base + i]];
      i := i + 1;
    }
    assert bus.log == bus.log[..base] + bus.log[base..];
  }

  /** A write followed by a read of the same register through an ideal register file
      gives back the value reduced to `len` bytes. */
  lemma WriteThenReadBack(mem: map<int, byte>, log: seq<Transfer>, reg: u16, len: nat, val: u32)
    requires 1 <= len <= 4
    ensures BigEndian(Load(Replay(mem, log + [WriteTransfer(reg, len, val, true)]), reg, len))
            == val % Pow256(len)
  {
    var msg := WriteMessage(reg, len, val);
    var full := log + [WriteTransfer(reg, len, val, true)];
    assert full[..|full| - 1] == log;
    WriteMessageRoundTrip(reg, len, val);
    assert msg[2..] == Payload(val, len);
    StoreThenLoad(Replay(mem, log), reg, Payload(val, len));
    PayloadRoundTrip(val, len);
  }
}
