/** The I2C adapter the driver talks through, reduced to what the driver sees:
    a transfer is either acknowledged by the sensor or not, and every transfer the
    driver starts is recorded in order. Behind the bus sits an idealised sensor
    register file: an acknowledged write stores its value bytes at consecutive
    register addresses, and a combined write-then-read returns bytes from there. */
module I2c {
  import opened KernelTypes
  import opened RegWire

  /** `Send` is one `i2c_master_send`; `WriteRead` is the two-message `i2c_transfer`
      (write the address bytes, then read `readLen` bytes). */
  datatype Msg = Send(bytes: seq<byte>) | WriteRead(addr: seq<byte>, readLen: nat)

  datatype Transfer = Transfer(msg: Msg, acked: bool)

  /** A register the sensor was never given reads as zero. */
  function Peek(mem: map<int, byte>, a: int): byte
  {
    if a in mem then mem[a] else 0
  }

  /** Writing `data` from register `addr` on, one register per byte. */
  function Store(mem: map<int, byte>, addr: int, data: seq<byte>): (m: map<int, byte>)
    ensures forall a :: (a < addr || a >= addr + |data|) ==> Peek(m, a) == Peek(mem, a)
    decreases |data|
  {
    if data == [] then mem else Store(mem[addr := data[0]], addr + 1, data[1..])
  }

  /** Reading `n` consecutive registers from `addr` on. */
  function Load(mem: map<int, byte>, addr: int, n: nat): (bs: seq<byte>)
    ensures |bs| == n
    ensures forall i :: 0 <= i < n ==> bs[i] == Peek(mem, addr + i)
  {
    seq<byte>(n, i => Peek(mem, addr + i))
  }

  /** The register address a write message names. */
  function MsgAddr(bytes: seq<byte>): int
    requires |bytes| >= 2
  {
    (bytes[0] as int) * 256 + bytes[1]
  }

  /** The sensor's registers after the acknowledged writes of `log`, starting from `mem`. */
  function Replay(mem: map<int, byte>, log: seq<Transfer>): map<int, byte>
  {
    if log == [] then mem
    else
      var m := Replay(mem, log[..|log| - 1]);
      var t := log[|log| - 1];
      if t.acked && t.msg.Send? && |t.msg.bytes| >= 2
      then Store(m, MsgAddr(t.msg.bytes), t.msg.bytes[2..])
      else m
  }

  lemma {:induction false} StoreThenLoad(mem: map<int, byte>, addr: int, data: seq<byte>)
    ensures Load(Store(mem, addr, data), addr, |data|) == data
    decreases |data|
  {
    if data != [] {
      var rest := Store(mem[addr := data[0]], addr + 1, data[1..]);
      StoreThenLoad(mem[addr := data[0]], addr + 1, data[1..]);
      assert Peek(rest, addr) == data[0];
      forall i | 0 <= i < |data|
        ensures Load(rest, addr, |data|)[i] == data[i]
      {
        if i > 0 {
          assert Load(rest, addr + 1, |data| - 1)[i - 1] == data[1..][i - 1];
        }
      }
    }
  }

  class I2cBus {
    /** The sensor's registers before the first transfer. */
    const initial: map<int, byte>
    /** Positions in the log at which the sensor does not acknowledge. */
    const nak: set<nat>
    /** Every transfer started, in order. */
    var log: seq<Transfer>

    constructor (initial: map<int, byte>, nak: set<nat>)
      ensures this.initial == initial && this.nak == nak && log == []
    {
      this.initial := initial;
      this.nak := nak;
      log := [];
    }

    /** Whether the transfer started at log position `pos` is acknowledged. */
    function Acks(pos: nat): bool
    {
      pos !in nak
    }

    function Registers(): map<int, byte>
      reads this
    {
      Replay(initial, log)
    }

    /** `i2c_master_send`: the number of bytes sent, or `-EREMOTEIO` when not acknowledged. */
    method MasterSend(bytes: seq<byte>) returns (n: int)
      modifies this
      ensures log == old(log) + [Transfer(Send(bytes), Acks(|old(log)|))]
      ensures n == if Acks(|old(log)|) then |bytes| else -EREMOTEIO
    {
      var acked := Acks(|log|);
      log := log + [Transfer(Send(bytes), acked)];
      n := if acked then |bytes| else -EREMOTEIO;
    }

    /** `i2c_transfer` of an address write followed by a read: the number of messages
        completed (two) and the bytes read, or `-EREMOTEIO` when not acknowledged. */
    method TransferWriteRead(addr: seq<byte>, readLen: nat) returns (n: int, data: seq<byte>)
      requires |addr| == 2
      modifies this
      ensures log == old(log) + [Transfer(WriteRead(addr, readLen), Acks(|old(log)|))]
      ensures Registers() == old(Registers())
      ensures Acks(|old(log)|) ==> n == 2 && data == Load(Registers(), MsgAddr(addr), readLen)
      ensures !Acks(|old(log)|) ==> n == -EREMOTEIO && data == []
    {
      var acked := Acks(|log|);
      ghost var before := log;
      log := log + [Transfer(WriteRead(addr, readLen), acked)];
      assert log[..|log| - 1] == before;
      if acked {
        n, data := 2, Load(Registers(), MsgAddr(addr), readLen);
      } else {
        n, data := -EREMOTEIO, [];
      }
    }
  }
}
