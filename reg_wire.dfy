/** The byte layout of an ov13b10 register access on the I2C wire: a 16-bit
    register address, most significant byte first, followed by the low `len`
    bytes of a 32-bit value, also most significant first. */
module RegWire {
  import opened KernelTypes

  function Pow256(n: nat): (p: nat)
    ensures p >= 1
  {
    if n == 0 then 1 else 256 * Pow256(n - 1)
  }

  /** The value of a byte string read most significant byte first. */
  function BigEndian(bs: seq<byte>): nat
  {
    if bs == [] then 0 else BigEndian(bs[..|bs| - 1]) * 256 + bs[|bs| - 1]
  }

  /** Byte `k` of `val` counted from the least significant one: `(val >> 8k) & 0xff`. */
  function ByteOf(val: nat, k: nat): byte
  {
    if k == 0 then val % 256 else ByteOf(val / 256, k - 1)
  }

  /** The four bytes of `cpu_to_be32(val)` as they lie in memory. */
  function Be32(val: u32): seq<byte>
  {
    [ByteOf(val, 3), ByteOf(val, 2), ByteOf(val, 1), ByteOf(val, 0)]
  }

  /** The value bytes `ov13b10_write_reg` copies: the last `len` bytes of the big-endian image. */
  function Payload(val: u32, len: nat): seq<byte>
    requires len <= 4
  {
    Be32(val)[4 - len..]
  }

  /** The whole message `ov13b10_write_reg` hands to the bus. */
  function WriteMessage(reg: u16, len: nat, val: u32): seq<byte>
    requires len <= 4
  {
    [reg / 256, reg % 256] + Payload(val, len)
  }

  /** The low `n` bytes of `val`, most significant first (a reference definition). */
  function LowBytes(val: nat, n: nat): (bs: seq<byte>)
    ensures |bs| == n
  {
    if n == 0 then [] else LowBytes(val / 256, n - 1) + [val % 256]
  }

  /** A received write message split back into register address and value. */
  function DecodeWrite(msg: seq<byte>): Result<(u16, nat)>
  {
    if |msg| < 2 then Err(-EINVAL) else Ok(((msg[0] as int) * 256 + msg[1], BigEndian(msg[2..])))
  }

  lemma {:induction false} BigEndianBound(bs: seq<byte>)
    ensures BigEndian(bs) < Pow256(|bs|)
  {
    if bs != [] {
      var init := bs[..|bs| - 1];
      BigEndianBound(init);
      assert BigEndian(init) + 1 <= Pow256(|init|);
      assert (BigEndian(init) + 1) * 256 <= Pow256(|init|) * 256;
    }
  }

  /** Leading zero bytes do not change a big-endian value (`data_be` starts as zero in `ov13b10_read_reg`). */
  lemma {:induction false} BigEndianLeadingZeros(z: seq<byte>, bs: seq<byte>)
    requires forall i :: 0 <= i < |z| ==> z[i] == 0
    ensures BigEndian(z + bs) == BigEndian(bs)
  {
    if bs == [] {
      assert z + bs == z;
      ZerosAreZero(z);
    } else {
      var init := bs[..|bs| - 1];
      assert (z + bs)[..|z + bs| - 1] == z + init;
      BigEndianLeadingZeros(z, init);
    }
  }

  lemma {:induction false} ZerosAreZero(z: seq<byte>)
    requires forall i :: 0 <= i < |z| ==> z[i] == 0
    ensures BigEndian(z) == 0
  {
    if z != [] {
      ZerosAreZero(z[..|z| - 1]);
    }
  }

  /** The bytes `ov13b10_write_reg` sends are exactly the low `len` bytes of `val`, most significant first. */
  lemma PayloadIsLowBytes(val: u32, len: nat)
    requires len <= 4
    ensures Payload(val, len) == LowBytes(val, len)
  {
  }

  lemma DivMod256(val: nat, p: nat)
    requires p >= 1
    ensures val % (256 * p) == (val / 256) % p * 256 + val % 256
  {
    var q, r := val / 256, val % 256;
    var a, b := q / p, q % p;
    assert val == 256 * q + r;
    assert q == p * a + b;
    assert val == (256 * p) * a + (256 * b + r);
    assert 0 <= 256 * b + r < 256 * p;
    DivModUnique(val, 256 * p, a, 256 * b + r);
  }

  lemma DivModUnique(x: nat, d: nat, q: nat, r: nat)
    requires d > 0 && x == d * q + r && r < d
    ensures x % d == r
  {
    var q', r' := x / d, x % d;
    if q' < q {
      MulMono(d, q' + 1, q);
    } else if q' > q {
      MulMono(d, q + 1, q');
    }
  }

  lemma MulMono(d: nat, a: nat, b: nat)
    requires a <= b
    ensures d * a <= d * b
  {
  }

  lemma {:induction false} LowBytesValue(val: nat, n: nat)
    ensures BigEndian(LowBytes(val, n)) == val % Pow256(n)
  {
    if n > 0 {
      var bs := LowBytes(val, n);
      assert bs[..|bs| - 1] == LowBytes(val / 256, n - 1);
      LowBytesValue(val / 256, n - 1);
      DivMod256(val, Pow256(n - 1));
    }
  }

  /** Reading back the value bytes of a write yields the value reduced to `len` bytes. */
  lemma PayloadRoundTrip(val: u32, len: nat)
    requires len <= 4
    ensures |Payload(val, len)| == len
    ensures BigEndian(Payload(val, len)) == val % Pow256(len)
    ensures val < Pow256(len) ==> BigEndian(Payload(val, len)) == val
  {
    PayloadIsLowBytes(val, len);
    LowBytesValue(val, len);
    if val < Pow256(len) {
      DivModUnique(val, Pow256(len), 0, val);
    }
  }

  /** Layout and round trip of a complete `ov13b10_write_reg` message. */
  lemma WriteMessageRoundTrip(reg: u16, len: nat, val: u32)
    requires len <= 4
    ensures |WriteMessage(reg, len, val)| == len + 2
    ensures (WriteMessage(reg, len, val)[0] as int) * 256 + WriteMessage(reg, len, val)[1] == reg
    ensures DecodeWrite(WriteMessage(reg, len, val)) == Ok((reg, val % Pow256(len)))
  {
    var msg := WriteMessage(reg, len, val);
    assert msg[2..] == Payload(val, len);
    PayloadRoundTrip(val, len);
  }

  /** The buffer-filling loop of `ov13b10_write_reg`: the address bytes, then the
      value bytes copied one by one out of the big-endian image. */
  method FillWriteBuffer(reg: u16, len: nat, val: u32) returns (msg: seq<byte>)
    requires len <= 4
    ensures msg == WriteMessage(reg, len, val)
  {
    var buf := new byte[6];
    buf[0] := reg / 256;
    buf[1] := reg % 256;
    var valBe := Be32(val);
    var bufI := 2;
    var valI := 4 - len;
    while valI < 4
      invariant 4 - len <= valI <= 4
      invariant bufI == valI - (4 - len) + 2
      invariant buf[0] == reg / 256 && buf[1] == reg % 256
      invariant forall k :: 2 <= k < bufI ==> buf[k] == valBe[k + 2 - len]
    {
      buf[bufI] := valBe[valI];
      bufI := bufI + 1;
      valI := valI + 1;
    }
    msg := buf[..len + 2];
    assert forall k :: 0 <= k < len + 2 ==> msg[k] == WriteMessage(reg, len, val)[k];
  }
}
