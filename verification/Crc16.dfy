/** The CRC of the primary block (bp_crc16 in bp.c): CCITT, most significant bit first. */
module Crc16 {
  import opened Bytes

  const POLY: bv16 := 0x1021
  const INIT: bv16 := 0xFFFF

  function Shift(crc: bv16): bv16 {
    if crc & 0x8000 != 0 then (crc << 1) ^ POLY else crc << 1
  }

  function Shifts(crc: bv16, n: nat): bv16
    decreases n, crc
  {
    if n == 0 then crc else Shifts(Shift(crc), n - 1)
  }

  function Word(b: byte): bv16 {
    b as bv16
  }

  function Register(crc: bv16, data: seq<byte>): bv16
    decreases |data|, crc
  {
    if data == [] then crc else Register(Shifts(crc ^ (Word(data[0]) << 8), 8), data[1..])
  }

  function Octet(x: bv8): byte {
    x as int
  }

  /** The two octets in which the CRC of a block is written. */
  function Octets(data: seq<byte>): (r: seq<byte>)
    ensures |r| == 2
  {
    var crc := Register(INIT, data);
    [Octet((crc >> 8) as bv8), Octet((crc & 0xFF) as bv8)]
  }

  method Compute(data: seq<byte>) returns (crc: bv16)
    ensures crc == Register(INIT, data)
  {
    crc := INIT;
    assert data[0..] == data;
    for i := 0 to |data|
      invariant Register(crc, data[i..]) == Register(INIT, data)
    {
      assert data[i..][0] == data[i] && data[i..][1..] == data[i + 1..];
      crc := ShiftEight(crc ^ (Word(data[i]) << 8));
    }
    assert data[|data|..] == [];
  }

  method ShiftEight(start: bv16) returns (crc: bv16)
    ensures crc == Shifts(start, 8)
  {
    crc := start;
    for j := 0 to 8
      invariant Shifts(crc, 8 - j) == Shifts(start, 8)
    {
      if crc & 0x8000 != 0 {
        crc := (crc << 1) ^ POLY;
      } else {
        crc := crc << 1;
      }
    }
  }

  /** The CRC as the two octets that go into the block, high one first. */
  method ComputeOctets(data: seq<byte>) returns (hi: byte, lo: byte)
    ensures [hi, lo] == Octets(data)
  {
    var crc := Compute(data);
    hi, lo := Octet((crc >> 8) as bv8), Octet((crc & 0xFF) as bv8);
  }
}
