/**
 * pca9544_changeI2cBus of peripheral.cpp: the PCA9544A I2C multiplexer
 * connects one of its four downstream channels when it receives a control
 * byte with bit 2 (enable) set and the channel in bits 0..1.
 */
module Pca9544 {
  import opened I2c

  const PCA9544A_I2C_ADRS: int := 0x70

  /**
   * The control byte for channel i2c_num: 0x04 | (i2c_num & 3). On a
   * two's-complement int, i2c_num & 3 is i2c_num modulo 4, which is
   * Dafny's % for any sign.
   */
  function ControlByte(i2cNum: int): bv8 {
    0x04 | ((i2cNum % 4) as bv8)
  }

  /** The address of multiplexer dev_num: 0x70 plus dev_num cast to uint8_t, kept in a byte. */
  function MuxAddress(devNum: int): (adrs: int)
    ensures 0 <= adrs < 0x100
  {
    (PCA9544A_I2C_ADRS + devNum % 0x100) % 0x100
  }

  /** The channel a control byte selects, or -1 when it does not enable the multiplexer. */
  function Channel(b: bv8): int {
    if b & 0x04 == 0 then -1 else (b & 0x03) as int
  }

  /**
   * The control byte always enables the multiplexer, selects channel
   * i2c_num modulo 4 and leaves bits 3..7 clear; a channel 0..3 is read
   * back unchanged.
   */
  lemma ControlByteMeaning(i2cNum: int)
    ensures ControlByte(i2cNum) & 0xf8 == 0
    ensures Channel(ControlByte(i2cNum)) == i2cNum % 4
    ensures 0 <= i2cNum < 4 ==> Channel(ControlByte(i2cNum)) == i2cNum
  {
    var c := i2cNum % 4;
    assert c == 0 || c == 1 || c == 2 || c == 3;
  }

  /** The eight hardware addresses A2..A0 of the chip: dev_num 0..7 is at 0x70 + dev_num, and dev_num repeats every 256. */
  lemma MuxAddressMeaning(devNum: int)
    ensures 0 <= devNum < 8 ==> MuxAddress(devNum) == 0x70 + devNum
    ensures MuxAddress(devNum + 0x100) == MuxAddress(devNum)
  {
  }

  /** pca9544_changeI2cBus: the one-byte control write, and its status. */
  method ChangeI2cBus(bus: I2cBus, i2cNum: int, devNum: int) returns (err: int)
    modifies bus
    ensures bus.log == old(bus.log) + [I2cWrite(MuxAddress(devNum), [ControlByte(i2cNum)])]
    ensures err == Reply(old(bus.replies), 0) && bus.replies == Rest(old(bus.replies))
  {
    var i2cBuf := new bv8[1];
    i2cBuf[0] := 0x04 | ((i2cNum % 4) as bv8);
    var i2cadrs := (PCA9544A_I2C_ADRS + devNum % 0x100) % 0x100;
    err := bus.Write(i2cadrs, i2cBuf, 1);
    assert i2cBuf[..1] == [ControlByte(i2cNum)];
  }
}
