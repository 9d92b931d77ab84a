/**
 * MBR3110_changeSensitivity of peripheral.cpp: the CY8CMBR3110 capacitive
 * sensor keeps a 2-bit sensitivity per sensor, four sensors to a register
 * (SENSITIVITY0 for sensors 0..3, SENSITIVITY1 for 4..7, SENSITIVITY2 for
 * 8 and 9). The level is copied into every field and the registers are
 * written over the I2C bus.
 */
module Mbr3110 {
  import opened I2c

  const SENSITIVITY0: bv8 := 0x08
  const SENSITIVITY1: bv8 := 0x09
  const SENSITIVITY2: bv8 := 0x0a

  /** tI2cAdrs: the addresses the twelve sensor boards are given, CAP_SENSE_ADDRESS_1 .. _12. */
  const CAP_SENSE_ADDRESS: seq<int> := [0x38, 0x39, 0x3a, 0x3b, 0x3c, 0x3d, 0x3e, 0x3f, 0x40, 0x41, 0x42, 0x43]

  /** Board number is at address 0x38 + number, so no two boards share an address. */
  lemma CapSenseAddress(number: int)
    requires 0 <= number < |CAP_SENSE_ADDRESS|
    ensures CAP_SENSE_ADDRESS[number] == 0x38 + number
  {
  }

  /** regData2: the level data & 3 copied into the two fields of a nibble. */
  function Level2(data: bv8): bv8 {
    var d := data & 0x03;
    d | (d << 2)
  }

  /** regData4: regData2 copied into both nibbles. */
  function Level4(data: bv8): bv8 {
    var r := Level2(data);
    r | (r << 4)
  }

  /** The 2-bit field f (0..3) of a register. */
  function Field(b: bv8, f: int): bv8 {
    if f == 0 then b & 0x03
    else if f == 1 then (b >> 2) & 0x03
    else if f == 2 then (b >> 4) & 0x03
    else (b >> 6) & 0x03
  }

  /** The register that holds the sensitivity of sensor s (0..9). */
  function SensitivityRegister(s: int): bv8 {
    if s < 4 then SENSITIVITY0 else if s < 8 then SENSITIVITY1 else SENSITIVITY2
  }

  /** The level of sensor s once the three registers hold r0, r1 and r2. */
  function SensorLevel(r0: bv8, r1: bv8, r2: bv8, s: int): bv8 {
    if s < 4 then Field(r0, s) else if s < 8 then Field(r1, s - 4) else Field(r2, s - 8)
  }

  /**
   * Every one of the ten sensors gets level data & 3, and the unused fields
   * of SENSITIVITY2 stay 0; as numbers the two bytes are 5 and 0x55 times
   * the level.
   */
  lemma LevelFields(data: bv8)
    ensures forall s :: 0 <= s < 10 ==> SensorLevel(Level4(data), Level4(data), Level2(data), s) == data & 0x03
    ensures Field(Level2(data), 2) == 0 && Field(Level2(data), 3) == 0
    ensures Level2(data) as int == 5 * ((data & 0x03) as int)
    ensures Level4(data) as int == 0x55 * ((data & 0x03) as int)
  {
    var d := data & 0x03;
    assert d == 0 || d == 1 || d == 2 || d == 3;
  }

  /** The three register writes, in the order the source makes them. */
  function SensitivityWrite(adrs: int, data: bv8, n: int): I2cWrite {
    if n == 0 then I2cWrite(adrs, [SENSITIVITY0, Level4(data)])
    else if n == 1 then I2cWrite(adrs, [SENSITIVITY1, Level4(data)])
    else I2cWrite(adrs, [SENSITIVITY2, Level2(data)])
  }

  /**
   * The writes MBR3110_changeSensitivity makes as written: the next
   * register is written only when the previous write FAILED (a non-zero
   * status), so on a working bus only SENSITIVITY0 is written.
   */
  function WritesAsWritten(adrs: int, data: bv8, replies: seq<int>): (ws: seq<I2cWrite>)
    ensures 1 <= |ws| <= 3
    ensures forall n :: 0 <= n < |ws| ==> ws[n] == SensitivityWrite(adrs, data, n)
  {
    if Reply(replies, 0) == 0 then [SensitivityWrite(adrs, data, 0)]
    else if Reply(replies, 1) == 0 then [SensitivityWrite(adrs, data, 0), SensitivityWrite(adrs, data, 1)]
    else [SensitivityWrite(adrs, data, 0), SensitivityWrite(adrs, data, 1), SensitivityWrite(adrs, data, 2)]
  }

  /** As written, a first write that succeeds is the only one: sensors 4..9 keep their old level. */
  lemma AsWrittenStopsOnSuccess(adrs: int, data: bv8, replies: seq<int>)
    requires Reply(replies, 0) == 0
    ensures forall w :: w in WritesAsWritten(adrs, data, replies) ==> w.data[0] == SENSITIVITY0
  {
  }

  /** As written, all three registers are written only when the first two writes fail. */
  lemma AsWrittenNeedsFailures(adrs: int, data: bv8, replies: seq<int>)
    ensures |WritesAsWritten(adrs, data, replies)| == 3 <==> Reply(replies, 0) != 0 && Reply(replies, 1) != 0
  {
  }

  /**
   * The writes the evident intent calls for: each register in turn, going
   * on only while the writes succeed.
   */
  function SensitivityWrites(adrs: int, data: bv8, replies: seq<int>): (ws: seq<I2cWrite>)
    ensures 1 <= |ws| <= 3
    ensures forall n :: 0 <= n < |ws| ==> ws[n] == SensitivityWrite(adrs, data, n)
  {
    if Reply(replies, 0) != 0 then [SensitivityWrite(adrs, data, 0)]
    else if Reply(replies, 1) != 0 then [SensitivityWrite(adrs, data, 0), SensitivityWrite(adrs, data, 1)]
    else [SensitivityWrite(adrs, data, 0), SensitivityWrite(adrs, data, 1), SensitivityWrite(adrs, data, 2)]
  }

  /**
   * On a working bus all three registers are written, every sensor s gets
   * the level in its own register; a failed write is the last one made.
   */
  lemma AllSensorsSet(adrs: int, data: bv8, replies: seq<int>)
    ensures var ws := SensitivityWrites(adrs, data, replies);
            && (Reply(replies, 0) == 0 && Reply(replies, 1) == 0 <==> |ws| == 3)
            && (forall n :: 0 <= n < |ws| - 1 ==> Reply(replies, n) == 0)
            && (|ws| < 3 ==> Reply(replies, |ws| - 1) != 0)
            && (|ws| == 3 ==> forall s :: 0 <= s < 10 ==>
                  exists n :: 0 <= n < 3 && ws[n].data[0] == SensitivityRegister(s)
                              && SensorLevel(ws[0].data[1], ws[1].data[1], ws[2].data[1], s) == data & 0x03)
  {
    var ws := SensitivityWrites(adrs, data, replies);
    LevelFields(data);
    if |ws| == 3 {
      forall s | 0 <= s < 10
        ensures exists n :: 0 <= n < 3 && ws[n].data[0] == SensitivityRegister(s)
                            && SensorLevel(ws[0].data[1], ws[1].data[1], ws[2].data[1], s) == data & 0x03
      {
        var n := if s < 4 then 0 else if s < 8 then 1 else 2;
        assert ws[n].data[0] == SensitivityRegister(s);
      }
    }
  }

  /** The two level bytes of MBR3110_changeSensitivity, from the two low bits of data. */
  method LevelBytes(data: bv8) returns (regData2: bv8, regData4: bv8)
    ensures regData2 == Level2(data) && regData4 == Level4(data)
  {
    regData2 := data & 0x03;
    regData2 := regData2 | (regData2 << 2);
    regData4 := regData2 | (regData2 << 4);
  }

  /** The two-byte write of one register: i2cdata holds the register address and the value. */
  method WriteRegister(bus: I2cBus, i2cdata: array<bv8>, adrs: int, reg: bv8, value: bv8) returns (err: int)
    requires i2cdata.Length == 2 && 0 <= adrs < 0x100
    modifies bus, i2cdata
    ensures bus.log == old(bus.log) + [I2cWrite(adrs, [reg, value])]
    ensures err == Reply(old(bus.replies), 0) && bus.replies == Rest(old(bus.replies))
  {
    i2cdata[0] := reg;
    i2cdata[1] := value;
    err := bus.Write(adrs, i2cdata, 2);
    assert i2cdata[..2] == [reg, value];
  }

  /**
   * MBR3110_changeSensitivity as written: SENSITIVITY1 is written only if
   * the write of SENSITIVITY0 failed, and SENSITIVITY2 only if that one
   * failed too. number indexes tI2cAdrs, which has twelve entries.
   */
  method ChangeSensitivityAsWritten(bus: I2cBus, data: bv8, number: int)
    requires 0 <= number < |CAP_SENSE_ADDRESS|
    modifies bus
    ensures bus.log == old(bus.log) + WritesAsWritten(CAP_SENSE_ADDRESS[number], data, old(bus.replies))
    ensures bus.replies == Drop(old(bus.replies), |WritesAsWritten(CAP_SENSE_ADDRESS[number], data, old(bus.replies))|)
  {
    var i2cdata := new bv8[2];
    var regData2, regData4 := LevelBytes(data);
    var i2cAdrs := CAP_SENSE_ADDRESS[number];
    ghost var replies, log0 := bus.replies, bus.log;
    ghost var w0, w1, w2 := SensitivityWrite(i2cAdrs, data, 0), SensitivityWrite(i2cAdrs, data, 1), SensitivityWrite(i2cAdrs, data, 2);
    var err := WriteRegister(bus, i2cdata, i2cAdrs, SENSITIVITY0, regData4);
    RestOfDrop(replies, 0);
    if err != 0 {
      err := WriteRegister(bus, i2cdata, i2cAdrs, SENSITIVITY1, regData4);
      RestOfDrop(replies, 1);
      if err != 0 {
        err := WriteRegister(bus, i2cdata, i2cAdrs, SENSITIVITY2, regData2);
        RestOfDrop(replies, 2);
        assert bus.log == log0 + [w0, w1, w2];
      } else {
        assert bus.log == log0 + [w0, w1];
      }
    }
  }

  /** MBR3110_changeSensitivity as evidently intended: each register in turn while the writes succeed. */
  method ChangeSensitivity(bus: I2cBus, data: bv8, number: int)
    requires 0 <= number < |CAP_SENSE_ADDRESS|
    modifies bus
    ensures bus.log == old(bus.log) + SensitivityWrites(CAP_SENSE_ADDRESS[number], data, old(bus.replies))
    ensures bus.replies == Drop(old(bus.replies), |SensitivityWrites(CAP_SENSE_ADDRESS[number], data, old(bus.replies))|)
  {
    var i2cdata := new bv8[2];
    var regData2, regData4 := LevelBytes(data);
    var i2cAdrs := CAP_SENSE_ADDRESS[number];
    ghost var replies, log0 := bus.replies, bus.log;
    ghost var w0, w1, w2 := SensitivityWrite(i2cAdrs, data, 0), SensitivityWrite(i2cAdrs, data, 1), SensitivityWrite(i2cAdrs, data, 2);
    var err := WriteRegister(bus, i2cdata, i2cAdrs, SENSITIVITY0, regData4);
    RestOfDrop(replies, 0);
    if err == 0 {
      err := WriteRegister(bus, i2cdata, i2cAdrs, SENSITIVITY1, regData4);
      RestOfDrop(replies, 1);
      if err == 0 {
        err := WriteRegister(bus, i2cdata, i2cAdrs, SENSITIVITY2, regData2);
        RestOfDrop(replies, 2);
        assert bus.log == log0 + [w0, w1, w2];
      } else {
        assert bus.log == log0 + [w0, w1];
      }
    }
  }
}
