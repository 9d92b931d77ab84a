/**
 * PCA9685_setFullColorLED of peripheral.cpp: the PCA9685 16-channel PWM
 * driver lights four RGB LEDs, three channels each. Channel n has four
 * registers from 0x06 + 4n (ON low, ON high, OFF low, OFF high); the source
 * writes the colour's count into the ON registers and 0 into the OFF ones,
 * one two-byte write per register, and stops at the first failing write.
 */
module Pca9685 {
  import opened I2c

  const PCA9685_ADDRESS: int := 0x40

  /** The bus address of chip chipNumber: 0x40 + chipNumber, kept in a byte. */
  function ChipAddress(chipNumber: int): (adrs: int)
    requires 0 <= chipNumber < 0x100
    ensures 0 <= adrs < 0x100
  {
    (PCA9685_ADDRESS + chipNumber) % 0x100
  }

  /** The unsigned short count for a colour value: 4095 - color modulo 65536, with 1 in place of 0. */
  function PwmCount(color: int): int
    requires 0 <= color < 0x1_0000
  {
    var cnt := (4095 - color) % 0x1_0000;
    if cnt <= 0 then 1 else cnt
  }

  /**
   * The count is a nonzero unsigned short: 4095 - color for the documented
   * range 0..4094 (a brighter colour gives a smaller count), 1 for 4095,
   * and a wrapped-around count above it.
   */
  lemma PwmCountMeaning(color: int)
    requires 0 <= color < 0x1_0000
    ensures 1 <= PwmCount(color) < 0x1_0000
    ensures color < 4095 ==> PwmCount(color) == 4095 - color
    ensures color == 4095 ==> PwmCount(color) == 1
    ensures color > 4095 ==> PwmCount(color) == 0x1_0000 + 4095 - color
  {
  }

  /** Register b (0..3) of colour i (0..2) of LED led (0..3): 0x06 + i*4 + led*16 + b. */
  function Register(led: int, i: int, b: int): int {
    0x06 + i * 4 + led * 16 + b
  }

  /**
   * The registers of the twelve channels used are 0x06 .. 0x41 and each one
   * belongs to exactly one LED, colour and byte: LED led drives channels
   * led*4 + i for colours i = 0..2, so channels 3, 7, 11 and 15 stay unused.
   */
  lemma RegisterDecode(led: int, i: int, b: int)
    requires 0 <= led < 4 && 0 <= i < 3 && 0 <= b < 4
    ensures 0x06 <= Register(led, i, b) < 0x42
    ensures (Register(led, i, b) - 6) / 16 == led
    ensures (Register(led, i, b) - 6) % 16 / 4 == i
    ensures (Register(led, i, b) - 6) % 4 == b
  {
  }

  /** A register number as the byte sent, (uint8_t) of a value that fits. */
  function RegisterByte(reg: int): bv8
    requires 0 <= reg < 0x100
  {
    reg as bv8
  }

  /** The low byte of a count, (uint8_t)(cnt & 0x00ff). */
  function CountLow(cnt: int): bv8
    requires 0 <= cnt < 0x1_0000
  {
    (cnt % 0x100) as bv8
  }

  /** The high byte of a count, (cnt & 0xff00) >> 8. */
  function CountHigh(cnt: int): bv8
    requires 0 <= cnt < 0x1_0000
  {
    (cnt / 0x100) as bv8
  }

  /** The value written to register b of a colour: the low and high byte of its count, then two zeros. */
  function RegisterValue(color: int, b: int): bv8
    requires 0 <= color < 0x1_0000
  {
    var cnt := PwmCount(color);
    if b == 0 then CountLow(cnt)
    else if b == 1 then CountHigh(cnt)
    else 0
  }

  /** Write n (0..11) of PCA9685_setFullColorLED: register n % 4 of colour n / 4. */
  function ColorWrite(chipNumber: int, led: int, colors: seq<int>, n: int): I2cWrite
    requires 0 <= chipNumber < 0x100 && 0 <= led < 4 && 0 <= n < 12
    requires |colors| == 3 && forall k :: 0 <= k < 3 ==> 0 <= colors[k] < 0x1_0000
  {
    I2cWrite(ChipAddress(chipNumber), [RegisterByte(Register(led, n / 4, n % 4)), RegisterValue(colors[n / 4], n % 4)])
  }

  /** The twelve writes of a complete update, in order. */
  function ColorWrites(chipNumber: int, led: int, colors: seq<int>): (ws: seq<I2cWrite>)
    requires 0 <= chipNumber < 0x100 && 0 <= led < 4
    requires |colors| == 3 && forall k :: 0 <= k < 3 ==> 0 <= colors[k] < 0x1_0000
    ensures |ws| == 12
  {
    seq(12, n requires 0 <= n < 12 => ColorWrite(chipNumber, led, colors, n))
  }

  /** The first of the first n writes the bus fails, or n when they all succeed. */
  function FirstFailure(replies: seq<int>, n: nat): (k: nat)
    ensures k <= n
    ensures forall j :: 0 <= j < k ==> Reply(replies, j) == 0
    ensures k < n ==> Reply(replies, k) != 0
  {
    if n == 0 then 0
    else
      var k := FirstFailure(replies, n - 1);
      if k < n - 1 then k else if Reply(replies, n - 1) != 0 then n - 1 else n
  }

  /** How many writes are made: up to and including the first failure. */
  function WritesMade(replies: seq<int>): (m: nat)
    ensures 1 <= m <= 12
  {
    var k := FirstFailure(replies, 12);
    if k < 12 then k + 1 else 12
  }

  /** The status the source returns: the failing write's, or 0. */
  function ColorStatus(replies: seq<int>): int {
    var k := FirstFailure(replies, 12);
    if k < 12 then Reply(replies, k) else 0
  }

  /** On a bus that answers every write, all twelve registers are written and the status is 0. */
  lemma AllColorWritesMade(replies: seq<int>)
    requires forall j :: 0 <= j < 12 ==> Reply(replies, j) == 0
    ensures WritesMade(replies) == 12 && ColorStatus(replies) == 0
  {
  }

  /** A failure at write k ends the update there, reporting that failure. */
  lemma ColorWritesStop(replies: seq<int>, k: nat)
    requires k < 12 && Reply(replies, k) != 0
    requires forall j :: 0 <= j < k ==> Reply(replies, j) == 0
    ensures WritesMade(replies) == k + 1 && ColorStatus(replies) == Reply(replies, k)
  {
  }

  /** PCA9685_write: one two-byte write to the chip. */
  method Write(bus: I2cBus, chipNumber: int, cmd1: bv8, cmd2: bv8) returns (err: int)
    requires 0 <= chipNumber < 0x100
    modifies bus
    ensures bus.log == old(bus.log) + [I2cWrite(ChipAddress(chipNumber), [cmd1, cmd2])]
    ensures err == Reply(old(bus.replies), 0) && bus.replies == Rest(old(bus.replies))
  {
    var i2cBuf := new bv8[2];
    i2cBuf[0] := cmd1;
    i2cBuf[1] := cmd2;
    err := bus.Write((PCA9685_ADDRESS + chipNumber) % 0x100, i2cBuf, 2);
    assert i2cBuf[..2] == [cmd1, cmd2];
  }

  /** Write 4i + b is the write of register b of colour i. */
  lemma ColorWriteAt(chipNumber: int, led: int, colors: seq<int>, i: int, b: int)
    requires 0 <= chipNumber < 0x100 && 0 <= led < 4 && 0 <= i < 3 && 0 <= b < 4
    requires |colors| == 3 && forall k :: 0 <= k < 3 ==> 0 <= colors[k] < 0x1_0000
    ensures ColorWrites(chipNumber, led, colors)[4 * i + b]
         == I2cWrite(ChipAddress(chipNumber), [RegisterByte(Register(led, i, b)), RegisterValue(colors[i], b)])
  {
    assert (4 * i + b) / 4 == i && (4 * i + b) % 4 == b;
  }

  /** Appending write n to the first n writes gives the first n + 1. */
  lemma LogStep(log0: seq<I2cWrite>, ws: seq<I2cWrite>, n: nat)
    requires n < |ws|
    ensures (log0 + ws[..n]) + [ws[n]] == log0 + ws[..n + 1]
  {
    assert ws[..n + 1] == ws[..n] + [ws[n]];
  }

  /**
   * The bus after the first n writes of ws all succeeded: the log holds
   * them and the script has given n zero answers.
   */
  ghost predicate Sent(bus: I2cBus, ws: seq<I2cWrite>, log0: seq<I2cWrite>, replies: seq<int>, n: nat)
    reads bus
  {
    && n <= |ws|
    && bus.log == log0 + ws[..n]
    && bus.replies == Drop(replies, n)
    && forall j :: 0 <= j < n ==> Reply(replies, j) == 0
  }

  /**
   * The bus after the first made writes of ws, the last of which failed
   * with status err after all before it succeeded.
   */
  ghost predicate Failed(bus: I2cBus, ws: seq<I2cWrite>, log0: seq<I2cWrite>, replies: seq<int>, made: nat, err: int)
    reads bus
  {
    && 0 < made <= |ws|
    && bus.log == log0 + ws[..made]
    && bus.replies == Drop(replies, made)
    && (forall j :: 0 <= j < made - 1 ==> Reply(replies, j) == 0)
    && err == Reply(replies, made - 1) && err != 0
  }

  /**
   * One write of PCA9685_setFullColorLED, write n of the update: the bus
   * log grows by ws[n] and the status is the n-th answer.
   */
  method WriteNext(bus: I2cBus, chipNumber: int, reg: bv8, value: bv8,
                   ghost ws: seq<I2cWrite>, ghost n: nat, ghost log0: seq<I2cWrite>, ghost replies: seq<int>)
    returns (err: int)
    requires 0 <= chipNumber < 0x100 && n < |ws| && ws[n] == I2cWrite(ChipAddress(chipNumber), [reg, value])
    requires Sent(bus, ws, log0, replies, n)
    modifies bus
    ensures err == 0 ==> Sent(bus, ws, log0, replies, n + 1)
    ensures err != 0 ==> Failed(bus, ws, log0, replies, n + 1, err)
  {
    err := Write(bus, chipNumber, reg, value);
    LogStep(log0, ws, n);
    RestOfDrop(replies, n);
  }

  /**
   * Two writes of PCA9685_setFullColorLED in a row, writes n and n + 1 of
   * the update, the second only when the first succeeds.
   */
  method WritePair(bus: I2cBus, chipNumber: int, reg1: bv8, value1: bv8, reg2: bv8, value2: bv8,
                   ghost ws: seq<I2cWrite>, ghost n: nat, ghost log0: seq<I2cWrite>, ghost replies: seq<int>)
    returns (err: int, ghost made: nat)
    requires 0 <= chipNumber < 0x100 && n + 1 < |ws|
    requires ws[n] == I2cWrite(ChipAddress(chipNumber), [reg1, value1])
    requires ws[n + 1] == I2cWrite(ChipAddress(chipNumber), [reg2, value2])
    requires Sent(bus, ws, log0, replies, n)
    modifies bus
    ensures err == 0 ==> Sent(bus, ws, log0, replies, n + 2)
    ensures err != 0 ==> n < made <= n + 2 && Failed(bus, ws, log0, replies, made, err)
  {
    err := WriteNext(bus, chipNumber, reg1, value1, ws, n, log0, replies);
    made := n + 1;
    if err != 0 {
      return;
    }
    err := WriteNext(bus, chipNumber, reg2, value2, ws, n + 1, log0, replies);
    made := n + 2;
  }

  /**
   * The body of the loop of PCA9685_setFullColorLED for colour i: the
   * count, then its four registers (the ON pair holding the count, the
   * OFF pair zero), returning at the first failure; made is the number of
   * writes of the whole update made so far.
   */
  method WriteColor(bus: I2cBus, chipNumber: int, led: int, i: int, color: int,
                    ghost ws: seq<I2cWrite>, ghost log0: seq<I2cWrite>, ghost replies: seq<int>)
    returns (err: int, ghost made: nat)
    requires 0 <= chipNumber < 0x100 && 0 <= led < 4 && 0 <= i < 3 && 0 <= color < 0x1_0000
    requires |ws| == 12
    requires ws[4 * i] == I2cWrite(ChipAddress(chipNumber), [RegisterByte(Register(led, i, 0)), RegisterValue(color, 0)])
    requires ws[4 * i + 1] == I2cWrite(ChipAddress(chipNumber), [RegisterByte(Register(led, i, 1)), RegisterValue(color, 1)])
    requires ws[4 * i + 2] == I2cWrite(ChipAddress(chipNumber), [RegisterByte(Register(led, i, 2)), RegisterValue(color, 2)])
    requires ws[4 * i + 3] == I2cWrite(ChipAddress(chipNumber), [RegisterByte(Register(led, i, 3)), RegisterValue(color, 3)])
    requires Sent(bus, ws, log0, replies, 4 * i)
    modifies bus
    ensures err == 0 ==> Sent(bus, ws, log0, replies, 4 * i + 4)
    ensures err != 0 ==> 4 * i < made <= 4 * i + 4 && Failed(bus, ws, log0, replies, made, err)
  {
    var colorCnt := (4095 - color) % 0x1_0000;
    if colorCnt <= 0 {
      colorCnt := 1;
    }
    assert colorCnt == PwmCount(color);
    err, made := WritePair(bus, chipNumber,
                           RegisterByte(0x06 + i * 4 + led * 16), CountLow(colorCnt),
                           RegisterByte(0x07 + i * 4 + led * 16), CountHigh(colorCnt), ws, 4 * i, log0, replies);
    if err != 0 {
      return;
    }
    err, made := WritePair(bus, chipNumber,
                           RegisterByte(0x08 + i * 4 + led * 16), 0,
                           RegisterByte(0x09 + i * 4 + led * 16), 0, ws, 4 * i + 2, log0, replies);
  }

  /**
   * PCA9685_setFullColorLED: the three colours of LED ledNum & 3, each as
   * four register writes, stopping at the first failing write and
   * returning its status (0 when all twelve succeed).
   */
  method SetFullColorLed(bus: I2cBus, chipNumber: int, ledNum: int, color: array<int>) returns (err: int)
    requires 0 <= chipNumber < 0x100
    requires color.Length >= 3 && forall k :: 0 <= k < 3 ==> 0 <= color[k] < 0x1_0000
    modifies bus
    ensures bus.log == old(bus.log) + ColorWrites(chipNumber, ledNum % 4, color[..3])[..WritesMade(old(bus.replies))]
    ensures bus.replies == Drop(old(bus.replies), WritesMade(old(bus.replies)))
    ensures err == ColorStatus(old(bus.replies))
  {
    err := 0;
    var led := ledNum % 4;
    ghost var colors, log0, replies := color[..3], bus.log, bus.replies;
    for i := 0 to 3
      invariant Sent(bus, ColorWrites(chipNumber, led, colors), log0, replies, 4 * i)
    {
      ghost var made;
      forall b | 0 <= b < 4 {
        ColorWriteAt(chipNumber, led, colors, i, b);
      }
      err, made := WriteColor(bus, chipNumber, led, i, color[i], ColorWrites(chipNumber, led, colors), log0, replies);
      if err != 0 {
        ColorWritesStop(replies, made - 1);
        return;
      }
    }
    AllColorWritesMade(replies);
    assert ColorWrites(chipNumber, led, colors)[..12] == ColorWrites(chipNumber, led, colors);
  }
}
