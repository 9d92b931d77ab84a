/**
 * The ADA88 8x8 LED-matrix builders of peripheral.cpp: the 17-byte images
 * sent for a letter, a signed number, a 16-bit word, five parameters and one
 * step of the scrolling animation. Each builder fills its local buffers as
 * the source does and is proved against a function that states the rows it
 * shows; lemmas read those rows back to the arguments.
 */
module Ada88 {
  import opened I2c

  // ---------------------------------------------------------------------
  //  ADA88 frames
  // ---------------------------------------------------------------------

  const ADA88_I2C_ADRS: int := 0x70

  /**
   * The 17 bytes sent to the ADA88 for eight rows: the display-RAM address
   * 0, then each row followed by the 0 of the unused second column bank.
   */
  function Frame(rows: seq<bv8>): (f: seq<bv8>)
    requires |rows| == 8
    ensures |f| == 17
  {
    [0, rows[0], 0, rows[1], 0, rows[2], 0, rows[3], 0, rows[4], 0, rows[5], 0, rows[6], 0, rows[7], 0]
  }

  /** The rows a frame shows. */
  function FrameRows(f: seq<bv8>): (rows: seq<bv8>)
    requires |f| == 17
    ensures |rows| == 8
  {
    [f[1], f[3], f[5], f[7], f[9], f[11], f[13], f[15]]
  }

  /** Byte 0 is 0, byte 2i+1 is row i and byte 2i+2 is 0; the rows are read back unchanged. */
  lemma FrameLayout(rows: seq<bv8>)
    requires |rows| == 8
    ensures Frame(rows)[0] == 0
    ensures forall i :: 0 <= i < 8 ==> Frame(rows)[2 * i + 1] == rows[i] && Frame(rows)[2 * i + 2] == 0
    ensures FrameRows(Frame(rows)) == rows
  {
  }

  /**
   * The tail every ADA88 writer shares: i2cBufx is filled row by row from
   * ledPtn and its 17 bytes are written to the matrix.
   */
  method SendFrame(bus: I2cBus, ledPtn: seq<bv8>)
    requires |ledPtn| == 8
    modifies bus
    ensures bus.log == old(bus.log) + [I2cWrite(ADA88_I2C_ADRS, Frame(ledPtn))]
    ensures bus.replies == Rest(old(bus.replies))
  {
    var i2cBufx := new bv8[17];
    i2cBufx[0] := 0;
    for i := 0 to 8
      modifies i2cBufx
      invariant i2cBufx[0] == 0
      invariant forall k :: 0 <= k < i ==> i2cBufx[2 * k + 1] == ledPtn[k] && i2cBufx[2 * k + 2] == 0
    {
      i2cBufx[i * 2 + 1] := ledPtn[i];
      i2cBufx[i * 2 + 2] := 0;
    }
    assert i2cBufx[..] == Frame(ledPtn);
    assert i2cBufx[..17] == i2cBufx[..];
    var err := bus.Write(ADA88_I2C_ADRS, i2cBufx, 17);
  }

  // ---------------------------------------------------------------------
  //  ada88_writeNumber
  // ---------------------------------------------------------------------

  /** numletter: the 3x5 digit glyphs, one byte per row, in bits 0..2. */
  const NUM_LETTER: seq<seq<bv8>> := [
    [0x07, 0x05, 0x05, 0x05, 0x07],
    [0x04, 0x04, 0x04, 0x04, 0x04],
    [0x07, 0x04, 0x07, 0x01, 0x07],
    [0x07, 0x04, 0x07, 0x04, 0x07],
    [0x05, 0x05, 0x07, 0x04, 0x04],
    [0x07, 0x01, 0x07, 0x04, 0x07],
    [0x07, 0x01, 0x07, 0x05, 0x07],
    [0x07, 0x04, 0x04, 0x04, 0x04],
    [0x07, 0x05, 0x07, 0x05, 0x07],
    [0x07, 0x05, 0x07, 0x04, 0x07]
  ]

  /** graph: the two bottom rows that show the units digit as a bar. */
  const GRAPH: seq<seq<bv8>> := [
    [0x00, 0x00], [0x00, 0x40], [0x40, 0x60], [0x60, 0x70], [0x70, 0x78],
    [0x78, 0x7c], [0x7c, 0x7e], [0x7e, 0x7f], [0x7f, 0xff], [0xff, 0xff]
  ]

  /** The glyph of digit d: five rows, each in bits 0..2. */
  function NumLetter(d: int): (g: seq<bv8>)
    requires 0 <= d < 10
    ensures |g| == 5 && forall i :: 0 <= i < 5 ==> g[i] & 0xf8 == 0
  {
    NUM_LETTER[d]
  }

  /** The bar of units digit u: two rows. */
  function Graph(u: int): (g: seq<bv8>)
    requires 0 <= u < 10
    ensures |g| == 2
  {
    GRAPH[u]
  }

  /** The index of a glyph, or 10 when g is no digit glyph. */
  function GlyphIndex(g: seq<bv8>): (d: int)
    ensures 0 <= d <= 10
    ensures d < 10 ==> NumLetter(d) == g
  {
    GlyphFrom(g, 0)
  }

  function GlyphFrom(g: seq<bv8>, d: int): (r: int)
    requires 0 <= d <= 10
    ensures d <= r <= 10
    ensures r < 10 ==> NUM_LETTER[r] == g
    ensures forall e :: d <= e < r ==> NUM_LETTER[e] != g
    decreases 10 - d
  {
    if d == 10 then 10 else if NUM_LETTER[d] == g then d else GlyphFrom(g, d + 1)
  }

  /** No two digits share a glyph, so a glyph is read back as its digit. */
  lemma GlyphIndexOf(d: int)
    requires 0 <= d < 10
    ensures GlyphIndex(NumLetter(d)) == d
  {
  }

  /** The units digit shown by the two bar rows, or 10 when they show none. */
  function GraphIndex(g: seq<bv8>): (u: int)
    ensures 0 <= u <= 10
    ensures u < 10 ==> Graph(u) == g
  {
    GraphFrom(g, 0)
  }

  function GraphFrom(g: seq<bv8>, u: int): (r: int)
    requires 0 <= u <= 10
    ensures u <= r <= 10
    ensures r < 10 ==> GRAPH[r] == g
    ensures forall e :: u <= e < r ==> GRAPH[e] != g
    decreases 10 - u
  {
    if u == 10 then 10 else if GRAPH[u] == g then u else GraphFrom(g, u + 1)
  }

  /** No two units digits share a bar. */
  lemma GraphIndexOf(u: int)
    requires 0 <= u < 10
    ensures GraphIndex(Graph(u)) == u
  {
  }

  /** The argument range the display can show: -1999 .. 1999. */
  function ClampNumber(num: int): (n: int)
    ensures -1999 <= n <= 1999
    ensures n == num || (num > 1999 && n == 1999) || (num < -1999 && n == -1999)
  {
    if num > 1999 then 1999 else if num < -1999 then -1999 else num
  }

  /** C's integer division, which truncates toward zero. */
  function CDiv(a: int, b: int): int
    requires b > 0
  {
    if a >= 0 then a / b else -((-a) / b)
  }

  /** The decimal digits (hundreds, tens, units) of a number below 1000. */
  datatype Digits = Digits(hundred: int, deci: int, unit: int)

  function DigitsOf(num3digits: int): (d: Digits)
    requires 0 <= num3digits < 1000
    ensures 0 <= d.hundred < 10 && 0 <= d.deci < 10 && 0 <= d.unit < 10
    ensures 100 * d.hundred + 10 * d.deci + d.unit == num3digits
  {
    Digits(num3digits / 100, (num3digits % 100) / 10, (num3digits % 100) % 10)
  }

  /** A row of the two digit glyphs over a flag: the hundreds glyph in bits 0..2, the tens glyph in bits 4..6. */
  function DigitRow(flag: bv8, hundred: bv8, deci: bv8): bv8 {
    (flag | hundred) | (deci << 4)
  }

  function LowNibble(b: bv8): bv8 { b & 0x0f }

  function HighGlyph(b: bv8): bv8 { (b >> 4) & 0x07 }

  /** Both glyphs are read back from a digit row, and the flag alone decides bit 7. */
  lemma DigitRowParts(flag: bv8, hundred: bv8, deci: bv8)
    requires flag & 0x7f == 0 && hundred & 0xf8 == 0 && deci & 0xf8 == 0
    ensures LowNibble(DigitRow(flag, hundred, deci)) == hundred
    ensures HighGlyph(DigitRow(flag, hundred, deci)) == deci
    ensures DigitRow(flag, hundred, deci) & 0x80 == flag
  {
  }

  /** The magnitude |n| that ada88_writeNumber draws. */
  function Magnitude(n: int): (a: int)
    ensures a >= 0 && (a == n || a == -n)
  {
    if n < 0 then -n else n
  }

  /** The sign bit of row 2. */
  function SignFlag(n: int): bv8 {
    if n < 0 then 0x80 else 0
  }

  /** The thousand bit of row 5: set when C's n / 1000 is not zero. */
  function ThousandFlag(n: int): bv8 {
    if CDiv(n, 1000) != 0 then 0x80 else 0
  }

  /**
   * The rows ada88_writeNumber shows for num: after clamping, rows 0..4 hold
   * the hundreds glyph in bits 0..2 and the tens glyph in bits 4..6 of
   * |num| mod 1000, rows 6..7 the bar of the units digit, and bit 7 of rows
   * 2 and 5 the sign and the thousand.
   */
  function NumberRows(num: int): (rows: seq<bv8>)
    ensures |rows| == 8
  {
    var n := ClampNumber(num);
    var d := DigitsOf(Magnitude(n) % 1000);
    var h, t, g := NumLetter(d.hundred), NumLetter(d.deci), Graph(d.unit);
    [DigitRow(0, h[0], t[0]), DigitRow(0, h[1], t[1]), DigitRow(SignFlag(n), h[2], t[2]),
     DigitRow(0, h[3], t[3]), DigitRow(0, h[4], t[4]), ThousandFlag(n), g[0], g[1]]
  }

  /** The number a frame of ada88_writeNumber shows: sign, thousand, then the three digits. */
  function ShownNumber(rows: seq<bv8>): int
    requires |rows| == 8
  {
    var hundred := GlyphIndex([LowNibble(rows[0]), LowNibble(rows[1]), LowNibble(rows[2]), LowNibble(rows[3]), LowNibble(rows[4])]);
    var deci := GlyphIndex([HighGlyph(rows[0]), HighGlyph(rows[1]), HighGlyph(rows[2]), HighGlyph(rows[3]), HighGlyph(rows[4])]);
    var unit := GraphIndex(rows[6..]);
    var a := (if rows[5] & 0x80 != 0 then 1000 else 0) + 100 * hundred + 10 * deci + unit;
    if rows[2] & 0x80 != 0 then -a else a
  }

  /** The thousand bit is set exactly for a clamped number of magnitude 1000 or more. */
  lemma ThousandFlagMeaning(n: int)
    requires -1999 <= n <= 1999
    ensures ThousandFlag(n) != 0 <==> Magnitude(n) >= 1000
    ensures Magnitude(n) == (if Magnitude(n) >= 1000 then 1000 else 0) + Magnitude(n) % 1000
  {
  }

  /** The glyph rows of the digits of num, read back from its frame. */
  lemma NumberGlyphs(num: int)
    ensures var n := ClampNumber(num);
            var d := DigitsOf(Magnitude(n) % 1000);
            var rows := NumberRows(num);
            && [LowNibble(rows[0]), LowNibble(rows[1]), LowNibble(rows[2]), LowNibble(rows[3]), LowNibble(rows[4])] == NumLetter(d.hundred)
            && [HighGlyph(rows[0]), HighGlyph(rows[1]), HighGlyph(rows[2]), HighGlyph(rows[3]), HighGlyph(rows[4])] == NumLetter(d.deci)
            && (forall i :: 0 <= i < 5 ==> rows[i] & 0x80 == if i == 2 then SignFlag(n) else 0)
            && rows[6..] == Graph(d.unit)
  {
    var n := ClampNumber(num);
    var d := DigitsOf(Magnitude(n) % 1000);
    var h, t := NumLetter(d.hundred), NumLetter(d.deci);
    DigitRowParts(0, h[0], t[0]);
    DigitRowParts(0, h[1], t[1]);
    DigitRowParts(SignFlag(n), h[2], t[2]);
    DigitRowParts(0, h[3], t[3]);
    DigitRowParts(0, h[4], t[4]);
  }

  /** Bit 7 of row 2 is the sign and bit 7 of row 5 the thousand; no glyph reaches bit 7 of rows 0..5. */
  lemma NumberMarks(num: int)
    ensures var n, rows := ClampNumber(num), NumberRows(num);
            && (rows[2] & 0x80 != 0 <==> n < 0)
            && (rows[5] & 0x80 != 0 <==> n <= -1000 || 1000 <= n)
            && rows[5] & 0x7f == 0
            && forall i :: 0 <= i < 5 && i != 2 ==> rows[i] & 0x80 == 0
  {
    NumberGlyphs(num);
    ThousandFlagMeaning(ClampNumber(num));
  }

  /** The frame shows exactly the clamped number: ShownNumber inverts NumberRows. */
  lemma NumberRoundTrip(num: int)
    ensures ShownNumber(NumberRows(num)) == ClampNumber(num)
  {
    var n, rows := ClampNumber(num), NumberRows(num);
    var d := DigitsOf(Magnitude(n) % 1000);
    NumberGlyphs(num);
    NumberMarks(num);
    ThousandFlagMeaning(n);
    GlyphIndexOf(d.hundred);
    GlyphIndexOf(d.deci);
    GraphIndexOf(d.unit);
  }

  /** The digit arithmetic of ada88_writeNumber on the magnitude of the clamped number. */
  lemma DigitsAgree(n: int, num: int, hundred: int, deci: int, z2n: int)
    requires -1999 <= n <= 1999 && num == Magnitude(n)
    requires hundred == (num % 1000) / 100 && deci == ((num % 1000) % 100) / 10 && z2n == ((num % 1000) % 100) % 10
    ensures DigitsOf(Magnitude(n) % 1000) == Digits(hundred, deci, z2n)
  {
  }

  /** NumberRows spelled out from the clamped number and its three digits. */
  lemma NumberRowsFrom(num: int, n: int, hundred: int, deci: int, z2n: int)
    requires n == ClampNumber(num) && DigitsOf(Magnitude(n) % 1000) == Digits(hundred, deci, z2n)
    ensures NumberRows(num) == DigitFrame(NumberFlags(n), NumLetter(hundred), NumLetter(deci), Graph(z2n))
  {
  }

  /** Rows 0..7 before the glyphs are drawn: the sign bit in row 2 and the thousand bit in row 5. */
  function NumberFlags(n: int): (flags: seq<bv8>)
    ensures |flags| == 8
  {
    [0, 0, SignFlag(n), 0, 0, ThousandFlag(n), 0, 0]
  }

  /** The rows once the two digit glyphs are ORed over flags and the units bar is stored. */
  function DigitFrame(flags: seq<bv8>, hg: seq<bv8>, dg: seq<bv8>, gz: seq<bv8>): (rows: seq<bv8>)
    requires |flags| == 8 && |hg| == 5 && |dg| == 5 && |gz| == 2
    ensures |rows| == 8
  {
    [DigitRow(flags[0], hg[0], dg[0]), DigitRow(flags[1], hg[1], dg[1]), DigitRow(flags[2], hg[2], dg[2]),
     DigitRow(flags[3], hg[3], dg[3]), DigitRow(flags[4], hg[4], dg[4]), flags[5], gz[0], gz[1]]
  }

  /**
   * The three drawing loops of ada88_writeNumber: OR the hundreds glyph into
   * rows 0..4, then the tens glyph shifted left by 4, then store the units
   * bar in rows 6..7.
   */
  method DrawDigits(led: array<bv8>, hg: seq<bv8>, dg: seq<bv8>, gz: seq<bv8>)
    requires led.Length == 8 && |hg| == 5 && |dg| == 5 && |gz| == 2
    modifies led
    ensures led[..] == DigitFrame(old(led[..]), hg, dg, gz)
  {
    ghost var flags := led[..];
    for i := 0 to 5
      modifies led
      invariant forall k :: 0 <= k < i ==> led[k] == flags[k] | hg[k]
      invariant forall k :: i <= k < 8 ==> led[k] == flags[k]
    {
      led[i] := led[i] | hg[i];
    }
    for i := 0 to 5
      modifies led
      invariant forall k :: 0 <= k < i ==> led[k] == DigitRow(flags[k], hg[k], dg[k])
      invariant forall k :: i <= k < 5 ==> led[k] == flags[k] | hg[k]
      invariant forall k :: 5 <= k < 8 ==> led[k] == flags[k]
    {
      led[i] := led[i] | (dg[i] << 4);
    }
    for i := 0 to 2
      modifies led
      invariant forall k :: 0 <= k < 5 ==> led[k] == DigitRow(flags[k], hg[k], dg[k])
      invariant led[5] == flags[5]
      invariant forall k :: 6 <= k < 6 + i ==> led[k] == gz[k - 6]
    {
      led[i + 6] := gz[i];
    }
  }

  /**
   * The pattern-building part of ada88_writeNumber: clamp, set the sign and
   * thousand bits, then OR in the hundreds glyph, the tens glyph shifted
   * left by 4 and the units bar.
   */
  method NumberPattern(num0: int) returns (ledPtn: seq<bv8>)
    ensures ledPtn == NumberRows(num0)
  {
    var num := num0;
    var led := new bv8[8](_ => 0);
    if num > 1999 {
      num := 1999;
    } else if num < -1999 {
      num := -1999;
    }
    ghost var n := num;
    if CDiv(num, 1000) != 0 {
      led[5] := led[5] | 0x80;
    }
    if num < 0 {
      led[2] := led[2] | 0x80;
      num := -num;
    }
    assert led[..] == NumberFlags(n);
    var num3digits := num % 1000;
    var hundred := num3digits / 100;
    var num2digits := num3digits % 100;
    var deci := num2digits / 10;
    var z2n := num2digits % 10;
    DigitsAgree(n, num, hundred, deci, z2n);
    NumberRowsFrom(num0, n, hundred, deci, z2n);
    DrawDigits(led, NumLetter(hundred), NumLetter(deci), Graph(z2n));
    ledPtn := led[..];
  }

  /** ada88_writeNumber: the frame of the clamped number is written to the matrix. */
  method WriteNumber(bus: I2cBus, num: int)
    modifies bus
    ensures bus.log == old(bus.log) + [I2cWrite(ADA88_I2C_ADRS, Frame(NumberRows(num)))]
    ensures bus.replies == Rest(old(bus.replies))
  {
    var ledPtn := NumberPattern(num);
    SendFrame(bus, ledPtn);
  }

  // ---------------------------------------------------------------------
  //  ada88_write
  // ---------------------------------------------------------------------

  /** letters: the 30 images ada88_write can show (blank, A..H, A..G with a flag, and signs). */
  const LETTERS: seq<seq<bv8>> := [
    [0x00, 0x00, 0x00, 0x00, 0x00, 0x00, 0x00, 0x00],
    [0x02, 0x05, 0x88, 0x88, 0x8f, 0x88, 0x88, 0x88],
    [0x87, 0x88, 0x88, 0x87, 0x88, 0x88, 0x88, 0x87],
    [0x07, 0x88, 0x88, 0x80, 0x80, 0x88, 0x88, 0x07],
    [0x87, 0x88, 0x88, 0x88, 0x88, 0x88, 0x88, 0x87],
    [0x87, 0x80, 0x80, 0x87, 0x80, 0x80, 0x80, 0x8f],
    [0x87, 0x80, 0x80, 0x87, 0x80, 0x80, 0x80, 0x80],
    [0x07, 0x88, 0x80, 0x80, 0x8e, 0x88, 0x88, 0x07],
    [0x88, 0x88, 0x88, 0x8f, 0x88, 0x88, 0x88, 0x88],
    [0x02, 0x05, 0x88, 0xe8, 0xaf, 0xe8, 0xa8, 0xa8],
    [0x87, 0x88, 0x88, 0xe7, 0xa8, 0xe8, 0xa8, 0xa7],
    [0x07, 0x88, 0x88, 0xe0, 0xa0, 0xe8, 0xa8, 0x27],
    [0x87, 0x88, 0x88, 0xe8, 0xa8, 0xe8, 0xa8, 0xa7],
    [0x87, 0x80, 0x80, 0xe7, 0xa0, 0xe0, 0xa0, 0xaf],
    [0x87, 0x80, 0x80, 0xe7, 0xa0, 0xe0, 0xa0, 0xa0],
    [0x07, 0x88, 0x80, 0xe0, 0xae, 0xe8, 0xa8, 0x27],
    [0x97, 0x90, 0x90, 0x97, 0x90, 0x90, 0x90, 0xd0],
    [0x13, 0x94, 0x94, 0xf4, 0xd4, 0xd4, 0xb4, 0x53],
    [0x04, 0x1f, 0x04, 0x1f, 0x04, 0x0f, 0x15, 0x22],
    [0x04, 0x0f, 0x04, 0x1e, 0x08, 0x12, 0x01, 0x0e],
    [0x55, 0xaa, 0x55, 0xaa, 0x55, 0xaa, 0x55, 0xaa],
    [0x03, 0x80, 0x80, 0x49, 0x4a, 0x4a, 0xca, 0x79],
    [0x09, 0x8a, 0xca, 0xaa, 0x9a, 0xaa, 0xaa, 0x49],
    [0x83, 0x80, 0x80, 0xab, 0xd8, 0x88, 0x88, 0x8b],
    [0x80, 0xf0, 0x90, 0x90, 0xf0, 0x90, 0x90, 0xf7],
    [0x00, 0x00, 0x00, 0x00, 0x33, 0x00, 0x00, 0x00],
    [0xff, 0xc0, 0xc0, 0xc0, 0xc0, 0xc0, 0xc0, 0xff],
    [0x00, 0x3f, 0x21, 0x21, 0x21, 0x21, 0x3f, 0x00],
    [0x00, 0x00, 0x1e, 0x12, 0x12, 0x1e, 0x00, 0x00],
    [0x00, 0x00, 0x00, 0x0c, 0x0c, 0x00, 0x00, 0x00]
  ]

  /** The eight rows of image letter. */
  function Letter(letter: int): (rows: seq<bv8>)
    requires 0 <= letter < |LETTERS|
    ensures |rows| == 8
  {
    LETTERS[letter]
  }

  /** ada88_write: the frame of the image is written to the matrix (an index outside the table is undefined in C). */
  method WriteLetter(bus: I2cBus, letter: int)
    requires 0 <= letter < |LETTERS|
    modifies bus
    ensures bus.log == old(bus.log) + [I2cWrite(ADA88_I2C_ADRS, Frame(Letter(letter)))]
    ensures bus.replies == Rest(old(bus.replies))
  {
    SendFrame(bus, Letter(letter));
  }

  // ---------------------------------------------------------------------
  //  ada88_write_bit, ada88_writeBit and ada88_write_org_bit
  // ---------------------------------------------------------------------

  /** The upper byte of a 16-bit word. */
  function HighByte(num: bv16): bv8 {
    ((num >> 8) & 0xff) as bv8
  }

  /** The lower byte of a 16-bit word. */
  function LowByte(num: bv16): bv8 {
    (num & 0xff) as bv8
  }

  /**
   * The rows of a word: rows 0..5 dark, then the upper and the lower byte,
   * each rotated right by one bit (the matrix columns are wired one place
   * off, so bit 0 lights the leftmost LED).
   */
  function WordRows(num: bv16): (rows: seq<bv8>)
    ensures |rows| == 8
  {
    [0, 0, 0, 0, 0, 0, HighByte(num).RotateRight(1), LowByte(num).RotateRight(1)]
  }

  /** The word the two bottom rows of a frame show. */
  function ShownWord(rows: seq<bv8>): bv16
    requires |rows| == 8
  {
    ((rows[6].RotateLeft(1) as bv16) << 8) | (rows[7].RotateLeft(1) as bv16)
  }

  /** The frame of a word shows that word, and nothing above its two rows. */
  lemma WordRoundTrip(num: bv16)
    ensures ShownWord(WordRows(num)) == num
    ensures forall i :: 0 <= i < 6 ==> WordRows(num)[i] == 0
  {
    var hi, lo := HighByte(num), LowByte(num);
    assert hi.RotateRight(1).RotateLeft(1) == hi;
    assert lo.RotateRight(1).RotateLeft(1) == lo;
  }

  /**
   * The rows ada88_write_bit (and ada88_writeBit, its identical older twin)
   * builds: each byte is shifted right by one and its bit 0 is added back
   * as bit 7.
   */
  method WordPattern(num: bv16) returns (ledPtn: seq<bv8>)
    ensures ledPtn == WordRows(num)
  {
    var led := new bv8[8](_ => 0);
    var lsb: bv8 := 0x00;
    var bits: bv8 := ((num >> 8) & 0x00ff) as bv8;
    if bits & 0x01 != 0 {
      lsb := 0x80;
    }
    led[6] := (bits >> 1) + lsb;
    bits := (num & 0x00ff) as bv8;
    lsb := 0x00;
    if bits & 0x01 != 0 {
      lsb := 0x80;
    }
    led[7] := (bits >> 1) + lsb;
    ledPtn := led[..];
  }

  /** ada88_write_bit: the frame of the word is written to the matrix. */
  method WriteBit(bus: I2cBus, num: bv16)
    modifies bus
    ensures bus.log == old(bus.log) + [I2cWrite(ADA88_I2C_ADRS, Frame(WordRows(num)))]
    ensures bus.replies == Rest(old(bus.replies))
  {
    var ledPtn := WordPattern(num);
    SendFrame(bus, ledPtn);
  }

  /** 2 to the power k: the value of 0x0001 << k. */
  function Pow2(k: nat): (p: nat)
    ensures p >= 1
  {
    if k == 0 then 1 else 2 * Pow2(k - 1)
  }

  /** Bit k of a natural number. */
  predicate Bit(n: nat, k: nat) {
    if k == 0 then n % 2 == 1 else Bit(n / 2, k - 1)
  }

  /** The number whose bit k is set exactly when flags[k] holds. */
  function Weight(flags: seq<bool>): (w: nat)
    ensures w < Pow2(|flags|)
  {
    if flags == [] then 0 else (if flags[0] then 1 else 0) + 2 * Weight(flags[1..])
  }

  /** Each flag is read back as its bit of the weight. */
  lemma {:induction false} WeightBits(flags: seq<bool>, k: nat)
    requires k < |flags|
    ensures Bit(Weight(flags), k) <==> flags[k]
  {
    if k > 0 {
      var w := Weight(flags);
      assert w / 2 == Weight(flags[1..]);
      WeightBits(flags[1..], k - 1);
    }
  }

  /** Appending a flag adds its bit. */
  lemma {:induction false} WeightSnoc(flags: seq<bool>, b: bool)
    ensures Weight(flags + [b]) == Weight(flags) + (if b then Pow2(|flags|) else 0)
  {
    if flags != [] {
      assert (flags + [b])[1..] == flags[1..] + [b];
      WeightSnoc(flags[1..], b);
    }
  }

  lemma Pow2Sixteen()
    ensures Pow2(16) == 0x1_0000
  {
    assert Pow2(4) == 16;
    assert Pow2(8) == 256;
    assert Pow2(12) == 4096;
  }

  /** Sixteen flags packed into the uint16_t word ada88_write_org_bit passes on. */
  function Word16(flags: seq<bool>): bv16
    requires |flags| == 16
  {
    Pow2Sixteen();
    Weight(flags) as bv16
  }

  /** The word of ada88_write_org_bit: bit i is set exactly when bit[i] holds. */
  method OrgBitWord(bit: array<bool>) returns (num: int)
    requires bit.Length >= 16
    ensures 0 <= num < 0x1_0000 && num == Weight(bit[..16])
    ensures forall k :: 0 <= k < 16 ==> (Bit(num, k) <==> bit[k])
  {
    num := 0;
    for i := 0 to 16
      invariant num == Weight(bit[..i])
    {
      assert bit[..i + 1] == bit[..i] + [bit[i]];
      WeightSnoc(bit[..i], bit[i]);
      if bit[i] {
        num := num + Pow2(i);
      }
    }
    assert bit[..16] == bit[..] [..16];
    Pow2Sixteen();
    forall k | 0 <= k < 16
      ensures Bit(num, k) <==> bit[k]
    {
      WeightBits(bit[..16], k);
    }
  }

  /** ada88_write_org_bit: sixteen flags are packed into a word and shown by ada88_write_bit. */
  method WriteOrgBit(bus: I2cBus, bit: array<bool>)
    requires bit.Length >= 16
    modifies bus
    ensures bus.log == old(bus.log) + [I2cWrite(ADA88_I2C_ADRS, Frame(WordRows(Word16(bit[..16]))))]
    ensures bus.replies == Rest(old(bus.replies))
  {
    var num := OrgBitWord(bit);
    WriteBit(bus, num as bv16);
  }

  // ---------------------------------------------------------------------
  //  ada88_write_5param
  // ---------------------------------------------------------------------

  /** The clamp of ada88_write_5param: a value above hi is shown as hi. */
  function AtMost(p: nat, hi: nat): (c: nat)
    ensures c <= hi && c <= p
    ensures p <= hi ==> c == p
  {
    if p > hi then hi else p
  }

  /** Whether row r lies in a vertical bar of length c that grows upward from row 6. */
  predicate InBar(r: int, c: int) {
    7 - c <= r <= 6
  }

  /** The horizontal bar of row 7 for each length: the low c bits set. */
  const RULE: seq<bv8> := [0x00, 0x01, 0x03, 0x07, 0x0f, 0x1f, 0x3f, 0x7f]

  /** The dot 0x01 << c of the horizontal bar. */
  function Dot(c: nat): bv8
    requires c < 8
  {
    0x01 << c
  }

  /** One more step of the horizontal bar: Dot(c) is the next bit. */
  lemma RuleStep(c: nat)
    requires c < 7
    ensures RULE[c] | Dot(c) == RULE[c + 1]
  {
  }

  /** The three vertical bars at row r: 0x80 on the left, 0x20 and 0x40 on the right. */
  function BarBits(r: int, c3: int, c4: int, c5: int): bv8 {
    ((if InBar(r, c3) then 0x80 else 0) | (if InBar(r, c4) then 0x20 else 0)) | (if InBar(r, c5) then 0x40 else 0)
  }

  /** The glyph row drawn in bits 1..3 of row r: glyph rows 0..4 sit in rows 1..5. */
  function GlyphRowAt(g: seq<bv8>, r: int): bv8
    requires |g| == 5
  {
    if 1 <= r <= 5 then g[r - 1] << 1 else 0
  }

  /** Row r of the five-parameter image, for the clamped parameters. */
  function ParamRow(r: int, g: seq<bv8>, c2: nat, c3: nat, c4: nat, c5: nat): bv8
    requires |g| == 5 && c2 <= 7
  {
    if r == 7 then RULE[c2] | 0x80 else GlyphRowAt(g, r) | BarBits(r, c3, c4, c5)
  }

  /**
   * The rows of ada88_write_5param: the glyph of prm1 (at most 9) in rows
   * 1..5 shifted left by one, a horizontal bar of prm2 (at most 7) dots
   * and an always-lit corner in row 7, and vertical bars of prm3, prm4 and
   * prm5 (each at most 7) dots growing upward from row 6 in bits 7, 5 and 6.
   */
  function ParamRows(prm1: nat, prm2: nat, prm3: nat, prm4: nat, prm5: nat): (rows: seq<bv8>)
    ensures |rows| == 8
  {
    var g := NumLetter(AtMost(prm1, 9));
    var c2, c3, c4, c5 := AtMost(prm2, 7), AtMost(prm3, 7), AtMost(prm4, 7), AtMost(prm5, 7);
    seq(8, r requires 0 <= r < 8 => ParamRow(r, g, c2, c3, c4, c5))
  }

  /** The five values an image of ada88_write_5param shows. */
  datatype Params = Params(p1: int, p2: int, p3: int, p4: int, p5: int)

  /** The glyph row in bits 1..3 of a row. */
  function GlyphBits(b: bv8): bv8 {
    (b >> 1) & 0x07
  }

  /** The length of the horizontal bar of row 7, or 8 when its low bits are no bar. */
  function RuleIndex(b: bv8): (c: int)
    ensures 0 <= c <= 8
    ensures c < 8 ==> RULE[c] == b & 0x7f
  {
    RuleFrom(b & 0x7f, 0)
  }

  function RuleFrom(b: bv8, c: int): (r: int)
    requires 0 <= c <= 8
    ensures c <= r <= 8
    ensures r < 8 ==> RULE[r] == b
    ensures forall e :: c <= e < r ==> RULE[e] != b
    decreases 8 - c
  {
    if c == 8 then 8 else if RULE[c] == b then c else RuleFrom(b, c + 1)
  }

  /** No two bar lengths share a bar, so a bar is read back as its length. */
  lemma RuleIndexOf(b: bv8, c: int)
    requires 0 <= c < 8 && b & 0x7f == RULE[c]
    ensures RuleIndex(b) == c
  {
  }

  /** The number of rows below n (of rows 0..6) in which the mask is lit. */
  function CountLit(rows: seq<bv8>, mask: bv8, n: nat): (count: nat)
    requires n <= |rows|
    ensures count <= n
  {
    if n == 0 then 0 else CountLit(rows, mask, n - 1) + (if rows[n - 1] & mask != 0 then 1 else 0)
  }

  /** What an image shows: the glyph, the length of the horizontal bar and the heights of the three vertical bars. */
  function ShownParams(rows: seq<bv8>): Params
    requires |rows| == 8
  {
    Params(GlyphIndex([GlyphBits(rows[1]), GlyphBits(rows[2]), GlyphBits(rows[3]), GlyphBits(rows[4]), GlyphBits(rows[5])]),
           RuleIndex(rows[7]), CountLit(rows, 0x80, 7), CountLit(rows, 0x20, 7), CountLit(rows, 0x40, 7))
  }

  /**
   * Row by row: rows 0..6 carry bit 7, 5 or 6 exactly inside the bar of
   * length c3, c4 or c5, bits 1..3 of rows 1..5 hold the glyph and bits 0
   * and 4 stay dark; row 7 always has bit 7 and its low bits are the bar
   * of length c2.
   */
  lemma RowMarks(r: int, g: seq<bv8>, c2: nat, c3: nat, c4: nat, c5: nat)
    requires 0 <= r < 8 && |g| == 5 && c2 <= 7
    requires forall i :: 0 <= i < 5 ==> g[i] & 0xf8 == 0
    ensures var row := ParamRow(r, g, c2, c3, c4, c5);
            if r == 7 then row & 0x80 != 0 && row & 0x7f == RULE[c2]
            else && (row & 0x80 != 0 <==> InBar(r, c3))
                 && (row & 0x20 != 0 <==> InBar(r, c4))
                 && (row & 0x40 != 0 <==> InBar(r, c5))
                 && GlyphBits(row) == (if 1 <= r <= 5 then g[r - 1] else 0)
                 && row & 0x11 == 0
  {
    if r < 7 {
      var glyph: bv8 := if 1 <= r <= 5 then g[r - 1] else 0;
      assert glyph & 0xf8 == 0;
      assert GlyphRowAt(g, r) == glyph << 1;
    }
  }

  /** A mask lit exactly in a bar of length c is counted c times over rows 0..6. */
  lemma {:induction false} CountBar(rows: seq<bv8>, mask: bv8, c: nat, n: nat)
    requires |rows| == 8 && c <= 7 && n <= 7
    requires forall r :: 0 <= r < 7 ==> (rows[r] & mask != 0 <==> InBar(r, c))
    ensures CountLit(rows, mask, n) == if n <= 7 - c then 0 else n - (7 - c)
  {
    if n > 0 {
      CountBar(rows, mask, c, n - 1);
      assert rows[n - 1] & mask != 0 <==> InBar(n - 1, c);
    }
  }

  /** Rows that carry a glyph, a horizontal bar and three vertical bars show those. */
  lemma ShownFromMarks(rows: seq<bv8>, d: int, c2: nat, c3: nat, c4: nat, c5: nat)
    requires |rows| == 8 && 0 <= d < 10 && c2 <= 7 && c3 <= 7 && c4 <= 7 && c5 <= 7
    requires forall r :: 0 <= r < 7 ==> (rows[r] & 0x80 != 0 <==> InBar(r, c3))
    requires forall r :: 0 <= r < 7 ==> (rows[r] & 0x20 != 0 <==> InBar(r, c4))
    requires forall r :: 0 <= r < 7 ==> (rows[r] & 0x40 != 0 <==> InBar(r, c5))
    requires forall r :: 1 <= r <= 5 ==> GlyphBits(rows[r]) == NumLetter(d)[r - 1]
    requires rows[7] & 0x7f == RULE[c2]
    ensures ShownParams(rows) == Params(d, c2, c3, c4, c5)
  {
    assert [GlyphBits(rows[1]), GlyphBits(rows[2]), GlyphBits(rows[3]), GlyphBits(rows[4]), GlyphBits(rows[5])] == NumLetter(d);
    GlyphIndexOf(d);
    RuleIndexOf(rows[7], c2);
    CountBar(rows, 0x80, c3, 7);
    CountBar(rows, 0x20, c4, 7);
    CountBar(rows, 0x40, c5, 7);
  }

  /** The image shows exactly the clamped parameters: ShownParams inverts ParamRows. */
  lemma ParamRoundTrip(prm1: nat, prm2: nat, prm3: nat, prm4: nat, prm5: nat)
    ensures ShownParams(ParamRows(prm1, prm2, prm3, prm4, prm5))
         == Params(AtMost(prm1, 9), AtMost(prm2, 7), AtMost(prm3, 7), AtMost(prm4, 7), AtMost(prm5, 7))
  {
    var rows, g := ParamRows(prm1, prm2, prm3, prm4, prm5), NumLetter(AtMost(prm1, 9));
    var c2, c3, c4, c5 := AtMost(prm2, 7), AtMost(prm3, 7), AtMost(prm4, 7), AtMost(prm5, 7);
    forall r | 0 <= r < 8
      ensures var row := rows[r];
              if r == 7 then row & 0x7f == RULE[c2]
              else && (row & 0x80 != 0 <==> InBar(r, c3))
                   && (row & 0x20 != 0 <==> InBar(r, c4))
                   && (row & 0x40 != 0 <==> InBar(r, c5))
                   && GlyphBits(row) == (if 1 <= r <= 5 then g[r - 1] else 0)
    {
      assert rows[r] == ParamRow(r, g, c2, c3, c4, c5);
      RowMarks(r, g, c2, c3, c4, c5);
    }
    ShownFromMarks(rows, AtMost(prm1, 9), c2, c3, c4, c5);
  }

  /** Row r before the vertical bars are drawn: the glyph in rows 1..5 and the horizontal bar in row 7. */
  function BaseRow(g: seq<bv8>, c2: nat, r: int): bv8
    requires |g| == 5 && c2 <= 7
  {
    if r == 7 then RULE[c2] | 0x80 else GlyphRowAt(g, r)
  }

  function BaseRows(g: seq<bv8>, c2: nat): (rows: seq<bv8>)
    requires |g| == 5 && c2 <= 7
    ensures |rows| == 8
  {
    seq(8, r requires 0 <= r < 8 => BaseRow(g, c2, r))
  }

  /** The mask a vertical bar of length c adds to row r. */
  function BarAt(r: int, c: int, mask: bv8): bv8 {
    if InBar(r, c) then mask else 0
  }

  /** rows with a vertical bar of length c drawn in mask. */
  function WithBar(rows: seq<bv8>, c: int, mask: bv8): (r: seq<bv8>)
    requires |rows| == 8
    ensures |r| == 8
  {
    seq(8, k requires 0 <= k < 8 => rows[k] | BarAt(k, c, mask))
  }

  /** ParamRows is the base rows with the bars of prm3, prm4 and prm5 drawn over them, in that order. */
  lemma ParamRowsFrom(prm1: nat, prm2: nat, prm3: nat, prm4: nat, prm5: nat)
    ensures ParamRows(prm1, prm2, prm3, prm4, prm5)
         == WithBar(WithBar(WithBar(BaseRows(NumLetter(AtMost(prm1, 9)), AtMost(prm2, 7)), AtMost(prm3, 7), 0x80),
                            AtMost(prm4, 7), 0x20), AtMost(prm5, 7), 0x40)
  {
    var g := NumLetter(AtMost(prm1, 9));
    var c2, c3, c4, c5 := AtMost(prm2, 7), AtMost(prm3, 7), AtMost(prm4, 7), AtMost(prm5, 7);
    forall r | 0 <= r < 8
      ensures ParamRow(r, g, c2, c3, c4, c5) == ((BaseRow(g, c2, r) | BarAt(r, c3, 0x80)) | BarAt(r, c4, 0x20)) | BarAt(r, c5, 0x40)
    {
    }
  }

  /** One vertical bar of ada88_write_5param: rows 6, 5, ... get the mask, c of them. */
  method DrawBar(led: array<bv8>, c: nat, mask: bv8)
    requires led.Length == 8 && c <= 7
    modifies led
    ensures led[..] == WithBar(old(led[..]), c, mask)
  {
    for i := 0 to c
      invariant forall k :: 0 <= k < 8 ==> led[k] == old(led[k]) | BarAt(k, i, mask)
    {
      led[6 - i] := led[6 - i] | mask;
    }
  }

  /** The horizontal bar of ada88_write_5param: bits 0 .. c-1 of row 7 are lit. */
  method DrawRule(led: array<bv8>, c: nat)
    requires led.Length == 8 && c <= 7
    modifies led
    ensures forall k :: 0 <= k < 7 ==> led[k] == old(led[k])
    ensures led[7] == old(led[7]) | RULE[c]
  {
    for i := 0 to c
      invariant forall k :: 0 <= k < 7 ==> led[k] == old(led[k])
      invariant led[7] == old(led[7]) | RULE[i]
    {
      RuleStep(i);
      led[7] := led[7] | Dot(i);
    }
  }

  /** The pattern-building part of ada88_write_5param. */
  method ParamPattern(prm1: nat, prm2: nat, prm3: nat, prm4: nat, prm5: nat) returns (ledPtn: seq<bv8>)
    ensures ledPtn == ParamRows(prm1, prm2, prm3, prm4, prm5)
  {
    var p1, p2, p3, p4, p5 := prm1, prm2, prm3, prm4, prm5;
    var led := new bv8[8](_ => 0);
    if p1 > 9 { p1 := 9; }
    if p2 > 7 { p2 := 7; }
    if p3 > 7 { p3 := 7; }
    if p4 > 7 { p4 := 7; }
    if p5 > 7 { p5 := 7; }
    var g := NumLetter(p1);
    for i := 0 to 5
      modifies led
      invariant forall k :: 0 <= k < 8 ==> led[k] == if k <= i then GlyphRowAt(g, k) else 0
    {
      led[i + 1] := led[i + 1] | (g[i] << 1);
    }
    DrawRule(led, p2);
    led[7] := led[7] | 0x80;
    assert led[..] == BaseRows(g, p2);
    DrawBar(led, p3, 0x80);
    DrawBar(led, p4, 0x20);
    DrawBar(led, p5, 0x40);
    ledPtn := led[..];
    ParamRowsFrom(prm1, prm2, prm3, prm4, prm5);
  }

  /** ada88_write_5param: the image of the five clamped values is written to the matrix. */
  method WriteFiveParams(bus: I2cBus, prm1: nat, prm2: nat, prm3: nat, prm4: nat, prm5: nat)
    modifies bus
    ensures bus.log == old(bus.log) + [I2cWrite(ADA88_I2C_ADRS, Frame(ParamRows(prm1, prm2, prm3, prm4, prm5)))]
    ensures bus.replies == Rest(old(bus.replies))
  {
    var ledPtn := ParamPattern(prm1, prm2, prm3, prm4, prm5);
    SendFrame(bus, ledPtn);
  }

  // ---------------------------------------------------------------------
  //  ada88_anime
  // ---------------------------------------------------------------------

  /** bitmap: the scrolling text, one byte per column, bit 7 at the top. */
  const BITMAP: seq<bv8> := [
    0x00, 0x00, 0x00, 0x00,
    0x00, 0x00, 0x00, 0x00, 0x00, 0x00, 0x00, 0x00, 0x00, 0x00, 0x00, 0x00, 0x00, 0x00, 0x00, 0x00,
    0x00, 0x40, 0x40, 0x7e, 0x40, 0x5e, 0x12, 0x1e, 0x00, 0x1e, 0x02, 0x1e, 0x02, 0x00, 0x1e, 0x12,
    0x1a, 0x00, 0x7e, 0x08, 0x0e, 0x00, 0x00, 0x00, 0x7e, 0x48, 0x7e, 0x00, 0x7e, 0x0a, 0x0e, 0x00,
    0x1e, 0x12, 0x1e, 0x00, 0x1c, 0x02, 0x1c, 0x00, 0x3e, 0x2a, 0x3a, 0x00
  ]

  /** SFT: where the i-th byte read is stored. */
  const SFT: seq<int> := [0, 7, 6, 5, 4, 3, 2, 1]

  /** SFT is its own inverse: the byte stored in column k is byte SFT[k] of the window. */
  lemma SftInverse(i: int)
    requires 0 <= i < 8
    ensures 0 <= SFT[i] < 8 && SFT[SFT[i]] == i
  {
  }

  /** The bitmap byte at position i. */
  function Bitmap(i: int): bv8
    requires 0 <= i < 64
  {
    BITMAP[i]
  }

  /**
   * The eight bitmap columns on screen at time t: column SFT[i] holds byte
   * (t + i) mod 64, so column 0 holds byte t and column k > 0 byte t + 8 - k.
   */
  function AnimeColumns(time: nat): (cols: seq<bv8>)
    ensures |cols| == 8
  {
    seq(8, k requires 0 <= k < 8 => Bitmap((time + SFT[k]) % 64))
  }

  /** The mask of LED column j, counted from the left. */
  const COLUMN: seq<bv8> := [0x80, 0x40, 0x20, 0x10, 0x08, 0x04, 0x02, 0x01]

  function Column(j: nat): bv8
    requires j < 8
  {
    COLUMN[j]
  }

  /** The mask ada88_anime computes as 0x80 >> j. */
  lemma ColumnShift(j: nat)
    requires j < 8
    ensures (0x80 as bv8) >> j == Column(j)
  {
  }

  /** Whether LED j (from the left) of a byte is lit. */
  predicate Lit(b: bv8, j: nat)
    requires j < 8
  {
    b & Column(j) != 0
  }

  /** Row i of the transpose, after the first n columns of m are scanned: the register reg of ada88_anime. */
  function ColumnByte(m: seq<bv8>, i: nat, n: nat): bv8
    requires |m| == 8 && i < 8 && n <= 8
  {
    if n == 0 then 0 else ColumnByte(m, i, n - 1) | (if Lit(m[n - 1], i) then Column(n - 1) else 0)
  }

  /** The transpose of an 8x8 bit matrix: LED j of row i is LED i of row j. */
  function Transpose(m: seq<bv8>): (t: seq<bv8>)
    requires |m| == 8
    ensures |t| == 8
  {
    seq(8, i requires 0 <= i < 8 => ColumnByte(m, i, |m|))
  }

  /** Or-ing a byte in lights exactly its LEDs; a column mask lights exactly its own LED. */
  lemma LitFacts(a: bv8, b: bv8, j: nat, n: nat)
    requires j < 8 && n < 8
    ensures Lit(a | b, j) <==> Lit(a, j) || Lit(b, j)
    ensures Lit(Column(n), j) <==> j == n
    ensures !Lit(0, j)
  {
  }

  /** The first n columns scanned light LED j of the register exactly when they should. */
  lemma {:induction false} ColumnByteLit(m: seq<bv8>, i: nat, n: nat, j: nat)
    requires |m| == 8 && i < 8 && n <= 8 && j < 8
    ensures Lit(ColumnByte(m, i, n), j) <==> j < n && Lit(m[j], i)
  {
    if n > 0 {
      ColumnByteLit(m, i, n - 1, j);
      LitFacts(ColumnByte(m, i, n - 1), if Lit(m[n - 1], i) then Column(n - 1) else 0, j, n - 1);
    }
  }

  /** LED j of row i of the transpose is LED i of row j. */
  lemma TransposeLit(m: seq<bv8>, i: nat, j: nat)
    requires |m| == 8 && i < 8 && j < 8
    ensures Lit(Transpose(m)[i], j) <==> Lit(m[j], i)
  {
    ColumnByteLit(m, i, |m|, j);
  }

  /** Two bytes that light the same LEDs are equal. */
  lemma SameLeds(a: bv8, b: bv8)
    requires forall j :: 0 <= j < 8 ==> (Lit(a, j) <==> Lit(b, j))
    ensures a == b
  {
    assert Lit(a, 0) == Lit(b, 0) && Lit(a, 1) == Lit(b, 1) && Lit(a, 2) == Lit(b, 2) && Lit(a, 3) == Lit(b, 3);
    assert Lit(a, 4) == Lit(b, 4) && Lit(a, 5) == Lit(b, 5) && Lit(a, 6) == Lit(b, 6) && Lit(a, 7) == Lit(b, 7);
  }

  /** Transposing twice gives the matrix back. */
  lemma TransposeTwice(m: seq<bv8>)
    requires |m| == 8
    ensures Transpose(Transpose(m)) == m
  {
    var t := Transpose(m);
    forall i | 0 <= i < 8
      ensures Transpose(t)[i] == m[i]
    {
      forall j | 0 <= j < 8
        ensures Lit(Transpose(t)[i], j) <==> Lit(m[i], j)
      {
        TransposeLit(t, i, j);
        TransposeLit(m, j, i);
      }
      SameLeds(Transpose(t)[i], m[i]);
    }
  }

  /** The first loop of ada88_anime: the window of bitmap bytes at time, stored through SFT. */
  method AnimeWindow(time: int) returns (tmpBuf: array<bv8>)
    requires 0 <= time <= 0x7fff_ffff - 7
    ensures fresh(tmpBuf) && tmpBuf[..] == AnimeColumns(time)
  {
    tmpBuf := new bv8[8];
    for i := 0 to 8
      invariant forall k :: 0 <= k < 8 && SFT[k] < i ==> tmpBuf[k] == AnimeColumns(time)[k]
    {
      SftInverse(i);
      tmpBuf[SFT[i]] := Bitmap((time + i) % 64);
    }
  }

  /**
   * The inner loop of ada88_anime: LED j of the register is lit exactly when
   * LED i of tmpBuf[j] is. (bit is a signed char in C, but tmpBuf[j] & bit
   * still tests that one bit.)
   */
  method ColumnRegister(tmpBuf: array<bv8>, i: nat) returns (reg: bv8)
    requires tmpBuf.Length == 8 && i < 8
    ensures reg == ColumnByte(tmpBuf[..], i, tmpBuf.Length)
    ensures forall j :: 0 <= j < 8 ==> (Lit(reg, j) <==> Lit(tmpBuf[j], i))
  {
    ColumnShift(i);
    var bit: bv8 := 0x80 >> i;
    reg := 0;
    for j := 0 to 8
      invariant reg == ColumnByte(tmpBuf[..], i, j)
    {
      if tmpBuf[j] & bit != 0 {
        ColumnShift(j);
        reg := reg | (0x80 >> j);
      }
    }
    forall j | 0 <= j < 8
      ensures Lit(reg, j) <==> Lit(tmpBuf[j], i)
    {
      ColumnByteLit(tmpBuf[..], i, tmpBuf.Length, j);
    }
  }

  /**
   * The pattern of ada88_anime: the eight columns of the bitmap at time,
   * transposed into rows (LED j of row i is LED i of column j). time must
   * be non-negative and keep time + 7 within int, or the C index is
   * undefined.
   */
  method AnimePattern(time: int) returns (ledPtn: seq<bv8>)
    requires 0 <= time <= 0x7fff_ffff - 7
    ensures ledPtn == Transpose(AnimeColumns(time))
  {
    var tmpBuf := AnimeWindow(time);
    ghost var cols := tmpBuf[..];
    var led := new bv8[8];
    for i := 0 to 8
      modifies led
      invariant tmpBuf[..] == cols
      invariant forall k :: 0 <= k < i ==> led[k] == Transpose(cols)[k]
    {
      led[i] := ColumnRegister(tmpBuf, i);
    }
    ledPtn := led[..];
  }

  /**
   * ada88_anime: the animation step at time is written to the matrix (the
   * source stores each register straight into the I2C buffer, which gives
   * the same bytes as SendFrame).
   */
  method Anime(bus: I2cBus, time: int)
    requires 0 <= time <= 0x7fff_ffff - 7
    modifies bus
    ensures bus.log == old(bus.log) + [I2cWrite(ADA88_I2C_ADRS, Frame(Transpose(AnimeColumns(time))))]
    ensures bus.replies == Rest(old(bus.replies))
  {
    var ledPtn := AnimePattern(time);
    SendFrame(bus, ledPtn);
  }
}
