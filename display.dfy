// The watch's time-of-day clock and its LED-matrix display encoding
// (firmware/watch.c: time_to_led_mask, hours, minutes).

module Display {

  /** Milliseconds in an hour, a minute and a day. */
  const HOUR_MS: nat := 3600000
  const MINUTE_MS: nat := 60000
  const DAY_MS: nat := 86400000

  // ---------------------------------------------------------------------
  // Time of day
  // ---------------------------------------------------------------------

  /** hours(): whole seconds, reduced to a day, divided into hours. */
  function Hours(ms: nat): (h: nat)
    ensures h < 24
  {
    ((ms / 1000) % 86400) / 3600
  }

  /** minutes(): whole seconds, reduced to an hour, divided into minutes. */
  function Minutes(ms: nat): (m: nat)
    ensures m < 60
  {
    ((ms / 1000) % 3600) / 60
  }

  /** Two nested integer divisions are one division by the product. */
  lemma DivDiv(x: nat, a: nat, b: nat)
    requires a > 0 && b > 0
    ensures (x / a) / b == x / (a * b)
  {
    var q, r := x / (a * b), x % (a * b);
    DivBound(r, a, b);
    DivOfProduct(x, a, b);
    DivUnique(x / a, b, q, r / a);
  }

  /** Dividing by a first splits the quotient by a * b into b-sized
      parts: x / a is q * b + (x % (a * b)) / a for q = x / (a * b). */
  lemma DivOfProduct(x: nat, a: nat, b: nat)
    requires a > 0 && b > 0
    ensures x / a == (x / (a * b)) * b + (x % (a * b)) / a
  {
    var q, r := x / (a * b), x % (a * b);
    var u, v := r / a, r % a;
    assert r == u * a + v;
    Regroup(q, b, u, a);
    DivUnique(x, a, q * b + u, v);
  }

  lemma Regroup(q: nat, b: nat, u: nat, a: nat)
    ensures (q * b + u) * a == q * (a * b) + u * a
  {
  }

  /** The quotient and remainder of a division are the only such pair. */
  lemma DivUnique(x: nat, a: nat, q: nat, r: nat)
    requires a > 0 && r < a && x == q * a + r
    ensures x / a == q && x % a == r
  {
    var q', r' := x / a, x % a;
    assert (q - q') * a == r' - r;
    MulFar(q - q', a);
  }

  /** A non-zero multiple of a is at least a away from zero. */
  lemma MulFar(k: int, a: int)
    requires a > 0
    ensures k == 0 || k * a >= a || k * a <= -a
  {
  }

  /** Multiplying by a positive number preserves a strict order. */
  lemma MulCancelLt(u: nat, v: nat, a: nat)
    requires a > 0 && u * a < v * a
    ensures u < v
  {
  }

  lemma DivBound(r: nat, a: nat, b: nat)
    requires a > 0 && b > 0 && r < a * b
    ensures r / a < b
  {
    assert (r / a) * a <= r;
    MulCancelLt(r / a, b, a);
  }

  /** Taking a remainder of a quotient is the quotient of a remainder. */
  lemma ModOfDiv(x: nat, a: nat, b: nat)
    requires a > 0 && b > 0
    ensures (x / a) % b == (x % (a * b)) / a
  {
    var q, r := x / (a * b), x % (a * b);
    DivBound(r, a, b);
    DivOfProduct(x, a, b);
    DivUnique(x / a, b, q, r / a);
  }

  /** Hours and minutes in the closed form of a day: the hour within the
      day, the minute within the hour. */
  lemma {:induction false} TimeOfDay(ms: nat)
    ensures Hours(ms) == (ms % DAY_MS) / HOUR_MS
    ensures Minutes(ms) == (ms / MINUTE_MS) % 60
  {
    ModOfDiv(ms, 1000, 86400);
    DivDiv(ms % DAY_MS, 1000, 3600);
    ModOfDiv(ms, 1000, 3600);
    DivDiv(ms % 3600000, 1000, 60);
    ModOfDiv(ms, MINUTE_MS, 60);
  }

  // ---------------------------------------------------------------------
  // LED-matrix encoding
  // ---------------------------------------------------------------------

  /** Whether LED k (bit k of a 16-bit LED mask) is lit. */
  predicate MaskBit(mask: bv16, k: bv8)
    requires k < 16
  {
    mask & (1 << k) != 0
  }

  /** Conversion to uint8_t keeps the value modulo 256. */
  function Byte(x: nat): (b: nat)
    ensures b < 256
  {
    x % 256
  }

  /** Whether bit j of a digit byte is set (a[i] & (1 << j)), for the four
      rows. */
  predicate DigitBit(d: nat, j: nat)
    requires j < 4
  {
    if j == 0 then d % 2 == 1
    else if j == 1 then (d / 2) % 2 == 1
    else if j == 2 then (d / 4) % 2 == 1
    else (d / 8) % 2 == 1
  }

  /** The four displayed digits (hour tens, hour ones, minute tens, minute
      ones), each stored in a uint8_t. */
  function Digits(hours: nat, minutes: nat): (a: seq<nat>)
    ensures |a| == 4
  {
    [Byte(hours / 10), Byte(hours % 10), Byte(minutes / 10), Byte(minutes % 10)]
  }

  /** A column or row number given as a bit index, as a number. */
  function Index(i: bv8): (n: nat)
    requires i < 4
    ensures n < 4
  {
    if i == 0 then 0 else if i == 1 then 1 else if i == 2 then 2 else 3
  }

  /** A column or row number as a bit index. */
  function Index8(i: nat): (b: bv8)
    requires i < 4
    ensures b < 4 && Index(b) == i
  {
    if i == 0 then 0 else if i == 1 then 1 else if i == 2 then 2 else 3
  }

  /** Bit j of a digit byte as 0 or 1. */
  function RowBit(d: nat, j: nat): bv16
    requires j < 4
  {
    if DigitBit(d, j) then 1 else 0
  }

  /** What one pass of the inner loop ORs in: bit j*4+i, set when bit j of
      the column's digit is. */
  function Cell(d: nat, i: nat, j: nat): bv16
    requires i < 4 && j < 4
  {
    RowBit(d, j) << (Index8(j) * 4 + Index8(i))
  }

  /** The mask the two loops have built once they have handled every row
      of columns 0..i-1 and rows 0..j-1 of column i. */
  function Built(a: seq<nat>, i: nat, j: nat): bv16
    requires |a| == 4 && i <= 4 && j <= 4 && (i == 4 ==> j == 0)
    decreases i, j
  {
    if j > 0 then Built(a, i, j - 1) | Cell(a[i], i, j - 1)
    else if i > 0 then Built(a, i - 1, 4)
    else 0
  }

  /** The LED mask of time_to_led_mask for four digit bytes. */
  function DigitsMask(a: seq<nat>): bv16
    requires |a| == 4
  {
    Built(a, 4, 0)
  }

  /** time_to_led_mask(hours, minutes). */
  function LedMask(hours: nat, minutes: nat): bv16
  {
    DigitsMask(Digits(hours, minutes))
  }

  /** The low nibble of a digit laid out down a column: bit j goes to
      bit 4*j. */
  function Spread(d: nat): bv16
  {
    RowBit(d, 0) | (RowBit(d, 1) << 4) | (RowBit(d, 2) << 8) | (RowBit(d, 3) << 12)
  }

  /** The reference layout: four spread columns, column i shifted by i. */
  function ColumnLayout(a: seq<nat>): bv16
    requires |a| == 4
  {
    Spread(a[0]) | (Spread(a[1]) << 1) | (Spread(a[2]) << 2) | (Spread(a[3]) << 3)
  }

  /** Shifting a column left moves each of its four rows by as much. */
  lemma ColumnShift(r0: bv16, r1: bv16, r2: bv16, r3: bv16, i: bv8)
    requires i < 4
    ensures (r0 << i) | (r1 << (4 + i)) | (r2 << (8 + i)) | (r3 << (12 + i)) == (r0 | (r1 << 4) | (r2 << 8) | (r3 << 12)) << i
  {
  }

  /** The four cells of column i are the column's spread digit. */
  lemma {:induction false} CellsColumn(d: nat, i: nat)
    requires i < 4
    ensures Cell(d, i, 0) | Cell(d, i, 1) | Cell(d, i, 2) | Cell(d, i, 3) == Spread(d) << Index8(i)
  {
    if i == 0 {
      CellsColumn0(d);
    } else if i == 1 {
      CellsColumn1(d);
    } else if i == 2 {
      CellsColumn2(d);
    } else {
      CellsColumn3(d);
    }
  }

  lemma CellsColumn0(d: nat)
    ensures Cell(d, 0, 0) | Cell(d, 0, 1) | Cell(d, 0, 2) | Cell(d, 0, 3) == Spread(d)
  {
  }

  lemma CellsColumn1(d: nat)
    ensures Cell(d, 1, 0) | Cell(d, 1, 1) | Cell(d, 1, 2) | Cell(d, 1, 3) == Spread(d) << 1
  {
    var r0, r1, r2, r3 := RowBit(d, 0), RowBit(d, 1), RowBit(d, 2), RowBit(d, 3);
    assert Spread(d) == r0 | (r1 << 4) | (r2 << 8) | (r3 << 12);
    ColumnShift(r0, r1, r2, r3, 1);
  }

  lemma CellsColumn2(d: nat)
    ensures Cell(d, 2, 0) | Cell(d, 2, 1) | Cell(d, 2, 2) | Cell(d, 2, 3) == Spread(d) << 2
  {
    var r0, r1, r2, r3 := RowBit(d, 0), RowBit(d, 1), RowBit(d, 2), RowBit(d, 3);
    assert Spread(d) == r0 | (r1 << 4) | (r2 << 8) | (r3 << 12);
    ColumnShift(r0, r1, r2, r3, 2);
  }

  lemma CellsColumn3(d: nat)
    ensures Cell(d, 3, 0) | Cell(d, 3, 1) | Cell(d, 3, 2) | Cell(d, 3, 3) == Spread(d) << 3
  {
    var r0, r1, r2, r3 := RowBit(d, 0), RowBit(d, 1), RowBit(d, 2), RowBit(d, 3);
    assert Spread(d) == r0 | (r1 << 4) | (r2 << 8) | (r3 << 12);
    ColumnShift(r0, r1, r2, r3, 3);
  }

  lemma OrChain(b: bv16, c0: bv16, c1: bv16, c2: bv16, c3: bv16)
    ensures (((b | c0) | c1) | c2) | c3 == b | (c0 | c1 | c2 | c3)
  {
  }

  /** The inner loop ORs the four cells of column i into the mask. */
  lemma {:induction false} BuiltColumn(a: seq<nat>, i: nat)
    requires |a| == 4 && i < 4
    ensures Built(a, i, 4) == Built(a, i, 0) | (Cell(a[i], i, 0) | Cell(a[i], i, 1) | Cell(a[i], i, 2) | Cell(a[i], i, 3))
  {
    assert Built(a, i, 4) == Built(a, i, 3) | Cell(a[i], i, 3);
    assert Built(a, i, 3) == Built(a, i, 2) | Cell(a[i], i, 2);
    assert Built(a, i, 2) == Built(a, i, 1) | Cell(a[i], i, 1);
    assert Built(a, i, 1) == Built(a, i, 0) | Cell(a[i], i, 0);
    OrChain(Built(a, i, 0), Cell(a[i], i, 0), Cell(a[i], i, 1), Cell(a[i], i, 2), Cell(a[i], i, 3));
  }

  lemma OrColumns(s0: bv16, s1: bv16, s2: bv16, s3: bv16)
    ensures (((0 | (s0 << 0)) | (s1 << 1)) | (s2 << 2)) | (s3 << 3) == s0 | (s1 << 1) | (s2 << 2) | (s3 << 3)
  {
  }

  /** The nested loops build the reference layout. */
  lemma {:induction false} DigitsMaskLayout(a: seq<nat>)
    requires |a| == 4
    ensures DigitsMask(a) == ColumnLayout(a)
  {
    BuiltColumn(a, 0);
    BuiltColumn(a, 1);
    BuiltColumn(a, 2);
    BuiltColumn(a, 3);
    CellsColumn(a[0], 0);
    CellsColumn(a[1], 1);
    CellsColumn(a[2], 2);
    CellsColumn(a[3], 3);
    assert Built(a, 4, 0) == Built(a, 3, 4);
    assert Built(a, 3, 0) == Built(a, 2, 4);
    assert Built(a, 2, 0) == Built(a, 1, 4);
    assert Built(a, 1, 0) == Built(a, 0, 4);
    assert Built(a, 0, 0) == 0;
    OrColumns(Spread(a[0]), Spread(a[1]), Spread(a[2]), Spread(a[3]));
  }

  /** Bit j*4+i of the layout is row j of column i: the LED is lit exactly
      when its row bit is 1. */
  lemma LayoutBit(s0: bv16, s1: bv16, s2: bv16, s3: bv16, i: bv8, j: bv8)
    requires i < 4 && j < 4
    requires s0 & 0x1111 == s0 && s1 & 0x1111 == s1 && s2 & 0x1111 == s2 && s3 & 0x1111 == s3
    ensures MaskBit(s0 | (s1 << 1) | (s2 << 2) | (s3 << 3), j * 4 + i) ==
            MaskBit(if i == 0 then s0 else if i == 1 then s1 else if i == 2 then s2 else s3, j * 4)
  {
  }

  /** Bit 4*j of a spread digit is row j of the digit, and a spread digit
      has no other bits. */
  lemma SpreadBit(d: nat, j: bv8)
    requires j < 4
    ensures MaskBit(Spread(d), j * 4) == DigitBit(d, Index(j))
    ensures Spread(d) & 0x1111 == Spread(d)
  {
  }

  /** The encoding: LED j*4+i is lit exactly when bit j of digit i is set,
      for each of the four columns and rows, and these are all 16 LEDs. */
  lemma {:induction false} DigitsMaskBits(a: seq<nat>, i: bv8, j: bv8)
    requires |a| == 4 && i < 4 && j < 4
    ensures MaskBit(DigitsMask(a), j * 4 + i) == DigitBit(a[Index(i)], Index(j))
  {
    var c := a[Index(i)];
    var s0, s1, s2, s3 := Spread(a[0]), Spread(a[1]), Spread(a[2]), Spread(a[3]);
    DigitsMaskLayout(a);
    assert DigitsMask(a) == s0 | (s1 << 1) | (s2 << 2) | (s3 << 3);
    SpreadBit(a[0], j);
    SpreadBit(a[1], j);
    SpreadBit(a[2], j);
    SpreadBit(a[3], j);
    LayoutBit(s0, s1, s2, s3, i, j);
    assert (if i == 0 then s0 else if i == 1 then s1 else if i == 2 then s2 else s3) == Spread(c);
    SpreadBit(c, j);
  }

  /** Only the low four bits of a digit reach its row bits. */
  lemma DigitBitLowNibble(d: nat, j: nat)
    requires j < 4
    ensures DigitBit(d, j) == DigitBit(d % 16, j)
  {
    if j == 0 {
      ModOfMod(d, 8);
    } else if j == 1 {
      ModOfDiv(d, 2, 8);
      ModOfMod(d / 2, 4);
    } else if j == 2 {
      ModOfDiv(d, 4, 4);
      ModOfMod(d / 4, 2);
    } else {
      ModOfDiv(d, 8, 2);
    }
  }

  /** A remainder by an even number keeps the parity. */
  lemma ModOfMod(x: nat, k: nat)
    requires k > 0
    ensures (x % (2 * k)) % 2 == x % 2
  {
    var q, y := x / (2 * k), x % (2 * k);
    assert q * (2 * k) == 2 * (q * k);
    assert x == 2 * (q * k) + y;
  }

  /** Only the low four bits of each digit byte reach the LEDs, so the
      mask depends on each digit modulo 16. */
  lemma {:induction false} DigitsMaskLowNibble(a: seq<nat>, b: seq<nat>)
    requires |a| == 4 && |b| == 4
    requires forall i :: 0 <= i < 4 ==> a[i] % 16 == b[i] % 16
    ensures DigitsMask(a) == DigitsMask(b)
  {
    DigitsMaskLayout(a);
    DigitsMaskLayout(b);
    forall i | 0 <= i < 4
      ensures Spread(a[i]) == Spread(b[i])
    {
      SpreadLowNibble(a[i], b[i]);
    }
  }

  lemma SpreadLowNibble(d: nat, e: nat)
    requires d % 16 == e % 16
    ensures Spread(d) == Spread(e)
  {
    forall j | 0 <= j < 4
      ensures DigitBit(d, j) == DigitBit(e, j)
    {
      DigitBitLowNibble(d, j);
      DigitBitLowNibble(e, j);
    }
  }

  /** The uint8_t truncation of a digit does not change its low nibble, so
      time_to_led_mask shows each digit modulo 16. */
  lemma LedMaskLowNibble(hours: nat, minutes: nat)
    ensures LedMask(hours, minutes) ==
            DigitsMask([(hours / 10) % 16, (hours % 10) % 16, (minutes / 10) % 16, (minutes % 10) % 16])
  {
    var a := Digits(hours, minutes);
    var b := [(hours / 10) % 16, (hours % 10) % 16, (minutes / 10) % 16, (minutes % 10) % 16];
    forall i | 0 <= i < 4
      ensures a[i] % 16 == b[i] % 16
    {
      ByteLowNibble(if i == 0 then hours / 10 else if i == 1 then hours % 10 else if i == 2 then minutes / 10 else minutes % 10);
    }
    DigitsMaskLowNibble(a, b);
  }

  lemma ByteLowNibble(x: nat)
    ensures Byte(x) % 16 == x % 16
  {
    var q := x / 256;
    assert x == q * 256 + Byte(x);
    DivUnique(x, 16, q * 16 + Byte(x) / 16, Byte(x) % 16);
  }

  /** The column pattern of each decimal digit: bit 4*j set for the rows
      j whose weight (1, 2, 4, 8) is part of the digit. */
  lemma SpreadDigits()
    ensures Spread(0) == 0x0000 && Spread(1) == 0x0001
    ensures Spread(2) == 0x0010 && Spread(3) == 0x0011
    ensures Spread(4) == 0x0100 && Spread(5) == 0x0101
    ensures Spread(6) == 0x0110 && Spread(7) == 0x0111
    ensures Spread(8) == 0x1000 && Spread(9) == 0x1001
  {
  }

  /** The patterns the watch shows: 0:00, 1:00, 0:01 and 0:03, the hours
      and minutes the setting modes show (1:00, 2:00, 0:01, 0:02), 00:20,
      and 13:49 as drawn beside the LED geometry (hour digits 1 and 3,
      minute digits 4 and 9). */
  lemma LedMaskExamples()
    ensures LedMask(0, 0) == 0x0000
    ensures LedMask(1, 0) == 0x0002 && LedMask(2, 0) == 0x0020
    ensures LedMask(0, 1) == 0x0008 && LedMask(0, 2) == 0x0080 && LedMask(0, 3) == 0x0088
    ensures LedMask(0, 20) == 0x0040
    ensures LedMask(13, 49) == 0x842B
  {
    LedMaskAt0000();
    LedMaskAt0100();
    LedMaskAt0200();
    LedMaskAt0001();
    LedMaskAt0002();
    LedMaskAt0003();
    LedMaskAt0020();
    LedMaskAt1349();
  }

  lemma LedMaskAt0000()
    ensures LedMask(0, 0) == 0x0000
  {
    assert Digits(0, 0) == [0, 0, 0, 0];
    DigitsMaskLayout(Digits(0, 0));
    SpreadDigits();
  }

  lemma LedMaskAt0100()
    ensures LedMask(1, 0) == 0x0002
  {
    assert Digits(1, 0) == [0, 1, 0, 0];
    DigitsMaskLayout(Digits(1, 0));
    SpreadDigits();
  }

  lemma LedMaskAt0200()
    ensures LedMask(2, 0) == 0x0020
  {
    assert Digits(2, 0) == [0, 2, 0, 0];
    DigitsMaskLayout(Digits(2, 0));
    SpreadDigits();
  }

  lemma LedMaskAt0001()
    ensures LedMask(0, 1) == 0x0008
  {
    assert Digits(0, 1) == [0, 0, 0, 1];
    DigitsMaskLayout(Digits(0, 1));
    SpreadDigits();
  }

  lemma LedMaskAt0002()
    ensures LedMask(0, 2) == 0x0080
  {
    assert Digits(0, 2) == [0, 0, 0, 2];
    DigitsMaskLayout(Digits(0, 2));
    SpreadDigits();
  }

  lemma LedMaskAt0003()
    ensures LedMask(0, 3) == 0x0088
  {
    assert Digits(0, 3) == [0, 0, 0, 3];
    DigitsMaskLayout(Digits(0, 3));
    SpreadDigits();
  }

  lemma LedMaskAt0020()
    ensures LedMask(0, 20) == 0x0040
  {
    assert Digits(0, 20) == [0, 0, 2, 0];
    DigitsMaskLayout(Digits(0, 20));
    SpreadDigits();
  }

  lemma LedMaskAt1349()
    ensures LedMask(13, 49) == 0x842B
  {
    assert Digits(13, 49) == [1, 3, 4, 9];
    DigitsMaskLayout(Digits(13, 49));
    SpreadDigits();
  }

  /** time_to_led_mask: the nested column/row loops over the four digit
      bytes, ORing one bit in per row. */
  method TimeToLedMask(hours: nat, minutes: nat) returns (mask: bv16)
    ensures mask == LedMask(hours, minutes)
  {
    var a := Digits(hours, minutes);
    mask := 0;
    var i := 0;
    while i < 4
      invariant 0 <= i <= 4
      invariant mask == Built(a, i, 0)
    {
      var j := 0;
      while j < 4
        invariant 0 <= j <= 4
        invariant mask == Built(a, i, j)
      {
        mask := mask | Cell(a[i], i, j);
        j := j + 1;
      }
      i := i + 1;
    }
  }
}
