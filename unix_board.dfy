// The unix build's simulated GPIO: a static bool g_pins[10][15] indexed by
// PINBANK and PINNO (firmware/arch/unix/hal.h:39-48), set_leds run against
// it, and the unit test's get_led_mask reading it back
// (firmware/arch/unix/unit_test.c:6-13).

module UnixBoard {
  import opened Hal
  import opened Display
  import opened Leds

  /** The row length of g_pins as the firmware declares it. */
  const AsWrittenWidth: nat := 15

  /** The row length that gives every pin number 0..15 a cell of its own. */
  const CorrectedWidth: nat := 16

  /** The cell of g_pins[PINBANK(pin)][PINNO(pin)] in the row-major layout
      of a 10-row array with rows of `width` cells. */
  function CellIndex(width: nat, pin: Pin): nat
  {
    var p: int := pin as int;
    (p / 256) * width + p % 256
  }

  /** The cells of the 16 LED pins, in mask order: pins of bank A are in
      row 0 and pins of bank B in row 1. */
  function LedCell(width: nat, i: nat): (c: nat)
    requires i < NumLeds
    ensures width >= 2 ==> c < 10 * width
  {
    [3, 4, 5, 6, 11, 12, 15, width + 7, 7, 8, width, width + 1, width + 3, width + 4, width + 5, width + 6][i]
  }

  /** The LED pins as the uint16_t values PIN() builds. */
  lemma LedPinValues()
    ensures LedPins == [0x0003, 0x0004, 0x0005, 0x0006, 0x000B, 0x000C, 0x000F, 0x0107, 0x0007, 0x0008, 0x0100, 0x0101, 0x0103, 0x0104, 0x0105, 0x0106]
  {
  }

  lemma {:induction false} LedCells(width: nat, i: nat)
    requires i < NumLeds
    ensures CellIndex(width, LedPins[i]) == LedCell(width, i)
  {
    LedPinValues();
    if i == 0 {
      assert LedPins[i] == 0x0003;
    } else if i == 1 {
      assert LedPins[i] == 0x0004;
    } else if i == 2 {
      assert LedPins[i] == 0x0005;
    } else if i == 3 {
      assert LedPins[i] == 0x0006;
    } else if i == 4 {
      assert LedPins[i] == 0x000B;
    } else if i == 5 {
      assert LedPins[i] == 0x000C;
    } else if i == 6 {
      assert LedPins[i] == 0x000F;
    } else if i == 7 {
      assert LedPins[i] == 0x0107;
    } else if i == 8 {
      assert LedPins[i] == 0x0007;
    } else if i == 9 {
      assert LedPins[i] == 0x0008;
    } else if i == 10 {
      assert LedPins[i] == 0x0100;
    } else if i == 11 {
      assert LedPins[i] == 0x0101;
    } else if i == 12 {
      assert LedPins[i] == 0x0103;
    } else if i == 13 {
      assert LedPins[i] == 0x0104;
    } else if i == 14 {
      assert LedPins[i] == 0x0105;
    } else {
      assert LedPins[i] == 0x0106;
    }
  }

  /** With rows of at least 16 cells every LED has a cell of its own. */
  lemma LedCellsDistinct(width: nat, i: nat, j: nat)
    requires width >= CorrectedWidth && i < j < NumLeds
    ensures LedCell(width, i) != LedCell(width, j)
  {
  }

  /** With the firmware's rows of 15 cells, LED 6 (PIN('A', 15)) and LED 10
      (PIN('B', 0)) share cell 15, and no other two LEDs share a cell. */
  lemma LedCellsAsWritten(i: nat, j: nat)
    requires i < j < NumLeds
    ensures LedCell(AsWrittenWidth, i) == LedCell(AsWrittenWidth, j) <==> i == 6 && j == 10
  {
  }

  /** Pins whose number fits a row have cells of their own: CellIndex is
      one-to-one on them (two such pins sharing a cell have the same
      uint16_t value). */
  lemma CellIndexInjective(width: nat, p: Pin, q: Pin)
    requires p as int % 256 < width && q as int % 256 < width
    requires CellIndex(width, p) == CellIndex(width, q)
    ensures p as int == q as int
  {
    var c := CellIndex(width, p);
    DivUnique(c, width, p as int / 256, p as int % 256);
    DivUnique(c, width, q as int / 256, q as int % 256);
  }

  /** The firmware's board puts PIN('A', 15) and PIN('B', 0) in one cell;
      rows of 16 cells keep them apart. */
  lemma A15AliasesB0()
    ensures MakePin('A', 15) != MakePin('B', 0)
    ensures CellIndex(AsWrittenWidth, MakePin('A', 15)) == CellIndex(AsWrittenWidth, MakePin('B', 0))
    ensures CellIndex(CorrectedWidth, MakePin('A', 15)) != CellIndex(CorrectedWidth, MakePin('B', 0))
  {
    LedPinValues();
    assert MakePin('A', 15) == LedPins[6] == 0x000F;
    assert MakePin('B', 0) == LedPins[10] == 0x0100;
  }

  /** The board's cells form 10 rows with room for every LED pin. */
  predicate Fits(n: nat, width: nat)
  {
    width >= 2 && n == 10 * width
  }

  /** The cells after set_leds(mask) wrote its first k LEDs, LED i getting
      bit i of the mask. */
  function Driven(cells: seq<bool>, width: nat, mask: bv16, k: nat): (d: seq<bool>)
    requires Fits(|cells|, width) && k <= NumLeds
    ensures |d| == |cells|
  {
    if k == 0 then cells
    else
      LedCells(width, k - 1);
      Driven(cells, width, mask, k - 1)[CellIndex(width, LedPins[k - 1]) := MaskBit(mask, Bit8(k - 1))]
  }

  /** What get_led_mask's gpio_read calls see: LED i reads its cell. */
  function ReadLevels(cells: seq<bool>, width: nat): (l: seq<bool>)
    requires Fits(|cells|, width)
    ensures |l| == NumLeds
  {
    seq(NumLeds, (i: int) requires 0 <= i < NumLeds => LedCells(width, i); cells[CellIndex(width, LedPins[i])])
  }

  /** After set_leds wrote its first k LEDs, the cell of LED i < k holds bit
      i of the mask unless a later LED shares the cell. */
  lemma {:induction false} DrivenAt(cells: seq<bool>, width: nat, mask: bv16, k: nat, i: nat)
    requires Fits(|cells|, width) && i < k <= NumLeds
    requires forall j :: i < j < k ==> LedCell(width, j) != LedCell(width, i)
    ensures Driven(cells, width, mask, k)[LedCell(width, i)] == MaskBit(mask, Bit8(i))
  {
    LedCells(width, k - 1);
    LedCells(width, i);
    if i < k - 1 {
      DrivenAt(cells, width, mask, k - 1, i);
    }
  }

  /** On a board with rows of at least 16 cells, get_led_mask reads back
      exactly the levels set_leds drove, and so the mask it was given. */
  lemma ReadBackCorrected(cells: seq<bool>, width: nat, mask: bv16)
    requires Fits(|cells|, width) && width >= CorrectedWidth
    ensures ReadLevels(Driven(cells, width, mask, NumLeds), width) == Levels(mask)
    ensures MaskOf(ReadLevels(Driven(cells, width, mask, NumLeds), width)) == mask
  {
    var d := Driven(cells, width, mask, NumLeds);
    forall i | 0 <= i < NumLeds
      ensures ReadLevels(d, width)[i] == Levels(mask)[i]
    {
      forall j | i < j < NumLeds
        ensures LedCell(width, j) != LedCell(width, i)
      {
        LedCellsDistinct(width, i, j);
      }
      DrivenAt(cells, width, mask, NumLeds, i);
      LedCells(width, i);
    }
    MaskOfLevels(mask);
  }

  /** On the firmware's board LED 6 reads back the level of LED 10, which
      set_leds writes later into the same cell; every other LED reads its
      own level. */
  lemma ReadBackAsWritten(cells: seq<bool>, mask: bv16)
    requires Fits(|cells|, AsWrittenWidth)
    ensures ReadLevels(Driven(cells, AsWrittenWidth, mask, NumLeds), AsWrittenWidth) == Levels(mask)[6 := MaskBit(mask, 10)]
  {
    var w := AsWrittenWidth;
    var d := Driven(cells, w, mask, NumLeds);
    forall i | 0 <= i < NumLeds
      ensures ReadLevels(d, w)[i] == Levels(mask)[6 := MaskBit(mask, 10)][i]
    {
      var owner := if i == 6 then 10 else i;
      forall j | owner < j < NumLeds
        ensures LedCell(w, j) != LedCell(w, owner)
      {
        LedCellsAsWritten(owner, j);
      }
      if i == 6 {
        LedCellsAsWritten(6, 10);
      }
      DrivenAt(cells, w, mask, NumLeds, owner);
      LedCells(w, i);
    }
  }

  /** So on the firmware's board get_led_mask returns the mask set_leds was
      given exactly when bits 6 and 10 of that mask agree. */
  lemma ReadBackAsWrittenMask(cells: seq<bool>, mask: bv16)
    requires Fits(|cells|, AsWrittenWidth)
    ensures MaskOf(ReadLevels(Driven(cells, AsWrittenWidth, mask, NumLeds), AsWrittenWidth)) == mask
            <==> MaskBit(mask, 6) == MaskBit(mask, 10)
  {
    var r := ReadLevels(Driven(cells, AsWrittenWidth, mask, NumLeds), AsWrittenWidth);
    ReadBackAsWritten(cells, mask);
    if MaskBit(mask, 6) == MaskBit(mask, 10) {
      assert r == Levels(mask);
      MaskOfLevels(mask);
    } else {
      MaskOfBits(r, 6);
    }
  }

  /** The mask 0x0040 has bit 6 alone. */
  lemma OnlyBit6(j: bv8)
    requires j < 16
    ensures MaskBit(0x0040, j) == (j == 6)
  {
    SingleBitsMeet(6, j);
    assert Single(6) == 0x0040;
  }

  /** Shown on the firmware's board, 0:20 (LED 6 alone lit) reads back as
      all LEDs off: LED 6 reads the cell LED 10 darkened after it. */
  lemma TwentyPastMidnightReadsBackDark(cells: seq<bool>)
    requires Fits(|cells|, AsWrittenWidth)
    ensures LedMask(0, 20) == 0x0040
    ensures MaskOf(ReadLevels(Driven(cells, AsWrittenWidth, LedMask(0, 20), NumLeds), AsWrittenWidth)) == 0
  {
    LedMaskAt0020();
    ReadBackAsWritten(cells, 0x0040);
    OnlyBit6(10);
    var r := Levels(0x0040)[6 := false];
    forall j: bv8 | j < 16
      ensures MaskBit(MaskOf(r), j) <==> MaskBit(0, j)
    {
      MaskOfBits(r, j);
      OnlyBit6(j);
    }
    MaskEqByBits(MaskOf(r), 0);
  }

  /** LED i's cell lies on the board, and it is what ReadLevels reports for
      LED i. */
  lemma ReadStep(cells: seq<bool>, width: nat, i: bv8)
    requires Fits(|cells|, width) && i < 16
    ensures CellIndex(width, LedPins[i]) < |cells|
    ensures ReadLevels(cells, width)[i] == cells[CellIndex(width, LedPins[i])]
  {
    LedCells(width, i as nat);
  }

  /** g_pins: 10 rows of `width` cells, stored row after row. */
  class Board {
    const width: nat
    const cells: array<bool>

    ghost predicate Valid()
      reads this
    {
      Fits(cells.Length, width)
    }

    /** A static array: every cell starts false. */
    constructor(width: nat)
      requires width >= 2
      ensures Valid() && this.width == width && fresh(cells)
      ensures forall c :: 0 <= c < cells.Length ==> !cells[c]
    {
      this.width := width;
      cells := new bool[10 * width](_ => false);
    }

    /** gpio_read(pin): the cell of the pin's bank and number. */
    function Read(pin: Pin): bool
      reads this, cells
      requires Valid() && CellIndex(width, pin) < cells.Length
    {
      cells[CellIndex(width, pin)]
    }

    /** gpio_write(pin, val): only the pin's cell changes. */
    method Write(pin: Pin, val: bool)
      requires Valid() && CellIndex(width, pin) < cells.Length
      modifies cells
      ensures cells[..] == old(cells[..])[CellIndex(width, pin) := val]
    {
      cells[CellIndex(width, pin)] := val;
    }

    /** set_leds(mask) on this board: LED i, in order, is written bit i of
        the mask. */
    method SetLeds(mask: bv16)
      requires Valid()
      modifies cells
      ensures cells[..] == Driven(old(cells[..]), width, mask, NumLeds)
    {
      for i := 0 to NumLeds
        invariant cells[..] == Driven(old(cells[..]), width, mask, i)
      {
        LedCells(width, i);
        Write(LedPins[i], MaskBit(mask, Bit8(i)));
      }
    }

    /** get_led_mask: LED i's level, read from its cell, becomes bit i. */
    method GetLedMask() returns (mask: bv16)
      requires Valid()
      ensures mask == MaskOf(ReadLevels(cells[..], width))
    {
      mask := 0;
      ghost var levels := ReadLevels(cells[..], width);
      var i: bv8 := 0;
      while i < 16
        invariant i <= 16
        invariant mask == MaskOfPrefix(levels, i)
      {
        ReadStep(cells[..], width, i);
        var val := Read(LedPins[i]);
        MaskOfPrefixNext(levels, i);
        mask := mask | LevelBit(val, i);
        i := i + 1;
      }
    }
  }
}
