// The 16 LEDs of the watch face and the two directions between a 16-bit
// LED mask and the LED levels: set_leds drives LED i to bit i of the mask
// (firmware/watch.c:61-68), and the unit test's get_led_mask collects the
// levels back into a mask, LED i into bit i
// (firmware/arch/unix/unit_test.c:6-13).

module Leds {
  import opened Hal
  import opened Display

  /** The LED pins in mask order: four red LEDs (bit values 1 of the four
      columns), then orange, green and blue. */
  const LedPins: seq<Pin> := [
    MakePin('A', 3), MakePin('A', 4), MakePin('A', 5), MakePin('A', 6),
    MakePin('A', 11), MakePin('A', 12), MakePin('A', 15), MakePin('B', 7),
    MakePin('A', 7), MakePin('A', 8), MakePin('B', 0), MakePin('B', 1),
    MakePin('B', 3), MakePin('B', 4), MakePin('B', 5), MakePin('B', 6)]

  const NumLeds := 16

  /** LED number k as the bit index of its mask bit. */
  function Bit8(k: nat): (b: bv8)
    requires k < 16
    ensures b < 16
  {
    k as bv8
  }

  /** The levels set_leds(mask) drives: LED i is on exactly when bit i of
      the mask is set. */
  function Levels(mask: bv16): (levels: seq<bool>)
    ensures |levels| == NumLeds
    ensures forall i: bv8 :: i < 16 ==> (levels[i] <==> MaskBit(mask, i))
  {
    seq(NumLeds, (i: int) requires 0 <= i < NumLeds => MaskBit(mask, Bit8(i)))
  }

  /** set_leds(0) turns every LED off. */
  lemma LevelsOfZero()
    ensures Levels(0) == seq(NumLeds, _ => false)
  {
    forall i | 0 <= i < NumLeds
      ensures !Levels(0)[i]
    {
      assert !MaskBit(0, Bit8(i));
    }
  }

  /** The bit get_led_mask contributes for LED k: its level shifted to
      bit k. */
  function LevelBit(on: bool, k: bv8): bv16
    requires k < 16
  {
    (if on then 1 else 0) << k
  }

  /** get_led_mask after its first k iterations. */
  function MaskOfPrefix(levels: seq<bool>, k: bv8): bv16
    requires k as int <= |levels| && k <= 16
  {
    if k == 0 then 0 else MaskOfPrefix(levels, k - 1) | LevelBit(levels[k - 1], k - 1)
  }

  /** get_led_mask on 16 LED levels. */
  function MaskOf(levels: seq<bool>): bv16
    requires |levels| == NumLeds
  {
    MaskOfPrefix(levels, 16)
  }

  /** One more iteration of get_led_mask. */
  lemma MaskOfPrefixNext(levels: seq<bool>, k: bv8)
    requires k as int < |levels| && k < 16
    ensures MaskOfPrefix(levels, k + 1) == MaskOfPrefix(levels, k) | LevelBit(levels[k], k)
  {
  }

  /** The mask with only bit k set. */
  function Single(k: bv8): (m: bv16)
    requires k < 16
  {
    1 << k
  }

  /** Two distinct single-bit masks share no bit. */
  lemma SingleBitsMeet(i: bv8, j: bv8)
    requires i < 16 && j < 16
    ensures Single(i) & Single(j) != 0 <==> i == j
  {
  }

  lemma AndOr(a: bv16, c: bv16, s: bv16)
    ensures (a | c) & s != 0 <==> a & s != 0 || c & s != 0
  {
  }

  /** An LED that is off adds no bit. */
  lemma OrBitOff(mask: bv16, i: bv8, j: bv8)
    requires i < 16 && j < 16
    ensures MaskBit(mask | LevelBit(false, i), j) <==> MaskBit(mask, j)
  {
    assert LevelBit(false, i) == 0;
    assert mask | 0 == mask;
  }

  /** Or-ing in a mask c changes the bit selected by s only when c has it. */
  lemma OrSelected(mask: bv16, c: bv16, s: bv16, hit: bool)
    requires c & s != 0 <==> hit
    ensures (mask | c) & s != 0 <==> mask & s != 0 || hit
  {
    AndOr(mask, c, s);
  }

  /** An LED that is on sets no bit other than its own ... */
  lemma OrBitOnOnly(mask: bv16, i: bv8, j: bv8)
    requires i < 16 && j < 16
    ensures MaskBit(mask | LevelBit(true, i), j) ==> MaskBit(mask, j) || j == i
  {
    SingleBitsMeet(i, j);
    OrSelected(mask, Single(i), Single(j), i == j);
  }

  /** ... and it sets its own bit and keeps the others. */
  lemma OrBitOnSets(mask: bv16, i: bv8, j: bv8)
    requires i < 16 && j < 16
    ensures MaskBit(mask, j) || j == i ==> MaskBit(mask | LevelBit(true, i), j)
  {
    SingleBitsMeet(i, j);
    OrSelected(mask, Single(i), Single(j), i == j);
  }

  /** One iteration of get_led_mask adds bit i when LED i is on and leaves
      every other bit as it was. */
  lemma OrBit(mask: bv16, b: bool, i: bv8, j: bv8)
    requires i < 16 && j < 16
    ensures MaskBit(mask | LevelBit(b, i), j) <==> MaskBit(mask, j) || (j == i && b)
  {
    if b {
      OrBitOnOnly(mask, i, j);
      OrBitOnSets(mask, i, j);
    } else {
      OrBitOff(mask, i, j);
    }
  }

  /** After k iterations of get_led_mask, bit j is set exactly when j < k
      and LED j is on. */
  lemma {:induction false} MaskOfPrefixBits(l: seq<bool>, k: bv8)
    requires |l| == NumLeds && k <= 16
    ensures forall j: bv8 :: j < 16 ==> (MaskBit(MaskOfPrefix(l, k), j) <==> j < k && l[j])
  {
    if k > 0 {
      MaskOfPrefixBits(l, k - 1);
      forall j: bv8 | j < 16
        ensures MaskBit(MaskOfPrefix(l, k), j) <==> j < k && l[j]
      {
        OrBit(MaskOfPrefix(l, k - 1), l[k - 1], k - 1, j);
      }
    }
  }

  /** get_led_mask's bit j is set exactly when LED j is on. */
  lemma MaskOfBits(l: seq<bool>, j: bv8)
    requires |l| == NumLeds && j < 16
    ensures MaskBit(MaskOf(l), j) <==> l[j]
  {
    MaskOfPrefixBits(l, 16);
  }

  /** A mask is the OR of its own bits, each in its place. */
  lemma MaskFromBits(m: bv16)
    ensures m == LevelBit(MaskBit(m, 0), 0) | LevelBit(MaskBit(m, 1), 1) | LevelBit(MaskBit(m, 2), 2) | LevelBit(MaskBit(m, 3), 3) |
                 LevelBit(MaskBit(m, 4), 4) | LevelBit(MaskBit(m, 5), 5) | LevelBit(MaskBit(m, 6), 6) | LevelBit(MaskBit(m, 7), 7) |
                 LevelBit(MaskBit(m, 8), 8) | LevelBit(MaskBit(m, 9), 9) | LevelBit(MaskBit(m, 10), 10) | LevelBit(MaskBit(m, 11), 11) |
                 LevelBit(MaskBit(m, 12), 12) | LevelBit(MaskBit(m, 13), 13) | LevelBit(MaskBit(m, 14), 14) | LevelBit(MaskBit(m, 15), 15)
  {
  }

  /** Masks with the same 16 bits are equal. */
  lemma MaskEqByBits(a: bv16, b: bv16)
    requires forall j: bv8 :: j < 16 ==> (MaskBit(a, j) <==> MaskBit(b, j))
    ensures a == b
  {
    MaskFromBits(a);
    MaskFromBits(b);
    assert LevelBit(MaskBit(a, 0), 0) | LevelBit(MaskBit(a, 1), 1) | LevelBit(MaskBit(a, 2), 2) | LevelBit(MaskBit(a, 3), 3) |
           LevelBit(MaskBit(a, 4), 4) | LevelBit(MaskBit(a, 5), 5) | LevelBit(MaskBit(a, 6), 6) | LevelBit(MaskBit(a, 7), 7) |
           LevelBit(MaskBit(a, 8), 8) | LevelBit(MaskBit(a, 9), 9) | LevelBit(MaskBit(a, 10), 10) | LevelBit(MaskBit(a, 11), 11) |
           LevelBit(MaskBit(a, 12), 12) | LevelBit(MaskBit(a, 13), 13) | LevelBit(MaskBit(a, 14), 14) | LevelBit(MaskBit(a, 15), 15) ==
           LevelBit(MaskBit(b, 0), 0) | LevelBit(MaskBit(b, 1), 1) | LevelBit(MaskBit(b, 2), 2) | LevelBit(MaskBit(b, 3), 3) |
           LevelBit(MaskBit(b, 4), 4) | LevelBit(MaskBit(b, 5), 5) | LevelBit(MaskBit(b, 6), 6) | LevelBit(MaskBit(b, 7), 7) |
           LevelBit(MaskBit(b, 8), 8) | LevelBit(MaskBit(b, 9), 9) | LevelBit(MaskBit(b, 10), 10) | LevelBit(MaskBit(b, 11), 11) |
           LevelBit(MaskBit(b, 12), 12) | LevelBit(MaskBit(b, 13), 13) | LevelBit(MaskBit(b, 14), 14) | LevelBit(MaskBit(b, 15), 15);
  }

  /** Reading back the levels set_leds drove gives the mask it was given. */
  lemma {:induction false} MaskOfLevels(m: bv16)
    ensures MaskOf(Levels(m)) == m
  {
    MaskOfPrefixBits(Levels(m), 16);
    MaskEqByBits(MaskOf(Levels(m)), m);
  }

  /** Two masks that drive the same levels are equal. */
  lemma {:induction false} LevelsInjective(m: bv16, n: bv16)
    requires Levels(m) == Levels(n)
    ensures m == n
  {
    MaskOfLevels(m);
    MaskOfLevels(n);
  }
}
