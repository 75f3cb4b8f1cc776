// Pin encoding, BIT and CLRSET, and the register-field arithmetic of
// gpio_init (firmware/arch/stm32/hal.h; the pin and bit macros are
// repeated verbatim in firmware/arch/unix/hal.h).

module Hal {

  /** A pin as the firmware passes it around: a uint16_t holding the bank
      (0 for 'A') in the high byte and the pin number in the low byte. */
  type Pin = bv16

  /** PINNO(pin): the low byte. */
  function PinNo(pin: Pin): (n: bv16)
    ensures n < 256
  {
    pin & 255
  }

  /** PINBANK(pin): everything above the low byte. */
  function PinBank(pin: Pin): (b: bv16)
    ensures b < 256
  {
    pin >> 8
  }

  /** PIN(bank, num), for a bank letter at or after 'A' and a number that
      fit the one byte each that a uint16_t leaves them. PINNO and PINBANK
      recover the two. */
  function MakePin(bank: char, num: bv16): (pin: Pin)
    requires 'A' <= bank && bank as int - 'A' as int < 256 && num < 256
    ensures PinNo(pin) == num
    ensures PinBank(pin) == (bank as int - 'A' as int) as bv16
  {
    ((bank as int - 'A' as int) as bv16 << 8) | num
  }

  /** Whether bit k of a 32-bit value is set. */
  predicate BitSet(v: bv32, k: nat)
    requires k < 32
  {
    (v >> k) & 1 == 1
  }

  /** BIT(x): the 32-bit value with only bit x set. */
  function Bit(x: nat): (b: bv32)
    requires x < 32
    ensures b != 0 && b & (b - 1) == 0
    ensures forall k: nat :: k < 32 ==> (BitSet(b, k) <==> k == x)
  {
    1 << x
  }

  /** CLRSET(R, C, S): clear the bits of C, then set the bits of S. When S
      lies inside C, the bits outside C keep their old values and the bits
      inside C become exactly S. */
  function ClrSet(reg: bv32, clearMask: bv32, setMask: bv32): (r: bv32)
    ensures setMask & !clearMask == 0 ==> r & !clearMask == reg & !clearMask && r & clearMask == setMask
  {
    (reg & !clearMask) | setMask
  }

  // ---------------------------------------------------------------------
  // gpio_init: the field arithmetic of one pin's configuration
  // ---------------------------------------------------------------------

  /** The field whose all-ones mask is `ones`, read at bit `pos`. */
  function Field(reg: bv32, pos: bv32, ones: bv32): bv32
    requires pos < 32
  {
    (reg >> pos) & ones
  }

  /** The operands gpio_init hands to CLRSET for pin n are well formed: each
      shifted value lies inside the 1-, 2- or 4-bit mask it is written under
      (so CLRSET writes exactly that field), and AFR[n >> 3] is AFR[0] or
      AFR[1]. This needs the pin number below 16, a type of at most 1, a
      speed, pull and mode of at most 3 and an alternate function of at
      most 15. */
  lemma FieldsFitMasks(n: bv32, mode: bv8, otype: bv8, speed: bv8, pull: bv8, af: bv8)
    requires n < 16 && otype <= 1 && speed <= 3 && pull <= 3 && mode <= 3 && af <= 15
    ensures ((otype as bv32) << n) & !(1 << n) == 0
    ensures ((speed as bv32) << (n * 2)) & !(3 << (n * 2)) == 0
    ensures ((pull as bv32) << (n * 2)) & !(3 << (n * 2)) == 0
    ensures ((mode as bv32) << (n * 2)) & !(3 << (n * 2)) == 0
    ensures ((af as bv32) << ((n & 7) * 4)) & !(15 << ((n & 7) * 4)) == 0
    ensures n >> 3 <= 1
  {
  }

  /** Reading back the OTYPER update of gpio_init for pin n gives the type. */
  lemma OtypeField(reg: bv32, n: bv32, otype: bv8)
    requires n < 16 && otype <= 1
    ensures Field(ClrSet(reg, 1 << n, (otype as bv32) << n), n, 1) == otype as bv32
  {
  }

  /** Reading back a two-bit update of gpio_init (OSPEEDR, PUPDR or MODER)
      for pin n gives the value written. */
  lemma PairField(reg: bv32, n: bv32, v: bv8)
    requires n < 16 && v <= 3
    ensures Field(ClrSet(reg, 3 << (n * 2), (v as bv32) << (n * 2)), n * 2, 3) == v as bv32
  {
  }

  /** Reading back the AFR[n >> 3] update of gpio_init gives the alternate
      function. */
  lemma AfField(reg: bv32, n: bv32, af: bv8)
    requires n < 16 && af <= 15
    ensures Field(ClrSet(reg, 15 << ((n & 7) * 4), (af as bv32) << ((n & 7) * 4)), (n & 7) * 4, 15) == af as bv32
  {
  }
}
