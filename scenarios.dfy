// The unit test's walk through the watch (firmware/arch/unix/unit_test.c:
// main), replayed on the state machine: each loop() call of the test is
// one LedStep (log_task touches nothing the test looks at). The masks are
// the ones the firmware's set_leds order produces.

module Scenarios {
  import opened Display
  import opened Leds
  import opened WatchFirmware
  import UnixBoard

  /** Time passing with no press. */
  function Wait(s: Snapshot, ms: nat): Snapshot
  {
    s.(ticks := s.ticks + ms)
  }

  /** n presses in a row, with no tick in between. */
  function Presses(s: Snapshot, n: nat): Snapshot
  {
    if n == 0 then s else Press(Presses(s, n - 1))
  }

  /** One round of the unit test: n clicks, ms milliseconds of waiting,
      then one loop() call. */
  function Round(s: Snapshot, n: nat, ms: nat): Snapshot
  {
    LedStep(Wait(Presses(s, n), ms))
  }

  /** The state after each loop() call of the unit test, in order. */
  function UnitTestRun(): (run: seq<Snapshot>)
    ensures |run| == 12
  {
    var a := Round(Boot().(ticks := 3 * 60 * 1000), 1, NEXT_PRESS_MS + 1);
    var b := Round(a, 0, TIMEOUT_MS + 1);
    var c := Round(b, 3, NEXT_PRESS_MS + 1);
    var d := Round(c, 0, TIMEOUT_MS + 2);
    var e := Round(d, 3, NEXT_PRESS_MS + 1);
    var f := Round(e, 1, 0);
    var g := Round(f, 1, 0);
    var h := Round(g, 0, NEXT_PRESS_MS + TIMEOUT_MS + 2);
    var i := Round(h, 4, NEXT_PRESS_MS + 1);
    var j := Round(i, 1, 0);
    var k := Round(j, 1, 0);
    var l := Round(k, 0, NEXT_PRESS_MS + TIMEOUT_MS + 2);
    [a, b, c, d, e, f, g, h, i, j, k, l]
  }

  // The expected state after each loop() call.
  const A := Snapshot(180501, ShowTime, 183001, 0, 180500, 0, 0, Levels(0x0088))
  const B := Snapshot(183002, Sleep, 183001, 0, 180500, 0, 0, Levels(0))
  const C := Snapshot(183903, SetHours, 186403, 0, 183502, 0, 0, Levels(0))
  const D := Snapshot(186405, Sleep, 186403, 0, 183502, 0, 0, Levels(0))
  const E := Snapshot(187306, SetHours, 189806, 0, 186905, 0, 0, Levels(0))
  const F := Snapshot(187306, SetHours, 189806, 3600000, 187806, 1, 1, Levels(0x0002))
  const G := Snapshot(187306, SetHours, 189806, 7200000, 187806, 2, 2, Levels(0x0020))
  const H := Snapshot(190308, Sleep, 189806, 7200000, 187806, 0, 0, Levels(0))
  const I := Snapshot(191609, SetMinutes, 194109, 7200000, 190808, 0, 0, Levels(0))
  const J := Snapshot(191609, SetMinutes, 194109, 7260000, 192109, 1, 1, Levels(0x0008))
  const K := Snapshot(191609, SetMinutes, 194109, 7320000, 192109, 2, 2, Levels(0x0080))
  const L := Snapshot(194611, Sleep, 194109, 7320000, 192109, 0, 0, Levels(0))

  /** A single press at 3 minutes past boot shows 00:03 ... */
  lemma StepA()
    ensures Round(Boot().(ticks := 3 * 60 * 1000), 1, NEXT_PRESS_MS + 1) == A
  {
    var s := Snapshot(180501, Sleep, 0, 0, 180500, 1, 0, Levels(0));
    assert Wait(Presses(Boot().(ticks := 3 * 60 * 1000), 1), NEXT_PRESS_MS + 1) == s;
    assert Hours(180501) == 0 && Minutes(180501) == 3;
    LedMaskExamples();
    assert Dispatch(s) == A;
  }

  /** ... until the timeout has passed. */
  lemma StepB()
    ensures Round(A, 0, TIMEOUT_MS + 1) == B
  {
  }

  /** Three presses blink once and set hours ... */
  lemma StepC()
    ensures Round(B, 3, NEXT_PRESS_MS + 1) == C
  {
    assert Presses(B, 3) == B.(nextPressTimeout := 183502, pressCount := 3);
  }

  /** ... and with no further press the watch falls asleep with the offset
      unchanged. */
  lemma StepD()
    ensures Round(C, 0, TIMEOUT_MS + 2) == D
  {
  }

  /** Three presses again ... */
  lemma StepE()
    ensures Round(D, 3, NEXT_PRESS_MS + 1) == E
  {
    assert Presses(D, 3) == D.(nextPressTimeout := 186905, pressCount := 3);
  }

  /** ... then one press shows hour 1 ... */
  lemma StepF()
    ensures Round(E, 1, 0) == F
  {
    LedMaskExamples();
  }

  /** ... and another hour 2 ... */
  lemma StepG()
    ensures Round(F, 1, 0) == G
  {
    LedMaskExamples();
  }

  /** ... and after the timeout the offset is at 2:00. */
  lemma StepH()
    ensures Round(G, 0, NEXT_PRESS_MS + TIMEOUT_MS + 2) == H
  {
  }

  /** Four presses blink twice and set minutes ... */
  lemma StepI()
    ensures Round(H, 4, NEXT_PRESS_MS + 1) == I
  {
    assert Presses(H, 4) == H.(nextPressTimeout := 190808, pressCount := 4);
  }

  /** ... one press shows minute 1 ... */
  lemma StepJ()
    ensures Round(I, 1, 0) == J
  {
    LedMaskExamples();
  }

  /** ... another minute 2 ... */
  lemma StepK()
    ensures Round(J, 1, 0) == K
  {
    LedMaskExamples();
  }

  /** ... and after the timeout the watch sleeps with the offset at 2:02. */
  lemma StepL()
    ensures Round(K, 0, NEXT_PRESS_MS + TIMEOUT_MS + 2) == L
  {
  }

  /** The whole walk, state by state. */
  lemma UnitTestStates()
    ensures UnitTestRun() == [A, B, C, D, E, F, G, H, I, J, K, L]
  {
    StepA(); StepB(); StepC(); StepD(); StepE(); StepF();
    StepG(); StepH(); StepI(); StepJ(); StepK(); StepL();
  }

  /** What the unit test reads back from the LEDs after each loop(). */
  lemma UnitTestMasks()
    ensures MaskOf(A.leds) == 0x0088 && MaskOf(B.leds) == 0 && MaskOf(C.leds) == 0
    ensures MaskOf(D.leds) == 0 && MaskOf(E.leds) == 0 && MaskOf(F.leds) == 0x0002
    ensures MaskOf(G.leds) == 0x0020 && MaskOf(H.leds) == 0 && MaskOf(I.leds) == 0
    ensures MaskOf(J.leds) == 0x0008 && MaskOf(K.leds) == 0x0080 && MaskOf(L.leds) == 0
  {
    MaskOfLevels(0);
    MaskOfLevels(0x0088);
    MaskOfLevels(0x0002);
    MaskOfLevels(0x0020);
    MaskOfLevels(0x0008);
    MaskOfLevels(0x0080);
  }

  /** The offset as set: 2:00 after setting hours, 2:02 after setting
      minutes. */
  lemma UnitTestOffset()
    ensures Hours(H.offset) == 2 && Minutes(H.offset) == 0
    ensures Hours(L.offset) == 2 && Minutes(L.offset) == 2
  {
  }

  /** The 13 masks the unit test reads back, in order. */
  const UnitTestReadBacks: seq<bv16> := [0, 0x0088, 0, 0, 0, 0, 0x0002, 0x0020, 0, 0, 0x0008, 0x0080, 0]

  /** None of the masks the unit test reads back has bit 6 or bit 10 set,
      so the unix board with its rows of 15 cells gives each of them back
      unchanged. */
  lemma UnitTestMasksReadBackOnBoard(cells: seq<bool>, i: nat)
    requires UnixBoard.Fits(|cells|, UnixBoard.AsWrittenWidth) && i < |UnitTestReadBacks|
    ensures var m := UnitTestReadBacks[i];
            !MaskBit(m, 6) && !MaskBit(m, 10) &&
            MaskOf(UnixBoard.ReadLevels(UnixBoard.Driven(cells, UnixBoard.AsWrittenWidth, m, NumLeds), UnixBoard.AsWrittenWidth)) == m
  {
    var m := UnitTestReadBacks[i];
    assert m in {0x0000, 0x0088, 0x0002, 0x0020, 0x0008, 0x0080};
    UnixBoard.ReadBackAsWrittenMask(cells, m);
  }

  // ---------------------------------------------------------------------
  // The unit test against the firmware's handlers and tasks
  // ---------------------------------------------------------------------

  /** n clicks in a row through the interrupt handler. */
  method Click(w: Watch, n: nat)
    modifies w
    ensures w.State() == Presses(old(w.State()), n)
  {
    for i := 0 to n
      invariant w.State() == Presses(old(w.State()), i)
    {
      w.ButtonIrq();
    }
  }

  /** One round of the unit test: n clicks, g_ticks advanced by ms, and
      one loop() call. */
  method PlayRound(w: Watch, n: nat, ms: nat)
    requires w.Valid()
    modifies w, w.leds
    ensures w.State() == Round(old(w.State()), n, ms)
  {
    ghost var s := w.State();
    Click(w, n);
    ghost var p := w.State();
    assert p == Presses(s, n);
    w.ticks := w.ticks + ms;
    assert w.State() == Wait(p, ms);
    w.Loop();
  }

  /** A round of the unit test whose outcome the state machine predicts,
      and what the test then looks at: the LEDs read back as a mask, the
      state and the offset. */
  method Observe(w: Watch, n: nat, ms: nat, ghost expected: Snapshot) returns (mask: bv16, mode: Mode, offset: nat)
    requires w.Valid() && Round(w.State(), n, ms) == expected
    modifies w, w.leds
    ensures w.State() == expected
    ensures mask == MaskOf(expected.leds) && mode == expected.mode && offset == expected.offset
  {
    PlayRound(w, n, ms);
    mask, mode, offset := MaskOf(w.leds[..]), w.mode, w.offset;
  }

  /** The single click: the time shown, then dark after the timeout. */
  method ShowTimeRounds(w: Watch) returns (masks: seq<bv16>)
    requires w.Valid() && w.State() == Boot().(ticks := 3 * 60 * 1000)
    modifies w, w.leds
    ensures w.State() == B && masks == [0x0088, 0]
  {
    UnitTestMasks();
    StepA();
    var ma, _, _ := Observe(w, 1, NEXT_PRESS_MS + 1, A);
    StepB();
    var mb, _, _ := Observe(w, 0, TIMEOUT_MS + 1, B);
    masks := [ma, mb];
  }

  /** Setting hours: three clicks left to time out, then three clicks and
      two more, left to time out with the offset at 2:00. */
  method SetHoursRounds(w: Watch) returns (masks: seq<bv16>, modes: seq<Mode>, offset: nat)
    requires w.Valid() && w.State() == B
    modifies w, w.leds
    ensures w.State() == H
    ensures masks == [0, 0, 0, 0x0002, 0x0020, 0] && modes == [SetHours, Sleep, SetHours, SetHours, SetHours]
    ensures offset == 2 * HOUR_MS
  {
    UnitTestMasks();
    StepC();
    var mc, sc, _ := Observe(w, 3, NEXT_PRESS_MS + 1, C);
    StepD();
    var md, sd, _ := Observe(w, 0, TIMEOUT_MS + 2, D);
    StepE();
    var me, se, _ := Observe(w, 3, NEXT_PRESS_MS + 1, E);
    StepF();
    var mf, sf, _ := Observe(w, 1, 0, F);
    StepG();
    var mg, sg, _ := Observe(w, 1, 0, G);
    StepH();
    var mh, _, oh := Observe(w, 0, NEXT_PRESS_MS + TIMEOUT_MS + 2, H);
    masks, modes, offset := [mc, md, me, mf, mg, mh], [sc, sd, se, sf, sg], oh;
  }

  /** Setting minutes: four clicks and two more, left to time out at
      2:02. */
  method SetMinutesRounds(w: Watch) returns (masks: seq<bv16>, mode: Mode, offset: nat)
    requires w.Valid() && w.State() == H
    modifies w, w.leds
    ensures w.State() == L
    ensures masks == [0, 0x0008, 0x0080, 0] && mode == SetMinutes
    ensures offset == 2 * HOUR_MS + 2 * MINUTE_MS
  {
    UnitTestMasks();
    StepI();
    var mi, si, _ := Observe(w, 4, NEXT_PRESS_MS + 1, I);
    StepJ();
    var mj, _, _ := Observe(w, 1, 0, J);
    StepK();
    var mk, _, _ := Observe(w, 1, 0, K);
    StepL();
    var ml, _, ol := Observe(w, 0, NEXT_PRESS_MS + TIMEOUT_MS + 2, L);
    masks, mode, offset := [mi, mj, mk, ml], si, ol;
  }

  /** unit_test.c's main() on the firmware: the three masks it encodes
      directly, the LED mask read back after setup() and after each
      loop(), the states it checks, and the offset after setting hours and
      then minutes. The masks are the ones set_leds' order gives; the
      test's own constants follow an older layout. */
  method UnitTest() returns (encoded: seq<bv16>, masks: seq<bv16>, modes: seq<Mode>, offset: seq<nat>)
    ensures encoded == [0x0000, 0x0002, 0x0008]
    ensures masks == UnitTestReadBacks
    ensures modes == [SetHours, Sleep, SetHours, SetHours, SetHours, SetMinutes]
    ensures offset == [2 * HOUR_MS, 2 * HOUR_MS + 2 * MINUTE_MS]
  {
    var w := new Watch.Setup();
    ghost var leds := w.leds;
    MaskOfLevels(0);
    var m0 := MaskOf(w.leds[..]);
    var e0 := TimeToLedMask(0, 0);
    var e1 := TimeToLedMask(1, 0);
    var e2 := TimeToLedMask(0, 1);
    LedMaskExamples();
    encoded := [e0, e1, e2];
    w.ticks := 3 * 60 * 1000;
    assert fresh(leds) && w.leds == leds;
    var shown := ShowTimeRounds(w);
    var hours, hourModes, hourSet := SetHoursRounds(w);
    var minutes, minuteMode, minuteSet := SetMinutesRounds(w);
    masks := [m0, shown[0], shown[1], hours[0], hours[1], hours[2], hours[3], hours[4], hours[5],
              minutes[0], minutes[1], minutes[2], minutes[3]];
    modes := hourModes + [minuteMode];
    offset := [hourSet, minuteSet];
  }
}
